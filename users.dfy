/** The users router: create with idempotency-key replay, conditional update
    guarded by an entity tag (`If-Match`), and delete guarded by task
    authorship. */
module UserRoutes {
  import opened Http
  import opened Tables
  import opened Idempotency

  /** Bodies the handlers send: the created user `{ id, name, email }`, the
      updated row, or a message. */
  datatype Body = Created(id: UserId, name: string, email: Option<string>) | Row(row: UserRow) | Message(text: string) | NoBody

  /** The `users`, `tasks` and `idempotency_keys` tables. `tag` is `genEtag`:
      a deterministic fingerprint of a row, left uninterpreted. */
  class UserStore {
    var users: map<UserId, UserRow>
    var tasks: map<TaskId, TaskRow>
    var ledger: Ledger<Body>
    const tag: UserRow -> string

    ghost predicate Valid()
      reads this
    {
      UsersKeyed(users)
    }

    constructor (tag: UserRow -> string)
      ensures Valid()
      ensures users == map[] && tasks == map[] && ledger == map[] && this.tag == tag
    {
      users := map[];
      tasks := map[];
      ledger := map[];
      this.tag := tag;
    }

    /** POST `/`: a recorded key replays its response; otherwise a user is
        inserted and, under a key, its 201 reply recorded. `freshId` stands
        for `genId()`, `now` for `Date.now()`. */
    method Create(key: Option<string>, name: Option<string>, email: Option<string>, freshId: UserId, now: int)
      returns (r: Response<Body>)
      requires Valid()
      requires freshId !in users
      modifies this
      ensures Valid()
      ensures Lookup(old(ledger), key).Some? ==> r == Lookup(old(ledger), key).value && unchanged(this)
      ensures Lookup(old(ledger), key).None? && !Truthy(name) ==>
        r == Response(BAD_REQUEST, Message("Name required")) && unchanged(this)
      ensures Lookup(old(ledger), key).None? && Truthy(name) ==>
        && r == Response(CREATED, Created(freshId, name.value, email))
        && users == old(users)[freshId := UserRow(freshId, name.value, email, None, now)]
        && ledger == Record(old(ledger), key, r)
        && tasks == old(tasks)
    {
      var existing := Lookup(ledger, key);
      if existing.Some? {
        return existing.value;
      }
      if !Truthy(name) {
        return Response(BAD_REQUEST, Message("Name required"));
      }
      users := users[freshId := UserRow(freshId, name.value, email, None, now)];
      r := Response(CREATED, Created(freshId, name.value, email));
      ledger := Record(ledger, key, r);
    }

    /** PUT `/:id`: 428 without `If-Match`, 404 for an unknown user, 412 when
        the tag is not the current row's; otherwise only the supplied fields
        are replaced and the new row's tag is returned. */
    method Update(id: UserId, ifMatch: Option<string>, name: Option<string>, email: Option<string>, now: int)
      returns (r: Response<Body>, etag: Option<string>)
      requires Valid()
      modifies this
      ensures Valid()
      ensures r.status != OK ==> unchanged(this) && etag == None
      ensures !Truthy(ifMatch) ==> r.status == PRECONDITION_REQUIRED
      ensures Truthy(ifMatch) && id !in old(users) ==> r.status == NOT_FOUND
      ensures Truthy(ifMatch) && id in old(users) && ifMatch.value != tag(old(users)[id]) ==> r.status == PRECONDITION_FAILED
      ensures r.status == OK <==> Truthy(ifMatch) && id in old(users) && ifMatch.value == tag(old(users)[id])
      ensures r.status == OK ==>
        && users == old(users)[id := EditUser(old(users)[id], name, email, now)]
        && r.body == Row(users[id])
        && etag == Some(tag(users[id]))
        && tasks == old(tasks) && ledger == old(ledger)
    {
      etag := None;
      if !Truthy(ifMatch) {
        return Response(PRECONDITION_REQUIRED, Message("If-Match required")), None;
      }
      if id !in users {
        return Response(NOT_FOUND, Message("User not found")), None;
      }
      var u := users[id];
      if ifMatch.value != tag(u) {
        return Response(PRECONDITION_FAILED, Message("Precondition Failed")), None;
      }
      users := users[id := EditUser(u, name, email, now)];
      var updated := users[id];
      r := Response(OK, Row(updated));
      etag := Some(tag(updated));
    }

    /** DELETE `/:id`: an author of any task cannot be deleted. */
    method Delete(id: UserId) returns (r: Response<Body>)
      requires Valid()
      modifies this
      ensures Valid()
      ensures r.status != NO_CONTENT ==> unchanged(this)
      ensures IsAuthor(old(tasks), id) ==> r.status == CONFLICT
      ensures !IsAuthor(old(tasks), id) && id !in old(users) ==> r.status == NOT_FOUND
      ensures r.status == NO_CONTENT <==> !IsAuthor(old(tasks), id) && id in old(users)
      ensures r.status == NO_CONTENT ==> users == old(users) - {id} && tasks == old(tasks) && ledger == old(ledger)
    {
      if IsAuthor(tasks, id) {
        return Response(CONFLICT, Message("User is author of task"));
      }
      if id !in users {
        return Response(NOT_FOUND, Message("User not found"));
      }
      users := users - {id};
      r := Response(NO_CONTENT, NoBody);
    }
  }

  /** Retrying a create under the same key: the second reply equals the first
      and at most one user is inserted, whatever the first outcome was. */
  method CreateRetried(store: UserStore, key: string, name: Option<string>, email: Option<string>,
                       id1: UserId, id2: UserId, now1: int, now2: int) returns (r1: Response<Body>, r2: Response<Body>)
    requires store.Valid()
    requires key != "" && id1 != id2 && id1 !in store.users && id2 !in store.users
    modifies store
    ensures r2 == r1
    ensures store.users.Keys <= old(store.users.Keys) + {id1}
  {
    r1 := store.Create(Some(key), name, email, id1, now1);
    r2 := store.Create(Some(key), name, email, id2, now2);
  }

  /** A stale tag never writes: two editors holding the same tag, the second
      is refused once the first has changed the row's fingerprint. */
  method LostUpdatePrevented(store: UserStore, id: UserId, seen: string,
                             name1: Option<string>, name2: Option<string>, now1: int, now2: int)
    requires store.Valid()
    requires id in store.users && seen != "" && seen == store.tag(store.users[id])
    requires store.tag(EditUser(store.users[id], name1, None, now1)) != seen
    modifies store
    ensures store.users == old(store.users)[id := EditUser(old(store.users)[id], name1, None, now1)]
  {
    var first, tag1 := store.Update(id, Some(seen), name1, None, now1);
    var second, tag2 := store.Update(id, Some(seen), name2, None, now2);
    assert second.status == PRECONDITION_FAILED;
  }
}
