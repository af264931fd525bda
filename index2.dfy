/** The knex-backed single-file server: users and departments with
    idempotent create, conditional update and delete, nested assignment of
    users to departments, the `transfer-user` action, and the
    `department_envs` association with insert-or-ignore. */
module KnexServer {
  import opened Http
  import opened Tables
  import opened Idempotency
  import ActionRoutes

  datatype Body =
    | UserCreated(id: UserId, name: string, email: Option<string>)
    | DeptCreated(id: DeptId, name: string)
    | UserBody(user: UserRow)
    | DeptBody(dept: DeptRow)
    | Message(text: string)
    | NoBody

  /** The `users` (with `department_id` as `dept`), `departments`,
      `department_envs` and `idempotency_keys` tables; `userTag` and
      `deptTag` are `genEtag` on the two kinds of row. */
  class Server {
    var users: map<UserId, UserRow>
    var departments: map<DeptId, DeptRow>
    var deptEnvs: set<(DeptId, EnvId)>
    var ledger: Ledger<Body>
    const userTag: UserRow -> string
    const deptTag: DeptRow -> string

    ghost predicate Valid()
      reads this
    {
      UsersKeyed(users) && DeptsKeyed(departments)
    }

    constructor (userTag: UserRow -> string, deptTag: DeptRow -> string)
      ensures Valid()
      ensures users == map[] && departments == map[] && deptEnvs == {} && ledger == map[]
      ensures this.userTag == userTag && this.deptTag == deptTag
    {
      users := map[];
      departments := map[];
      deptEnvs := {};
      ledger := map[];
      this.userTag := userTag;
      this.deptTag := deptTag;
    }

    /** POST `/users`: replay under a recorded key, 400 without a name,
        otherwise insert and record 201 under the key. */
    method CreateUser(key: Option<string>, name: Option<string>, email: Option<string>, freshId: UserId, now: int)
      returns (r: Response<Body>)
      requires Valid()
      requires freshId !in users
      modifies this
      ensures Valid()
      ensures Lookup(old(ledger), key).Some? ==> r == Lookup(old(ledger), key).value && unchanged(this)
      ensures Lookup(old(ledger), key).None? && !Truthy(name) ==>
        r == Response(BAD_REQUEST, Message("Name required")) && unchanged(this)
      ensures Lookup(old(ledger), key).None? && Truthy(name) ==>
        && r == Response(CREATED, UserCreated(freshId, name.value, email))
        && users == old(users)[freshId := UserRow(freshId, name.value, email, None, now)]
        && ledger == Record(old(ledger), key, r)
        && departments == old(departments) && deptEnvs == old(deptEnvs)
    {
      var existing := Lookup(ledger, key);
      if existing.Some? {
        return existing.value;
      }
      if !Truthy(name) {
        return Response(BAD_REQUEST, Message("Name required"));
      }
      users := users[freshId := UserRow(freshId, name.value, email, None, now)];
      r := Response(CREATED, UserCreated(freshId, name.value, email));
      ledger := Record(ledger, key, r);
    }

    /** PUT `/users/:id`: 428, 404, 412 in that order with no write;
        otherwise name and email are replaced only when supplied. */
    method UpdateUser(id: UserId, ifMatch: Option<string>, name: Option<string>, email: Option<string>, now: int)
      returns (r: Response<Body>, etag: Option<string>)
      requires Valid()
      modifies this
      ensures Valid()
      ensures r.status != OK ==> unchanged(this) && etag == None
      ensures !Truthy(ifMatch) ==> r.status == PRECONDITION_REQUIRED
      ensures Truthy(ifMatch) && id !in old(users) ==> r.status == NOT_FOUND
      ensures Truthy(ifMatch) && id in old(users) && ifMatch.value != userTag(old(users)[id]) ==> r.status == PRECONDITION_FAILED
      ensures r.status == OK <==> Truthy(ifMatch) && id in old(users) && ifMatch.value == userTag(old(users)[id])
      ensures r.status == OK ==>
        && users == old(users)[id := EditUser(old(users)[id], name, email, now)]
        && r.body == UserBody(users[id])
        && etag == Some(userTag(users[id]))
        && departments == old(departments) && deptEnvs == old(deptEnvs) && ledger == old(ledger)
    {
      if !Truthy(ifMatch) {
        return Response(PRECONDITION_REQUIRED, Message("If-Match required")), None;
      }
      if id !in users {
        return Response(NOT_FOUND, Message("User not found")), None;
      }
      var u := users[id];
      if ifMatch.value != userTag(u) {
        return Response(PRECONDITION_FAILED, Message("Precondition Failed")), None;
      }
      users := users[id := EditUser(u, name, email, now)];
      var updated := users[id];
      r := Response(OK, UserBody(updated));
      etag := Some(userTag(updated));
    }

    /** DELETE `/users/:id`: 404 exactly when no row was deleted. */
    method DeleteUser(id: UserId) returns (status: int)
      requires Valid()
      modifies this
      ensures Valid()
      ensures status == NOT_FOUND <==> id !in old(users)
      ensures status != NOT_FOUND ==> status == NO_CONTENT
      ensures users == old(users) - {id}
      ensures departments == old(departments) && deptEnvs == old(deptEnvs) && ledger == old(ledger)
    {
      if id !in users {
        return NOT_FOUND;
      }
      users := users - {id};
      status := NO_CONTENT;
    }

    /** POST `/departments`: 400 without a name, otherwise insert. */
    method CreateDepartment(name: Option<string>, freshId: DeptId, now: int) returns (r: Response<Body>)
      requires Valid()
      requires freshId !in departments
      modifies this
      ensures Valid()
      ensures !Truthy(name) ==> r == Response(BAD_REQUEST, Message("Name required")) && unchanged(this)
      ensures Truthy(name) ==>
        && r == Response(CREATED, DeptCreated(freshId, name.value))
        && departments == old(departments)[freshId := DeptRow(freshId, name.value, now)]
        && users == old(users) && deptEnvs == old(deptEnvs) && ledger == old(ledger)
    {
      if !Truthy(name) {
        return Response(BAD_REQUEST, Message("Name required"));
      }
      departments := departments[freshId := DeptRow(freshId, name.value, now)];
      r := Response(CREATED, DeptCreated(freshId, name.value));
    }

    /** PUT `/departments/:id`: the same 428, 404, 412 order; the name is
        kept when not supplied. */
    method UpdateDepartment(id: DeptId, ifMatch: Option<string>, name: Option<string>, now: int)
      returns (r: Response<Body>, etag: Option<string>)
      requires Valid()
      modifies this
      ensures Valid()
      ensures r.status != OK ==> unchanged(this) && etag == None
      ensures !Truthy(ifMatch) ==> r.status == PRECONDITION_REQUIRED
      ensures Truthy(ifMatch) && id !in old(departments) ==> r.status == NOT_FOUND
      ensures Truthy(ifMatch) && id in old(departments) && deptTag(old(departments)[id]) != ifMatch.value ==>
        r.status == PRECONDITION_FAILED
      ensures r.status == OK <==> Truthy(ifMatch) && id in old(departments) && deptTag(old(departments)[id]) == ifMatch.value
      ensures r.status == OK ==>
        && departments == old(departments)[id := EditDept(old(departments)[id], name, now)]
        && r.body == DeptBody(departments[id])
        && etag == Some(deptTag(departments[id]))
        && users == old(users) && deptEnvs == old(deptEnvs) && ledger == old(ledger)
    {
      if !Truthy(ifMatch) {
        return Response(PRECONDITION_REQUIRED, Message("If-Match required")), None;
      }
      if id !in departments {
        return Response(NOT_FOUND, NoBody), None;
      }
      var d := departments[id];
      if deptTag(d) != ifMatch.value {
        return Response(PRECONDITION_FAILED, NoBody), None;
      }
      departments := departments[id := EditDept(d, name, now)];
      var updated := departments[id];
      r := Response(OK, DeptBody(updated));
      etag := Some(deptTag(updated));
    }

    /** DELETE `/departments/:id`: 404 exactly when no row was deleted. */
    method DeleteDepartment(id: DeptId) returns (status: int)
      requires Valid()
      modifies this
      ensures Valid()
      ensures status == NOT_FOUND <==> id !in old(departments)
      ensures status != NOT_FOUND ==> status == NO_CONTENT
      ensures departments == old(departments) - {id}
      ensures users == old(users) && deptEnvs == old(deptEnvs) && ledger == old(ledger)
    {
      if id !in departments {
        return NOT_FOUND;
      }
      departments := departments - {id};
      status := NO_CONTENT;
    }

    /** PUT `/departments/:id/users/:userId`: sets the user's department to
        the path id; 404 when the user does not exist. */
    method AssignUser(id: DeptId, userId: UserId) returns (status: int)
      requires Valid()
      modifies this
      ensures Valid()
      ensures status == NOT_FOUND <==> userId !in old(users)
      ensures status != NOT_FOUND ==> status == NO_CONTENT
      ensures status == NO_CONTENT ==> users == old(users)[userId := old(users)[userId].(dept := Some(id))]
      ensures status == NOT_FOUND ==> users == old(users)
      ensures departments == old(departments) && deptEnvs == old(deptEnvs) && ledger == old(ledger)
    {
      if userId !in users {
        return NOT_FOUND;
      }
      users := users[userId := users[userId].(dept := Some(id))];
      status := NO_CONTENT;
    }

    /** DELETE `/departments/:id/users/:userId`: sets the user's department
        to null; 404 when the user does not exist. */
    method UnassignUser(id: DeptId, userId: UserId) returns (status: int)
      requires Valid()
      modifies this
      ensures Valid()
      ensures status == NOT_FOUND <==> userId !in old(users)
      ensures status != NOT_FOUND ==> status == NO_CONTENT
      ensures status == NO_CONTENT ==> users == old(users)[userId := old(users)[userId].(dept := None)]
      ensures status == NOT_FOUND ==> users == old(users)
      ensures departments == old(departments) && deptEnvs == old(deptEnvs) && ledger == old(ledger)
    {
      if userId !in users {
        return NOT_FOUND;
      }
      users := users[userId := users[userId].(dept := None)];
      status := NO_CONTENT;
    }

    /** POST `/actions/transfer-user`: in one transaction, UserNotFound,
        BadSource, or the user's department becomes `toDept`. Neither the
        target's existence nor `fromDept != toDept` is checked here. */
    method TransferUser(userId: UserId, fromDept: DeptId, toDept: DeptId) returns (r: Response<string>)
      requires Valid()
      modifies this
      ensures Valid()
      ensures r.status != OK ==> r.status == BAD_REQUEST && unchanged(this)
      ensures userId !in old(users) ==> r.body == ActionRoutes.ErrorName(ActionRoutes.UserNotFound)
      ensures userId in old(users) && old(users)[userId].dept != Some(fromDept) ==>
        r.body == ActionRoutes.ErrorName(ActionRoutes.BadSource)
      ensures r.status == OK <==> userId in old(users) && old(users)[userId].dept == Some(fromDept)
      ensures r.status == OK ==>
        && r.body == "Transfer success"
        && users == old(users)[userId := old(users)[userId].(dept := Some(toDept))]
        && departments == old(departments) && deptEnvs == old(deptEnvs) && ledger == old(ledger)
    {
      if userId !in users {
        return Response(BAD_REQUEST, ActionRoutes.ErrorName(ActionRoutes.UserNotFound));
      }
      if users[userId].dept != Some(fromDept) {
        return Response(BAD_REQUEST, ActionRoutes.ErrorName(ActionRoutes.BadSource));
      }
      users := users[userId := users[userId].(dept := Some(toDept))];
      r := Response(OK, "Transfer success");
    }

    /** POST `/departments/:depId/envs/:envId`: insert-or-ignore, always 204. */
    method Associate(depId: DeptId, envId: EnvId) returns (status: int)
      modifies this
      ensures status == NO_CONTENT
      ensures deptEnvs == old(deptEnvs) + {(depId, envId)}
      ensures users == old(users) && departments == old(departments) && ledger == old(ledger)
    {
      deptEnvs := deptEnvs + {(depId, envId)};
      status := NO_CONTENT;
    }

    /** DELETE `/departments/:depId/envs/:envId`: always 204, whether or not
        the link existed. */
    method Dissociate(depId: DeptId, envId: EnvId) returns (status: int)
      modifies this
      ensures status == NO_CONTENT
      ensures deptEnvs == old(deptEnvs) - {(depId, envId)}
      ensures users == old(users) && departments == old(departments) && ledger == old(ledger)
    {
      deptEnvs := deptEnvs - {(depId, envId)};
      status := NO_CONTENT;
    }
  }

  /** Associating twice is associating once, and dissociating undoes a new
      association. */
  method AssociateIdempotent(server: Server, depId: DeptId, envId: EnvId)
    modifies server
    ensures server.deptEnvs == old(server.deptEnvs) + {(depId, envId)}
  {
    var s1 := server.Associate(depId, envId);
    var s2 := server.Associate(depId, envId);
  }

  method AssociateThenDissociate(server: Server, depId: DeptId, envId: EnvId)
    requires (depId, envId) !in server.deptEnvs
    modifies server
    ensures server.deptEnvs == old(server.deptEnvs)
  {
    var s1 := server.Associate(depId, envId);
    var s2 := server.Dissociate(depId, envId);
  }
}
