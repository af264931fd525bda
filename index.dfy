/** The file-backed server: users, departments, environments and
    department–environment links are JSON arrays that each handler loads,
    changes in memory and saves back. Here the arrays are sequence fields
    that the handlers reassign, and the `processedKeys` cache of idempotent
    creates is a map field. */
module FileServer {
  import opened Http
  import opened Idempotency

  /** A JSON object with string-valued fields, as stored in the arrays. */
  type Obj = map<string, string>

  /** An element of `department_envs`. */
  datatype Link = Link(depId: string, envId: string)

  datatype Body = Object(fields: Obj) | LinkBody(link: Link) | Message(text: string) | NoBody

  /** `o.id === id`: the object has an `id` field equal to `id`. */
  predicate HasId(o: Obj, id: string)
  {
    "id" in o && o["id"] == id
  }

  /** `array.filter(keep)`: the elements that pass, in order. */
  function Filter<T(==, !new)>(s: seq<T>, keep: T -> bool): (r: seq<T>)
    ensures |r| <= |s|
    ensures forall x :: x in r <==> x in s && keep(x)
    ensures |r| == |s| <==> forall i :: 0 <= i < |s| ==> keep(s[i])
    ensures forall x :: multiset(r)[x] == if keep(x) then multiset(s)[x] else 0
    decreases |s|
  {
    if s == [] then []
    else
      assert s == [s[0]] + s[1..];
      if keep(s[0]) then [s[0]] + Filter(s[1..], keep)
      else Filter(s[1..], keep)
  }

  /** `array.findIndex(o => o.id === id)`: the first index holding the id, or -1. */
  function FindIndex(objs: seq<Obj>, id: string): (i: int)
    ensures -1 <= i < |objs|
    ensures 0 <= i ==> HasId(objs[i], id) && forall j :: 0 <= j < i ==> !HasId(objs[j], id)
    ensures i == -1 <==> forall j :: 0 <= j < |objs| ==> !HasId(objs[j], id)
    decreases |objs|
  {
    if objs == [] then -1
    else if HasId(objs[0], id) then 0
    else
      var k := FindIndex(objs[1..], id);
      if k == -1 then -1 else k + 1
  }

  function NotId(id: string): Obj -> bool
  {
    o => !HasId(o, id)
  }

  function NotLink(link: Link): Link -> bool
  {
    l => l != link
  }

  /** `{ id: genId(), ...req.body }`: a body field `id` overrides the generated id. */
  function NewUser(freshId: string, body: Obj): (u: Obj)
    ensures u.Keys == body.Keys + {"id"}
    ensures forall k :: k in body ==> u[k] == body[k]
    ensures "id" !in body ==> u["id"] == freshId
  {
    map["id" := freshId] + body
  }

  /** `{ ...currentUser, ...req.body, id: userId }`: body fields win over the
      current ones, and the id is forced back to the path id. */
  function Overlay(current: Obj, body: Obj, id: string): (u: Obj)
    ensures u.Keys == current.Keys + body.Keys + {"id"}
    ensures HasId(u, id)
    ensures forall k :: k in body && k != "id" ==> u[k] == body[k]
    ensures forall k :: k in current && k !in body && k != "id" ==> u[k] == current[k]
  {
    current + body + map["id" := id]
  }

  /** `if (!newUser.name)` on a string-valued object. */
  predicate HasName(o: Obj)
  {
    "name" in o && o["name"] != ""
  }

  /** The user is `departmentId === depId`. */
  predicate InDepartment(o: Obj, depId: string)
  {
    "departmentId" in o && o["departmentId"] == depId
  }

  class Store {
    var users: seq<Obj>
    var departments: seq<Obj>
    var envs: seq<Obj>
    var links: seq<Link>
    var processedKeys: Ledger<Body>
    /** `genEtag`: a deterministic fingerprint of a user object. */
    const tag: Obj -> string

    constructor (departments: seq<Obj>, envs: seq<Obj>, tag: Obj -> string)
      ensures users == [] && links == [] && processedKeys == map[]
      ensures this.departments == departments && this.envs == envs && this.tag == tag
    {
      users := [];
      this.departments := departments;
      this.envs := envs;
      links := [];
      processedKeys := map[];
      this.tag := tag;
    }

    /** POST `/users`: a cached key replays its response; a nameless user is
        refused with 400 and that refusal is cached too; otherwise the user
        is appended and its 201 reply cached. */
    method CreateUser(key: Option<string>, body: Obj, freshId: string) returns (r: Response<Body>)
      modifies this
      ensures Lookup(old(processedKeys), key).Some? ==> r == Lookup(old(processedKeys), key).value && unchanged(this)
      ensures Lookup(old(processedKeys), key).None? ==>
        && (!HasName(NewUser(freshId, body)) ==>
              r == Response(BAD_REQUEST, Message("User name is required")) && users == old(users))
        && (HasName(NewUser(freshId, body)) ==>
              r == Response(CREATED, Object(NewUser(freshId, body))) && users == old(users) + [NewUser(freshId, body)])
        && processedKeys == Record(old(processedKeys), key, r)
        && departments == old(departments) && envs == old(envs) && links == old(links)
    {
      var cached := Lookup(processedKeys, key);
      if cached.Some? {
        return cached.value;
      }
      var newUser := NewUser(freshId, body);
      if !HasName(newUser) {
        r := Response(BAD_REQUEST, Message("User name is required"));
        processedKeys := Record(processedKeys, key, r);
        return;
      }
      users := users + [newUser];
      r := Response(CREATED, Object(newUser));
      processedKeys := Record(processedKeys, key, r);
    }

    /** PUT `/users/:userId`: 428, 404, 412 with the array unchanged;
        otherwise only the element at the user's index is replaced. */
    method UpdateUser(userId: string, ifMatch: Option<string>, body: Obj) returns (r: Response<Body>, etag: Option<string>)
      modifies this
      ensures r.status != OK ==> unchanged(this) && etag == None
      ensures !Truthy(ifMatch) ==> r.status == PRECONDITION_REQUIRED
      ensures Truthy(ifMatch) && FindIndex(old(users), userId) == -1 ==> r.status == NOT_FOUND
      ensures Truthy(ifMatch) && FindIndex(old(users), userId) != -1 && ifMatch.value != tag(old(users)[FindIndex(old(users), userId)]) ==>
        r.status == PRECONDITION_FAILED
      ensures r.status == OK <==>
        Truthy(ifMatch) && FindIndex(old(users), userId) != -1 && ifMatch.value == tag(old(users)[FindIndex(old(users), userId)])
      ensures r.status == OK ==>
        var i := FindIndex(old(users), userId);
        && users == old(users)[i := Overlay(old(users)[i], body, userId)]
        && r.body == Object(users[i])
        && etag == Some(tag(users[i]))
        && departments == old(departments) && envs == old(envs) && links == old(links) && processedKeys == old(processedKeys)
    {
      if !Truthy(ifMatch) {
        return Response(PRECONDITION_REQUIRED, Message("Precondition Required (If-Match header missing)")), None;
      }
      var userIndex := FindIndex(users, userId);
      if userIndex == -1 {
        return Response(NOT_FOUND, Message("User not found")), None;
      }
      var currentUser := users[userIndex];
      if ifMatch.value != tag(currentUser) {
        return Response(PRECONDITION_FAILED, Message("Precondition Failed (ETag mismatch)")), None;
      }
      var updatedUser := Overlay(currentUser, body, userId);
      users := users[userIndex := updatedUser];
      r := Response(OK, Object(updatedUser));
      etag := Some(tag(updatedUser));
    }

    /** DELETE `/users/:userId`: removes every user with the id; 404 when none has it. */
    method DeleteUser(userId: string) returns (status: int)
      modifies this
      ensures status == NOT_FOUND <==> FindIndex(old(users), userId) == -1
      ensures status == NOT_FOUND ==> unchanged(this)
      ensures status != NOT_FOUND ==> status == NO_CONTENT && users == Filter(old(users), NotId(userId))
      ensures departments == old(departments) && envs == old(envs) && links == old(links) && processedKeys == old(processedKeys)
    {
      var remainingUsers := Filter(users, NotId(userId));
      if |remainingUsers| == |users| {
        return NOT_FOUND;
      }
      users := remainingUsers;
      status := NO_CONTENT;
    }

    /** POST `/departments/:depId/envs` with body `{ envId }`: 400, 404 for
        an unknown department or environment, 204 when the link exists, or
        the link appended and 201. */
    method AddLink(depId: string, envId: Option<string>) returns (r: Response<Body>)
      modifies this
      ensures r.status != CREATED ==> unchanged(this)
      ensures !Truthy(envId) ==> r.status == BAD_REQUEST
      ensures Truthy(envId) ==>
        && (FindIndex(old(departments), depId) == -1 ==> r.status == NOT_FOUND)
        && (FindIndex(old(departments), depId) != -1 && FindIndex(old(envs), envId.value) == -1 ==> r.status == NOT_FOUND)
        && (FindIndex(old(departments), depId) != -1 && FindIndex(old(envs), envId.value) != -1 ==>
              if Link(depId, envId.value) in old(links) then r.status == NO_CONTENT
              else r == Response(CREATED, LinkBody(Link(depId, envId.value))) && links == old(links) + [Link(depId, envId.value)])
      ensures users == old(users) && departments == old(departments) && envs == old(envs) && processedKeys == old(processedKeys)
    {
      if !Truthy(envId) {
        return Response(BAD_REQUEST, Message("envId is required in the request body"));
      }
      if FindIndex(departments, depId) == -1 {
        return Response(NOT_FOUND, Message("Department not found"));
      }
      if FindIndex(envs, envId.value) == -1 {
        return Response(NOT_FOUND, Message("Environment not found"));
      }
      var newLink := Link(depId, envId.value);
      if newLink in links {
        return Response(NO_CONTENT, NoBody);
      }
      links := links + [newLink];
      r := Response(CREATED, LinkBody(newLink));
    }

    /** DELETE `/departments/:depId/envs/:envId`: removes every matching
        link; 404 when there is none. */
    method DeleteLink(depId: string, envId: string) returns (status: int)
      modifies this
      ensures status == NOT_FOUND <==> Link(depId, envId) !in old(links)
      ensures status == NOT_FOUND ==> unchanged(this)
      ensures status != NOT_FOUND ==> status == NO_CONTENT && links == Filter(old(links), NotLink(Link(depId, envId)))
      ensures users == old(users) && departments == old(departments) && envs == old(envs) && processedKeys == old(processedKeys)
    {
      var remainingLinks := Filter(links, NotLink(Link(depId, envId)));
      if |remainingLinks| == |links| {
        assert forall i :: 0 <= i < |links| ==> links[i] != Link(depId, envId);
        return NOT_FOUND;
      }
      links := remainingLinks;
      status := NO_CONTENT;
    }

    /** POST `/actions/transfer-user` with body `{ userId, sourceDepId, targetDepId }`. */
    method TransferUser(userId: Option<string>, sourceDepId: Option<string>, targetDepId: Option<string>) returns (r: Response<Body>)
      modifies this
      ensures r.status != OK ==> unchanged(this)
      ensures !Truthy(userId) || !Truthy(sourceDepId) || !Truthy(targetDepId) ==> r.status == BAD_REQUEST
      ensures Truthy(userId) && Truthy(sourceDepId) && Truthy(targetDepId) ==>
        && (FindIndex(old(departments), sourceDepId.value) == -1 || FindIndex(old(departments), targetDepId.value) == -1 ==>
              r.status == NOT_FOUND)
        && (FindIndex(old(departments), sourceDepId.value) != -1 && FindIndex(old(departments), targetDepId.value) != -1 ==>
              var i := FindIndex(old(users), userId.value);
              && (i == -1 ==> r.status == NOT_FOUND)
              && (i != -1 && !InDepartment(old(users)[i], sourceDepId.value) ==> r.status == BAD_REQUEST)
              && (i != -1 && InDepartment(old(users)[i], sourceDepId.value) ==>
                    r.status == OK && users == old(users)[i := old(users)[i]["departmentId" := targetDepId.value]]))
      ensures departments == old(departments) && envs == old(envs) && links == old(links) && processedKeys == old(processedKeys)
    {
      if !Truthy(userId) || !Truthy(sourceDepId) || !Truthy(targetDepId) {
        return Response(BAD_REQUEST, Message("userId, sourceDepId, and targetDepId are required"));
      }
      if FindIndex(departments, sourceDepId.value) == -1 || FindIndex(departments, targetDepId.value) == -1 {
        return Response(NOT_FOUND, Message("Source or target department not found"));
      }
      var i := FindIndex(users, userId.value);
      if i == -1 {
        return Response(NOT_FOUND, Message("User not found"));
      }
      if !InDepartment(users[i], sourceDepId.value) {
        return Response(BAD_REQUEST, Message("User " + userId.value + " is not currently in department " + sourceDepId.value));
      }
      users := users[i := users[i]["departmentId" := targetDepId.value]];
      r := Response(OK, Message("User " + userId.value + " transferred from " + sourceDepId.value + " to " + targetDepId.value));
    }
  }

  /** Retrying a create under the same key replays the first reply, the 400
      included, and appends at most one user. */
  method CreateRetried(store: Store, key: string, body: Obj, id1: string, id2: string)
    returns (r1: Response<Body>, r2: Response<Body>)
    requires key != ""
    modifies store
    ensures r2 == r1
    ensures |store.users| <= |old(store.users)| + 1
  {
    r1 := store.CreateUser(Some(key), body, id1);
    r2 := store.CreateUser(Some(key), body, id2);
  }

  /** Loading a module: its top-level declarations (imports, `const`, `let`,
      functions) must have distinct names, or evaluation stops with an early
      SyntaxError before any statement runs. On success, the names in scope. */
  function LoadModule(decls: seq<string>): (scope: Option<set<string>>)
    ensures scope.Some? <==> forall i, j :: 0 <= i < j < |decls| ==> decls[i] != decls[j]
    ensures scope.Some? ==> forall x :: x in scope.value <==> x in decls
    decreases |decls|
  {
    if decls == [] then Some({})
    else
      var rest := LoadModule(decls[1..]);
      if rest.None? then
        assert forall i, j :: 1 <= i < j < |decls| ==> decls[i] == decls[1..][i - 1] && decls[j] == decls[1..][j - 1];
        None
      else if decls[0] in decls[1..] then
        var k :| 0 <= k < |decls[1..]| && decls[1..][k] == decls[0];
        assert decls[0] == decls[k + 1];
        None
      else
        assert forall i, j :: 0 <= i < j < |decls| ==> decls[i] != decls[j] by {
          forall i, j | 0 <= i < j < |decls|
            ensures decls[i] != decls[j]
          {
            if i == 0 {
              assert decls[j] == decls[1..][j - 1];
            } else {
              assert decls[i] == decls[1..][i - 1] && decls[j] == decls[1..][j - 1];
            }
          }
        }
        Some(rest.value + {decls[0]})
  }

  /** The top-level declarations of the file server in source order: `db`
      is both imported and declared with `let`. */
  const TopLevelAsWritten: seq<string> :=
    ["express", "db", "initSchema", "makeDb", "app", "db", "load", "save",
     "genId", "genEtag", "loadDepartmentEnvs", "saveDepartmentEnvs"]

  /** The same without the unused `import { db }`: the module loads, and the
      `processedKeys` declaration is still commented out. */
  const TopLevelWithoutImport: seq<string> :=
    ["express", "initSchema", "makeDb", "app", "db", "load", "save",
     "genId", "genEtag", "loadDepartmentEnvs", "saveDepartmentEnvs"]

  /** What the handlers evidently rely on: the cache declared and the
      modules the helpers use imported. */
  const TopLevelIntended: seq<string> :=
    ["express", "initSchema", "makeDb", "app", "db", "load", "save",
     "genId", "genEtag", "loadDepartmentEnvs", "saveDepartmentEnvs",
     "crypto", "fs", "path", "DATA_DIR", "processedKeys"]

  /** How the create handler's idempotency step ends: the cached reply is
      sent, a ReferenceError is thrown and nothing is sent, or the handler
      goes on to build the new user. */
  datatype Step = Replayed(resp: Response<Body>) | ThrewReferenceError(identifier: string) | Continued

  /** The idempotency step of POST `/users`, in a module whose top-level
      names are `scope`: a keyed request reads `processedKeys`, which throws
      when the name is not declared. */
  function CreateEntry(scope: set<string>, cache: Ledger<Body>, key: Option<string>): (s: Step)
    ensures s.ThrewReferenceError? <==> Truthy(key) && "processedKeys" !in scope
    ensures s.ThrewReferenceError? ==> s.identifier == "processedKeys"
    ensures s.Replayed? <==> "processedKeys" in scope && Lookup(cache, key).Some?
    ensures s.Replayed? ==> s.resp == Lookup(cache, key).value
  {
    if !Truthy(key) then Continued
    else if "processedKeys" !in scope then ThrewReferenceError("processedKeys")
    else if key.value in cache then Replayed(cache[key.value])
    else Continued
  }

  /** As written the module never loads: `db` is declared twice. */
  lemma ModuleFailsToLoadAsWritten()
    ensures LoadModule(TopLevelAsWritten) == None
  {
    assert TopLevelAsWritten[1] == TopLevelAsWritten[5];
  }

  /** Once the duplicate import is gone the module loads, but every keyed
      create throws on the undeclared `processedKeys`, whatever is cached. */
  lemma KeyedCreateThrowsAsWritten(cache: Ledger<Body>, key: Option<string>)
    requires Truthy(key)
    ensures LoadModule(TopLevelWithoutImport).Some?
    ensures CreateEntry(LoadModule(TopLevelWithoutImport).value, cache, key) == ThrewReferenceError("processedKeys")
  {
    var d := TopLevelWithoutImport;
    forall i, j | 0 <= i < j < |d|
      ensures d[i] != d[j]
    {
      assert |d[i]| != |d[j]| || d[i][0] != d[j][0];
    }
    assert "processedKeys" !in d;
  }

  /** With the cache declared the module loads and a keyed create never
      throws: it replays exactly the reply `Store.CreateUser` replays. */
  lemma IntendedCreateReplays(cache: Ledger<Body>, key: Option<string>)
    ensures LoadModule(TopLevelIntended).Some?
    ensures !CreateEntry(LoadModule(TopLevelIntended).value, cache, key).ThrewReferenceError?
    ensures CreateEntry(LoadModule(TopLevelIntended).value, cache, key).Replayed? <==> Lookup(cache, key).Some?
  {
    var d := TopLevelIntended;
    forall i, j | 0 <= i < j < |d|
      ensures d[i] != d[j]
    {
      assert |d[i]| != |d[j]| || d[i][0] != d[j][0];
    }
    assert d[|d| - 1] == "processedKeys";
  }
}
