/** The departments router: conditional update of a department, delete, and
    assigning a user to or removing a user from a department. The router
    registers these handlers under the literal path `/id` instead of the
    parameter `/:id`; the handlers below take the department id as the
    parameter was evidently meant to supply it, and `MatchPath` shows what
    the literal paths do instead. */
module DepartmentRoutes {
  import opened Http
  import opened Tables

  datatype Body = Row(row: DeptRow) | Message(text: string) | NoBody

  /** The `departments` table and the `users` table (with `department_id` as
      `dept`). `tag` is `genEtag` on a department row. */
  class DepartmentStore {
    var departments: map<DeptId, DeptRow>
    var users: map<UserId, UserRow>
    const tag: DeptRow -> string

    ghost predicate Valid()
      reads this
    {
      DeptsKeyed(departments) && UsersKeyed(users)
    }

    constructor (departments: map<DeptId, DeptRow>, users: map<UserId, UserRow>, tag: DeptRow -> string)
      requires DeptsKeyed(departments) && UsersKeyed(users)
      ensures Valid()
      ensures this.departments == departments && this.users == users && this.tag == tag
    {
      this.departments := departments;
      this.users := users;
      this.tag := tag;
    }

    /** PUT `/:id`: 428, 404, 412 with no write, or the name replaced when
        supplied and the updated row's tag returned. */
    method Update(id: DeptId, ifMatch: Option<string>, name: Option<string>, now: int)
      returns (r: Response<Body>, etag: Option<string>)
      requires Valid()
      modifies this
      ensures Valid()
      ensures r.status != OK ==> unchanged(this) && etag == None
      ensures !Truthy(ifMatch) ==> r.status == PRECONDITION_REQUIRED
      ensures Truthy(ifMatch) && id !in old(departments) ==> r.status == NOT_FOUND
      ensures Truthy(ifMatch) && id in old(departments) && tag(old(departments)[id]) != ifMatch.value ==>
        r.status == PRECONDITION_FAILED
      ensures r.status == OK <==> Truthy(ifMatch) && id in old(departments) && tag(old(departments)[id]) == ifMatch.value
      ensures r.status == OK ==>
        && departments == old(departments)[id := EditDept(old(departments)[id], name, now)]
        && r.body == Row(departments[id])
        && etag == Some(tag(departments[id]))
        && users == old(users)
    {
      if !Truthy(ifMatch) {
        return Response(PRECONDITION_REQUIRED, Message("If-Match required")), None;
      }
      if id !in departments {
        return Response(NOT_FOUND, NoBody), None;
      }
      var d := departments[id];
      if tag(d) != ifMatch.value {
        return Response(PRECONDITION_FAILED, NoBody), None;
      }
      departments := departments[id := EditDept(d, name, now)];
      var updated := departments[id];
      r := Response(OK, Row(updated));
      etag := Some(tag(updated));
    }

    /** DELETE `/:id`: 404 exactly when no row was deleted. The users that
        referenced the department keep their `department_id`. */
    method Delete(id: DeptId) returns (status: int)
      requires Valid()
      modifies this
      ensures Valid()
      ensures status == NOT_FOUND <==> id !in old(departments)
      ensures status != NOT_FOUND ==> status == NO_CONTENT
      ensures departments == old(departments) - {id} && users == old(users)
    {
      if id !in departments {
        return NOT_FOUND;
      }
      departments := departments - {id};
      status := NO_CONTENT;
    }

    /** PUT `/:id/users/:userId`: points the user at the department, which
        is not itself looked up; 404 when no user row was updated. */
    method AssignUser(id: DeptId, userId: UserId) returns (status: int)
      requires Valid()
      modifies this
      ensures Valid()
      ensures status == NOT_FOUND <==> userId !in old(users)
      ensures status != NOT_FOUND ==> status == NO_CONTENT
      ensures status == NO_CONTENT ==> users == old(users)[userId := old(users)[userId].(dept := Some(id))]
      ensures status == NOT_FOUND ==> users == old(users)
      ensures departments == old(departments)
    {
      if userId !in users {
        return NOT_FOUND;
      }
      users := users[userId := users[userId].(dept := Some(id))];
      status := NO_CONTENT;
    }

    /** DELETE `/:id/users/:userId`: clears the user's department, whichever
        department it was in; 404 when no user row was updated. */
    method UnassignUser(id: DeptId, userId: UserId) returns (status: int)
      requires Valid()
      modifies this
      ensures Valid()
      ensures status == NOT_FOUND <==> userId !in old(users)
      ensures status != NOT_FOUND ==> status == NO_CONTENT
      ensures status == NO_CONTENT ==> users == old(users)[userId := old(users)[userId].(dept := None)]
      ensures status == NOT_FOUND ==> users == old(users)
      ensures departments == old(departments)
    {
      if userId !in users {
        return NOT_FOUND;
      }
      users := users[userId := users[userId].(dept := None)];
      status := NO_CONTENT;
    }
  }

  /** A segment of a route pattern: a literal, or a named parameter (`:name`). */
  datatype Segment = Lit(text: string) | Param(name: string)

  function ParamNames(pattern: seq<Segment>): set<string>
  {
    if pattern == [] then {}
    else (if pattern[0].Param? then {pattern[0].name} else {}) + ParamNames(pattern[1..])
  }

  /** Express-style matching of a path (split into segments) against a
      pattern: the `req.params` it binds, or None when the route does not
      apply. A parameter name used twice keeps its last value, as Express
      assigns the captures in order. Unlike Express, literals are compared
      case-sensitively and a parameter may match an empty segment; neither
      matters for the routes below. */
  function MatchPath(pattern: seq<Segment>, path: seq<string>): (r: Option<map<string, string>>)
    ensures r.Some? <==> |path| == |pattern| && forall i :: 0 <= i < |pattern| && pattern[i].Lit? ==> path[i] == pattern[i].text
    ensures r.Some? ==> r.value.Keys == ParamNames(pattern)
    ensures r.Some? ==> forall i :: 0 <= i < |pattern| && Unique(pattern, i) ==>
      pattern[i].name in r.value && r.value[pattern[i].name] == path[i]
    decreases pattern
  {
    if |pattern| != |path| then None
    else if pattern == [] then Some(map[])
    else
      var rest := MatchPath(pattern[1..], path[1..]);
      assert forall i :: 1 <= i < |pattern| ==> pattern[i] == pattern[1..][i - 1] && path[i] == path[1..][i - 1];
      assert forall i :: 1 <= i < |pattern| && Unique(pattern, i) ==> Unique(pattern[1..], i - 1);
      if rest.None? then None
      else match pattern[0]
        case Lit(t) => if path[0] == t then rest else None
        case Param(n) =>
          ParamNamesHas(pattern[1..], n);
          if n in rest.value then rest else Some(rest.value[n := path[0]])
  }

  /** The parameter at `i` has a name no other parameter of the pattern has. */
  predicate Unique(pattern: seq<Segment>, i: int)
    requires 0 <= i < |pattern|
  {
    pattern[i].Param? && forall j :: 0 <= j < |pattern| && j != i && pattern[j].Param? ==> pattern[j].name != pattern[i].name
  }

  lemma ParamNamesHas(pattern: seq<Segment>, n: string)
    ensures n in ParamNames(pattern) <==> exists j :: 0 <= j < |pattern| && pattern[j] == Param(n)
    decreases pattern
  {
    if pattern != [] {
      ParamNamesHas(pattern[1..], n);
      assert forall j :: 1 <= j < |pattern| ==> pattern[j] == pattern[1..][j - 1];
      if n in ParamNames(pattern[1..]) {
        var j :| 0 <= j < |pattern[1..]| && pattern[1..][j] == Param(n);
        assert pattern[j + 1] == Param(n);
      }
    }
  }

  /** The patterns as registered: `/id` and `/id/users/:userId`. */
  const ItemAsWritten: seq<Segment> := [Lit("id")]
  const MemberAsWritten: seq<Segment> := [Lit("id"), Lit("users"), Param("userId")]

  /** The patterns evidently intended: `/:id` and `/:id/users/:userId`. */
  const ItemIntended: seq<Segment> := [Param("id")]
  const MemberIntended: seq<Segment> := [Param("id"), Lit("users"), Param("userId")]

  /** As written, no request ever binds `req.params.id`. The handlers that
      use it reject inside knex on the undefined value before any query
      runs, and only the unassign handler, which never reads it, works when
      the literal path reaches it. A real department path such as
      `/departments/sales` does not reach the handlers at all. */
  lemma AsWrittenNeverBindsId(path: seq<string>)
    ensures MatchPath(ItemAsWritten, path).Some? ==> "id" !in MatchPath(ItemAsWritten, path).value
    ensures MatchPath(MemberAsWritten, path).Some? ==> "id" !in MatchPath(MemberAsWritten, path).value
    ensures MatchPath(ItemAsWritten, ["sales"]) == None
    ensures MatchPath(MemberAsWritten, ["sales", "users", "u1"]) == None
  {
  }

  /** With the intended patterns every department path reaches the handlers
      with its id bound, and the nested routes bind the user id too. */
  lemma IntendedRoutesBindId(d: string, u: string)
    ensures MatchPath(ItemIntended, [d]) == Some(map["id" := d])
    ensures MatchPath(MemberIntended, [d, "users", u]) == Some(map["userId" := u, "id" := d])
  {
  }
}
