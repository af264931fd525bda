/** The atomic `transfer-user` action of the actions router: one transaction
    checks a chain of preconditions and, when all hold, moves one user to
    another department. A failed check throws a named error; the transaction
    rolls back and the reply is 400 with the error's name. */
module ActionRoutes {
  import opened Http
  import opened Tables

  datatype TransferError = SameDepartment | UserNotFound | BadSource | BadTarget

  /** The `message` of the 400 reply: the name the error was thrown with. */
  function ErrorName(e: TransferError): string
  {
    match e
    case SameDepartment => "SameDepartment"
    case UserNotFound => "UserNotFound"
    case BadSource => "BadSource"
    case BadTarget => "BadTarget"
  }

  /** Distinct errors reach the client as distinct messages. */
  lemma ErrorNamesDistinct(e1: TransferError, e2: TransferError)
    requires e1 != e2
    ensures ErrorName(e1) != ErrorName(e2)
  {
  }

  /** The `users` table (with `department_slug` as `dept`) and the
      `departments` table keyed by slug. */
  class ActionStore {
    var users: map<UserId, UserRow>
    var departments: map<DeptId, DeptRow>

    ghost predicate Valid()
      reads this
    {
      UsersKeyed(users) && DeptsKeyed(departments)
    }

    constructor (users: map<UserId, UserRow>, departments: map<DeptId, DeptRow>)
      requires UsersKeyed(users) && DeptsKeyed(departments)
      ensures Valid() && this.users == users && this.departments == departments
    {
      this.users := users;
      this.departments := departments;
    }

    /** POST `/transfer-user` with body `{ userId, fromDept, toDept }`. */
    method TransferUser(userId: UserId, fromDept: DeptId, toDept: DeptId) returns (r: Response<string>)
      requires Valid()
      modifies this
      ensures Valid()
      ensures r.status != OK ==> r.status == BAD_REQUEST && unchanged(this)
      ensures fromDept == toDept ==> r.body == ErrorName(SameDepartment)
      ensures fromDept != toDept && userId !in old(users) ==> r.body == ErrorName(UserNotFound)
      ensures fromDept != toDept && userId in old(users) && old(users)[userId].dept != Some(fromDept) ==>
        r.body == ErrorName(BadSource)
      ensures fromDept != toDept && userId in old(users) && old(users)[userId].dept == Some(fromDept) && toDept !in old(departments) ==>
        r.body == ErrorName(BadTarget)
      ensures r.status == OK <==>
        fromDept != toDept && userId in old(users) && old(users)[userId].dept == Some(fromDept) && toDept in old(departments)
      ensures r.status == OK ==>
        && r.body == "Transfer success"
        && users == old(users)[userId := old(users)[userId].(dept := Some(toDept))]
        && departments == old(departments)
    {
      var failure: Option<TransferError> := None;
      if fromDept == toDept {
        failure := Some(SameDepartment);
      } else if userId !in users {
        failure := Some(UserNotFound);
      } else if users[userId].dept != Some(fromDept) {
        failure := Some(BadSource);
      } else if toDept !in departments {
        failure := Some(BadTarget);
      }
      if failure.Some? {
        return Response(BAD_REQUEST, ErrorName(failure.value));
      }
      users := users[userId := users[userId].(dept := Some(toDept))];
      r := Response(OK, "Transfer success");
    }
  }

  /** The action is its own inverse: a successful transfer followed by the
      transfer back restores the users table. */
  method TransferAndBack(store: ActionStore, userId: UserId, fromDept: DeptId, toDept: DeptId)
    requires store.Valid()
    requires fromDept in store.departments
    modifies store
    ensures store.Valid()
    ensures store.users == old(store.users) && store.departments == old(store.departments)
  {
    var there := store.TransferUser(userId, fromDept, toDept);
    if there.status == OK {
      var back := store.TransferUser(userId, toDept, fromDept);
      assert back.status == OK;
    }
  }
}
