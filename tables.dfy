/** Rows of the relational tables that the knex-backed handlers read and write.
    A table is a map from its primary key to its row. */
module Tables {
  import opened Http

  type UserId = string
  type DeptId = string
  type EnvId = string
  type TaskId = string

  /** A row of `users`. `dept` is the `department_slug` column in the current
      schema and `department_id` in the older one; SQL null is None. */
  datatype UserRow = UserRow(id: UserId, name: string, email: Option<string>, dept: Option<DeptId>, updatedAt: int)

  /** A row of `departments`; `id` is the primary key (the slug in the current schema). */
  datatype DeptRow = DeptRow(id: DeptId, name: string, updatedAt: int)

  /** A row of `tasks`: the environment it lives in and its author. */
  datatype TaskRow = TaskRow(envId: EnvId, authorId: UserId, title: string)

  /** Every row is stored under its own primary key. */
  ghost predicate UsersKeyed(users: map<UserId, UserRow>)
  {
    forall k :: k in users ==> users[k].id == k
  }

  ghost predicate DeptsKeyed(depts: map<DeptId, DeptRow>)
  {
    forall k :: k in depts ==> depts[k].id == k
  }

  /** Some task names `id` as its author. */
  predicate IsAuthor(tasks: map<TaskId, TaskRow>, id: UserId)
  {
    exists t :: t in tasks && tasks[t].authorId == id
  }

  /** The write of a successful conditional PUT on a user:
      `{ name: name ?? u.name, email: email ?? u.email, updated_at: now }`. */
  function EditUser(u: UserRow, name: Option<string>, email: Option<string>, now: int): (v: UserRow)
    ensures v.id == u.id && v.dept == u.dept && v.updatedAt == now
    ensures name.Some? ==> v.name == name.value
    ensures name.None? ==> v.name == u.name
    ensures email.Some? ==> v.email == email
    ensures email.None? ==> v.email == u.email
  {
    u.(name := Coalesce(name, u.name), email := if email.Some? then email else u.email, updatedAt := now)
  }

  /** The write of a successful conditional PUT on a department:
      `{ name: name ?? d.name, updated_at: now }`. */
  function EditDept(d: DeptRow, name: Option<string>, now: int): (e: DeptRow)
    ensures e.id == d.id && e.updatedAt == now
    ensures name.Some? ==> e.name == name.value
    ensures name.None? ==> e.name == d.name
  {
    d.(name := Coalesce(name, d.name), updatedAt := now)
  }

  /** Repeating an edit with the same fields and clock changes nothing more. */
  lemma EditUserIdempotent(u: UserRow, name: Option<string>, email: Option<string>, now: int)
    ensures EditUser(EditUser(u, name, email, now), name, email, now) == EditUser(u, name, email, now)
  {
  }

  /** An edit supplying no field only moves the timestamp. */
  lemma EditUserNothingSupplied(u: UserRow, now: int)
    ensures EditUser(u, None, None, now) == u.(updatedAt := now)
  {
  }
}
