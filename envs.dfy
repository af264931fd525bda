/** The environment routes: creating an environment with its owning
    department, adding, re-roling and removing departments through the
    `env_departments` pivot, and deleting an environment with everything that
    hangs off it. Every mutation is guarded by the requester's `owner` row;
    together the guards keep at least one owner in every environment. */
module EnvRoutes {
  import opened Http
  import opened Tables

  /** The closed set of roles of the `env_dept_roles` enum. */
  datatype Role = Owner | Reporter | Member

  function RoleName(r: Role): string
  {
    match r
    case Owner => "owner"
    case Reporter => "reporter"
    case Member => "member"
  }

  /** `validRoles.includes(role)`, returning the role it names. */
  function ParseRole(s: string): (r: Option<Role>)
    ensures r.Some? <==> s == "owner" || s == "reporter" || s == "member"
    ensures r.Some? ==> RoleName(r.value) == s
  {
    if s == "owner" then Some(Owner)
    else if s == "reporter" then Some(Reporter)
    else if s == "member" then Some(Member)
    else None
  }

  lemma ParseRoleName(r: Role)
    ensures ParseRole(RoleName(r)) == Some(r)
  {
  }

  /** `env_departments`, keyed by its composite primary key (env_id, department_slug). */
  type Pivot = map<(EnvId, DeptId), Role>

  /** The departments holding `owner` in `env`: the rows
      `where({ env_id, role: 'owner' })` returns. */
  function OwnerSlugs(pivot: Pivot, env: EnvId): (owners: set<DeptId>)
    ensures forall d :: d in owners <==> (env, d) in pivot && pivot[(env, d)] == Owner
  {
    set k | k in pivot && k.0 == env && pivot[k] == Owner :: k.1
  }

  /** The access check of every guarded handler: the requester's row exists and is `owner`. */
  predicate IsOwner(pivot: Pivot, env: EnvId, dept: DeptId)
  {
    (env, dept) in pivot && pivot[(env, dept)] == Owner
  }

  /** The orphan-owner invariant: every environment keeps an owner row. */
  ghost predicate EveryEnvOwned(envs: map<EnvId, string>, pivot: Pivot)
  {
    forall e :: e in envs ==> OwnerSlugs(pivot, e) != {}
  }

  /** The pivot after the cascade of an environment delete. */
  function PivotWithoutEnv(pivot: Pivot, env: EnvId): (p: Pivot)
    ensures forall k :: k in p <==> k in pivot && k.0 != env
    ensures forall k :: k in p ==> p[k] == pivot[k]
  {
    map k | k in pivot && k.0 != env :: pivot[k]
  }

  /** The tasks after the cascade of an environment delete. */
  function TasksWithoutEnv(tasks: map<TaskId, TaskRow>, env: EnvId): (t: map<TaskId, TaskRow>)
    ensures forall k :: k in t <==> k in tasks && tasks[k].envId != env
    ensures forall k :: k in t ==> t[k] == tasks[k]
  {
    map k | k in tasks && tasks[k].envId != env :: tasks[k]
  }

  /** The guard of self-removal: when the requester is an owner and the owner
      count is not one, some other owner remains. */
  lemma AnotherOwnerRemains(pivot: Pivot, env: EnvId, requester: DeptId)
    requires requester in OwnerSlugs(pivot, env)
    requires |OwnerSlugs(pivot, env)| != 1
    ensures exists d :: d != requester && IsOwner(pivot, env, d)
  {
    var owners := OwnerSlugs(pivot, env);
    var others := owners - {requester};
    assert owners == others + {requester};
    assert |owners| == |others| + 1;
    assert others != {};
    var d :| d in others;
    assert IsOwner(pivot, env, d);
  }

  /** Deleting the row of `dept` keeps every environment owned, provided the
      requester is an owner and, when it removes itself, is not the only one. */
  lemma RemoveKeepsOwners(envs: map<EnvId, string>, pivot: Pivot, env: EnvId, requester: DeptId, dept: DeptId)
    requires EveryEnvOwned(envs, pivot)
    requires IsOwner(pivot, env, requester)
    requires dept == requester ==> |OwnerSlugs(pivot, env)| != 1
    ensures EveryEnvOwned(envs, pivot - {(env, dept)})
  {
    var after := pivot - {(env, dept)};
    forall e | e in envs
      ensures OwnerSlugs(after, e) != {}
    {
      if e == env {
        if dept == requester {
          AnotherOwnerRemains(pivot, env, requester);
          var d :| d != requester && IsOwner(pivot, env, d);
          assert d in OwnerSlugs(after, e);
        } else {
          assert requester in OwnerSlugs(after, e);
        }
      } else {
        var d :| d in OwnerSlugs(pivot, e);
        assert d in OwnerSlugs(after, e);
      }
    }
  }

  /** Giving another department any role keeps every environment owned:
      the requester's own owner row is untouched. */
  lemma ReRoleKeepsOwners(envs: map<EnvId, string>, pivot: Pivot, env: EnvId, requester: DeptId, dept: DeptId, role: Role)
    requires EveryEnvOwned(envs, pivot)
    requires IsOwner(pivot, env, requester)
    requires dept != requester
    ensures EveryEnvOwned(envs, pivot[(env, dept) := role])
  {
  }

  /** Inserting a new row never takes an owner away. */
  lemma AddKeepsOwners(envs: map<EnvId, string>, pivot: Pivot, env: EnvId, dept: DeptId, role: Role)
    requires EveryEnvOwned(envs, pivot)
    requires (env, dept) !in pivot
    ensures EveryEnvOwned(envs, pivot[(env, dept) := role])
  {
  }

  /** A new environment arrives with its owner row. */
  lemma CreateKeepsOwners(envs: map<EnvId, string>, pivot: Pivot, id: EnvId, name: string, owner: DeptId)
    requires EveryEnvOwned(envs, pivot)
    requires id !in envs
    ensures EveryEnvOwned(envs[id := name], pivot[(id, owner) := Owner])
  {
  }

  /** The cascade removes an environment together with all of its rows. */
  lemma DeleteKeepsOwners(envs: map<EnvId, string>, pivot: Pivot, env: EnvId)
    requires EveryEnvOwned(envs, pivot)
    ensures EveryEnvOwned(envs - {env}, PivotWithoutEnv(pivot, env))
  {
  }

  /** The `envs`, `env_departments` and `tasks` tables. */
  class EnvStore {
    var envs: map<EnvId, string>
    var pivot: Pivot
    var tasks: map<TaskId, TaskRow>

    ghost predicate Valid()
      reads this
    {
      EveryEnvOwned(envs, pivot)
    }

    constructor ()
      ensures Valid()
      ensures envs == map[] && pivot == map[] && tasks == map[]
    {
      envs := map[];
      pivot := map[];
      tasks := map[];
    }

    /** POST `/`: one transaction inserts the environment and its owner row.
        `freshId` stands for `genId()`, an id no row uses yet. */
    method CreateEnv(name: Option<string>, ownerDept: Option<string>, freshId: EnvId) returns (r: Response<Option<(EnvId, string)>>)
      requires Valid()
      requires freshId !in envs && forall k :: k in pivot ==> k.0 != freshId
      modifies this
      ensures Valid()
      ensures !Truthy(name) || !Truthy(ownerDept) ==> r == Response(BAD_REQUEST, None) && unchanged(this)
      ensures Truthy(name) && Truthy(ownerDept) ==>
        && r == Response(CREATED, Some((freshId, name.value)))
        && envs == old(envs)[freshId := name.value]
        && pivot == old(pivot)[(freshId, ownerDept.value) := Owner]
        && tasks == old(tasks)
    {
      if !Truthy(name) || !Truthy(ownerDept) {
        return Response(BAD_REQUEST, None);
      }
      CreateKeepsOwners(envs, pivot, freshId, name.value, ownerDept.value);
      envs := envs[freshId := name.value];
      pivot := pivot[(freshId, ownerDept.value) := Owner];
      r := Response(CREATED, Some((freshId, name.value)));
    }

    /** POST `/:envId/departments`: an owner assigns a new department a role. */
    method AddDepartment(envId: EnvId, requester: Option<string>, deptSlug: Option<string>, role: Option<string>) returns (status: int)
      requires Valid()
      modifies this
      ensures Valid()
      ensures status != NO_CONTENT ==> unchanged(this)
      ensures !Truthy(requester) || !Truthy(deptSlug) || !Truthy(role) ==> status == BAD_REQUEST
      ensures Truthy(requester) && Truthy(deptSlug) && Truthy(role) ==>
        && (!IsOwner(old(pivot), envId, requester.value) ==> status == FORBIDDEN)
        && (IsOwner(old(pivot), envId, requester.value) && (envId, deptSlug.value) in old(pivot) ==> status == CONFLICT)
        && (IsOwner(old(pivot), envId, requester.value) && (envId, deptSlug.value) !in old(pivot) ==>
              if ParseRole(role.value).None? then status == BAD_REQUEST
              else status == NO_CONTENT && pivot == old(pivot)[(envId, deptSlug.value) := ParseRole(role.value).value])
      ensures status == NO_CONTENT ==> envs == old(envs) && tasks == old(tasks)
    {
      if !Truthy(requester) {
        return BAD_REQUEST;
      }
      if !Truthy(deptSlug) || !Truthy(role) {
        return BAD_REQUEST;
      }
      if !IsOwner(pivot, envId, requester.value) {
        return FORBIDDEN;
      }
      if (envId, deptSlug.value) in pivot {
        return CONFLICT;
      }
      var parsed := ParseRole(role.value);
      if parsed.None? {
        return BAD_REQUEST;
      }
      AddKeepsOwners(envs, pivot, envId, deptSlug.value, parsed.value);
      pivot := pivot[(envId, deptSlug.value) := parsed.value];
      status := NO_CONTENT;
    }

    /** PATCH `/:envId/departments/:deptSlug`: an owner changes another department's role. */
    method ChangeRole(envId: EnvId, deptSlug: DeptId, requester: Option<string>, role: Option<string>) returns (status: int)
      requires Valid()
      modifies this
      ensures Valid()
      ensures status != NO_CONTENT ==> unchanged(this)
      ensures !Truthy(requester) || !Truthy(role) ==> status == BAD_REQUEST
      ensures Truthy(requester) && Truthy(role) ==>
        && (!IsOwner(old(pivot), envId, requester.value) ==> status == FORBIDDEN)
        && (IsOwner(old(pivot), envId, requester.value) && (envId, deptSlug) !in old(pivot) ==> status == NOT_FOUND)
        && (IsOwner(old(pivot), envId, requester.value) && (envId, deptSlug) in old(pivot) && deptSlug == requester.value ==> status == CONFLICT)
        && (IsOwner(old(pivot), envId, requester.value) && (envId, deptSlug) in old(pivot) && deptSlug != requester.value ==>
              if ParseRole(role.value).None? then status == BAD_REQUEST
              else status == NO_CONTENT && pivot == old(pivot)[(envId, deptSlug) := ParseRole(role.value).value])
      ensures status == NO_CONTENT ==> envs == old(envs) && tasks == old(tasks)
    {
      if !Truthy(requester) {
        return BAD_REQUEST;
      }
      if !Truthy(role) {
        return BAD_REQUEST;
      }
      if !IsOwner(pivot, envId, requester.value) {
        return FORBIDDEN;
      }
      if (envId, deptSlug) !in pivot {
        return NOT_FOUND;
      }
      if deptSlug == requester.value {
        return CONFLICT;
      }
      var parsed := ParseRole(role.value);
      if parsed.None? {
        return BAD_REQUEST;
      }
      ReRoleKeepsOwners(envs, pivot, envId, requester.value, deptSlug, parsed.value);
      pivot := pivot[(envId, deptSlug) := parsed.value];
      status := NO_CONTENT;
    }

    /** DELETE `/:envId/departments/:deptSlug`: an owner removes a department;
        removing itself is refused while it is the only owner. */
    method RemoveDepartment(envId: EnvId, deptSlug: DeptId, requester: Option<string>) returns (status: int)
      requires Valid()
      modifies this
      ensures Valid()
      ensures status != NO_CONTENT ==> unchanged(this)
      ensures !Truthy(requester) ==> status == BAD_REQUEST
      ensures Truthy(requester) ==>
        && (!IsOwner(old(pivot), envId, requester.value) ==> status == FORBIDDEN)
        && (IsOwner(old(pivot), envId, requester.value) && (envId, deptSlug) !in old(pivot) ==> status == NOT_FOUND)
        && (IsOwner(old(pivot), envId, requester.value) && (envId, deptSlug) in old(pivot) ==>
              if deptSlug == requester.value && |OwnerSlugs(old(pivot), envId)| == 1 then status == CONFLICT
              else status == NO_CONTENT && pivot == old(pivot) - {(envId, deptSlug)})
      ensures status == NO_CONTENT ==> envs == old(envs) && tasks == old(tasks)
    {
      if !Truthy(requester) {
        return BAD_REQUEST;
      }
      if !IsOwner(pivot, envId, requester.value) {
        return FORBIDDEN;
      }
      if (envId, deptSlug) !in pivot {
        return NOT_FOUND;
      }
      if deptSlug == requester.value {
        var remainingOwners := OwnerSlugs(pivot, envId);
        if |remainingOwners| == 1 {
          return CONFLICT;
        }
      }
      RemoveKeepsOwners(envs, pivot, envId, requester.value, deptSlug);
      pivot := pivot - {(envId, deptSlug)};
      status := NO_CONTENT;
    }

    /** DELETE `/:envId`: an owner deletes the environment; one transaction
        removes its pivot rows, its tasks and its row. */
    method DeleteEnv(envId: EnvId, requester: Option<string>) returns (status: int)
      requires Valid()
      modifies this
      ensures Valid()
      ensures status != NO_CONTENT ==> unchanged(this)
      ensures !Truthy(requester) || envId == "" ==> status == BAD_REQUEST
      ensures Truthy(requester) && envId != "" ==>
        && (!IsOwner(old(pivot), envId, requester.value) ==> status == FORBIDDEN)
        && (IsOwner(old(pivot), envId, requester.value) && envId !in old(envs) ==> status == NOT_FOUND)
        && (IsOwner(old(pivot), envId, requester.value) && envId in old(envs) ==> status == NO_CONTENT)
      ensures status == NO_CONTENT ==>
        && envs == old(envs) - {envId}
        && pivot == PivotWithoutEnv(old(pivot), envId)
        && tasks == TasksWithoutEnv(old(tasks), envId)
    {
      if !Truthy(requester) {
        return BAD_REQUEST;
      }
      if envId == "" {
        return BAD_REQUEST;
      }
      if !IsOwner(pivot, envId, requester.value) {
        return FORBIDDEN;
      }
      if envId !in envs {
        return NOT_FOUND;
      }
      DeleteKeepsOwners(envs, pivot, envId);
      pivot := PivotWithoutEnv(pivot, envId);
      tasks := TasksWithoutEnv(tasks, envId);
      envs := envs - {envId};
      status := NO_CONTENT;
    }
  }

  /** The last owner cannot leave: whatever the requester does to its own
      row, the environment it solely owns is still owned afterwards. */
  method SoleOwnerCannotLeave(store: EnvStore, envId: EnvId, owner: DeptId)
    requires store.Valid()
    requires owner != "" && OwnerSlugs(store.pivot, envId) == {owner}
    modifies store
    ensures store.pivot == old(store.pivot)
  {
    var s1 := store.RemoveDepartment(envId, owner, Some(owner));
    assert s1 == CONFLICT;
    var s2 := store.ChangeRole(envId, owner, Some(owner), Some("member"));
    assert s2 == CONFLICT;
  }
}
