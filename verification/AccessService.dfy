/**
 `evaluate_access` as the service runs it: the cascade over the tables, the
 decision log, and `_ORG_FOR_STORE_CACHE`, which outlives table changes.
 */
module AccessService {
  import opened Types
  import opened AccessControl

  type Key = (string, string)   // (tenant, store)

  type Cache = map<Key, Option<string>>

  ghost predicate Coherent(cache: Cache, orgs: seq<Org>)
  {
    forall k :: k in cache ==> cache[k] == OrgOf(orgs, k.0, k.1)
  }

  // ---- organizations as a process sees them through its cache ----

  /** `seen` answers every lookup as the cache does, and as the table does where nothing is cached. */
  ghost predicate SeenAs(seen: seq<Org>, cache: Cache, orgs: seq<Org>)
  {
    forall tenant, store :: OrgOf(seen, tenant, store) == if (tenant, store) in cache then cache[(tenant, store)] else OrgOf(orgs, tenant, store)
  }

  function Without(orgs: seq<Org>, k: Key): seq<Org>
  {
    if orgs == [] then []
    else (if orgs[0].tenant == k.0 && orgs[0].storeId == Some(k.1) then [] else [orgs[0]]) + Without(orgs[1..], k)
  }

  lemma {:induction false} WithoutAnswers(orgs: seq<Org>, k: Key, tenant: string, store: string)
    ensures OrgOf(Without(orgs, k), tenant, store) == if (tenant, store) == k then None else OrgOf(orgs, tenant, store)
  {
    if orgs != [] {
      WithoutAnswers(orgs[1..], k, tenant, store);
      if orgs[0].tenant == k.0 && orgs[0].storeId == Some(k.1) {
        assert Without(orgs, k) == Without(orgs[1..], k);
      } else {
        assert Without(orgs, k)[1..] == Without(orgs[1..], k);
      }
    }
  }

  function Override(orgs: seq<Org>, k: Key, answer: Option<string>): seq<Org>
  {
    (if answer.Some? then [Org(answer.value, k.0, Some(k.1))] else []) + Without(orgs, k)
  }

  lemma OverrideAnswers(orgs: seq<Org>, k: Key, answer: Option<string>, tenant: string, store: string)
    ensures OrgOf(Override(orgs, k, answer), tenant, store) == if (tenant, store) == k then answer else OrgOf(orgs, tenant, store)
  {
    WithoutAnswers(orgs, k, tenant, store);
    if answer.Some? {
      assert Override(orgs, k, answer)[1..] == Without(orgs, k);
    } else {
      assert Override(orgs, k, answer) == Without(orgs, k);
    }
  }

  /** The organizations table this process decides by. */
  ghost function Seen(cache: Cache, orgs: seq<Org>): (seen: seq<Org>)
    ensures SeenAs(seen, cache, orgs)
    decreases |cache|
  {
    if cache == map[] then orgs
    else
      var k :| k in cache;
      var rest := cache - {k};
      assert rest.Keys == cache.Keys - {k} && |rest| < |cache|;
      OverrideSeen(Seen(rest, orgs), cache, k, orgs);
      Override(Seen(rest, orgs), k, cache[k])
  }

  lemma OverrideSeen(before: seq<Org>, cache: Cache, k: Key, orgs: seq<Org>)
    requires k in cache && SeenAs(before, cache - {k}, orgs)
    ensures SeenAs(Override(before, k, cache[k]), cache, orgs)
  {
    forall tenant, store
      ensures OrgOf(Override(before, k, cache[k]), tenant, store) == if (tenant, store) in cache then cache[(tenant, store)] else OrgOf(orgs, tenant, store)
    {
      OverrideAnswers(before, k, cache[k], tenant, store);
    }
  }

  /** The tables as this process believes them to be. */
  ghost function Believed(t: Tables, cache: Cache): Tables
  {
    t.(orgs := Seen(cache, t.orgs))
  }

  ghost predicate SameAnswers(a: seq<Org>, b: seq<Org>)
  {
    forall tenant, store :: OrgOf(a, tenant, store) == OrgOf(b, tenant, store)
  }

  lemma SameRoleGrants(t: Tables, orgs: seq<Org>, tenant: string, subjects: set<string>, right: string, c: Option<Capability>,
                       resourceUri: Option<string>, now: string)
    requires SameAnswers(t.orgs, orgs)
    ensures ActiveRoleGrant(t.(orgs := orgs), tenant, subjects, right, c, resourceUri, now) <==>
      ActiveRoleGrant(t, tenant, subjects, right, c, resourceUri, now)
  {
    assert forall row :: ScopeMatches(t.(orgs := orgs), row, tenant, c, resourceUri) <==> ScopeMatches(t, row, tenant, c, resourceUri);
  }

  /** Access depends on the organizations table only through its answers. */
  lemma SameDecision(t: Tables, orgs: seq<Org>, q: Query)
    requires SameAnswers(t.orgs, orgs)
    ensures Allowed(t.(orgs := orgs), q) <==> Allowed(t, q)
  {
    SameRoleGrants(t, orgs, QueryTenant(q), SubjectRefs(q.principal), q.right, q.capability, q.resourceUri, q.now);
    if q.capability.Some? {
      SameCapabilityGrants(t, orgs, q, q.capability.value);
    }
    assert Granted(t.(orgs := orgs), q) <==> Granted(t, q);
    assert Blocked(t.(orgs := orgs), q) <==> Blocked(t, q);
  }

  lemma SameCapabilityGrants(t: Tables, orgs: seq<Org>, q: Query, c: Capability)
    requires SameAnswers(t.orgs, orgs)
    ensures CapabilityGranted(t.(orgs := orgs), q, c) <==> CapabilityGranted(t, q, c)
  {
    SameRoleGrants(t, orgs, CapTenant(c, q.principal.tenantId), SubjectRefs(q.principal), q.right, Some(c), None, q.now);
  }

  /** With a cache that agrees with the table, the process decides by the table. */
  lemma CurrentCacheDecidesByTable(t: Tables, cache: Cache, q: Query)
    requires Coherent(cache, t.orgs)
    ensures Allowed(Believed(t, cache), q) <==> Allowed(t, q)
  {
    var seen := Seen(cache, t.orgs);
    assert SameAnswers(t.orgs, seen);
    SameDecision(t, seen, q);
  }

  /** Isolation as the running process enforces it: by the organization its cache, or else the table, names for the store. */
  lemma CachedOrgIsolation(t: Tables, cache: Cache, q: Query, c: Capability, orgA: string, orgB: string)
    requires q.capability == Some(c) && q.right in {"discover", "load", "call"} && c.visibility == "internal" && Truthy(c.storeId).Some?
    requires StoreIsOrg(t, c.storeId, CapTenant(c, q.principal.tenantId))
    requires var k: Key := (if c.tenantId != "" then c.tenantId else QueryTenant(q), c.storeId.value);
      (if k in cache then cache[k] else OrgOf(t.orgs, k.0, k.1)) == Some(orgB)
    requires orgA != orgB && OnlyOrg(t, q, c, orgA)
    requires forall r :: r in q.principal.roles ==> !GlobalRoleHasRight(r, q.right)
    requires !ShareGrant(t, QueryTenant(q), SubjectRefs(q.principal), c.uri, q.right, q.now)
    requires !TupleMatch(t, QueryTenant(q), ResourceRefs(q.capability, q.resourceUri), GrantRelations(q.right), SubjectRefs(q.principal))
    requires !NamespaceMemberGrant(t, c.namespaceId, SubjectRefs(q.principal), q.right)
    requires !ManifestGrant(c, q.principal, q.right) && !OwnerGrant(c, q.principal, q.right)
    ensures !Allowed(Believed(t, cache), q)
  {
    OrgIsolation(Believed(t, cache), q, c, orgA, orgB);
  }

  // ---- the cache over a whole process ----

  datatype Op =
    | Ask(key: Key)                 // org_id_for_store
    | Rebind(orgs: seq<Org>)        // any change to the organizations table

  /** The organizations table before step `n`. */
  function OrgsAt(start: seq<Org>, ops: seq<Op>, n: nat): seq<Org>
    requires n <= |ops|
  {
    if n == 0 then start else match ops[n - 1] case Rebind(orgs) => orgs case Ask(_) => OrgsAt(start, ops, n - 1)
  }

  function CacheAt(start: seq<Org>, ops: seq<Op>, n: nat): Cache
    requires n <= |ops|
  {
    if n == 0 then map[]
    else
      var before := CacheAt(start, ops, n - 1);
      match ops[n - 1]
      case Rebind(_) => before
      case Ask(k) => if k in before then before else before[k := OrgOf(OrgsAt(start, ops, n - 1), k.0, k.1)]
  }

  /** What step `i` answers. */
  function Answer(start: seq<Org>, ops: seq<Op>, i: nat): Option<string>
    requires i < |ops| && ops[i].Ask?
  {
    var cache, k := CacheAt(start, ops, i), ops[i].key;
    if k in cache then cache[k] else OrgOf(OrgsAt(start, ops, i), k.0, k.1)
  }

  ghost predicate FirstAsk(ops: seq<Op>, k: Key, f: nat)
  {
    f < |ops| && ops[f] == Ask(k) && forall j :: 0 <= j < f ==> ops[j] != Ask(k)
  }

  /** A cached answer is the table's answer at the first lookup of its key. */
  lemma {:induction false} CacheHoldsFirstAnswer(start: seq<Org>, ops: seq<Op>, n: nat, k: Key, f: nat)
    requires n <= |ops| && FirstAsk(ops, k, f)
    ensures k in CacheAt(start, ops, n) <==> f < n
    ensures f < n ==> CacheAt(start, ops, n)[k] == OrgOf(OrgsAt(start, ops, f), k.0, k.1)
  {
    if n > 0 {
      CacheHoldsFirstAnswer(start, ops, n - 1, k, f);
    }
  }

  /** A lookup answers as the table does exactly when the binding is what it was at the first lookup of that store. */
  lemma AnswerCurrentIff(start: seq<Org>, ops: seq<Op>, i: nat, f: nat)
    requires i < |ops| && ops[i].Ask? && FirstAsk(ops, ops[i].key, f)
    ensures f <= i
    ensures Answer(start, ops, i) == OrgOf(OrgsAt(start, ops, i), ops[i].key.0, ops[i].key.1) <==>
      OrgOf(OrgsAt(start, ops, f), ops[i].key.0, ops[i].key.1) == OrgOf(OrgsAt(start, ops, i), ops[i].key.0, ops[i].key.1)
  {
    CacheHoldsFirstAnswer(start, ops, i, ops[i].key, f);
  }

  /** A store looked up before its organization exists stays unowned for the life of the process. */
  lemma NegativeAnswerGoesStale() returns (ops: seq<Op>)
    ensures |ops| == 3 && ops[2].Ask?
    ensures Answer([], ops, 2) == None
    ensures OrgOf(OrgsAt([], ops, 2), ops[2].key.0, ops[2].key.1) == Some("org1")
  {
    var k: Key := ("asg", "store1");
    var orgs := [Org("org1", "asg", Some("store1"))];
    ops := [Ask(k), Rebind(orgs), Ask(k)];
    assert OrgsAt([], ops, 0) == [] && OrgsAt([], ops, 1) == [] && OrgsAt([], ops, 2) == orgs;
    assert CacheAt([], ops, 1) == map[k := None];
    assert CacheAt([], ops, 2) == map[k := None];
  }

  // ---- the service ----

  datatype Denial = UnsupportedRight | PrincipalDisabled | CapabilityInactive | StepUpRequired | IntegrityInvalid | ExplicitDeny | NoGrant

  datatype Decision = Decision(tenant: string, principal: string, action: string, resourceUri: string, allowed: bool)

  /** The reason returned with a refusal: the first blocker in cascade order. */
  function DenialOf(t: Tables, q: Query): Option<Denial>
  {
    if q.right !in RIGHTS then Some(UnsupportedRight)
    else if IsDisabled(t, q.principal) then Some(PrincipalDisabled)
    else if q.capability.Some? && InactiveCapability(q.capability.value) then Some(CapabilityInactive)
    else if RequiresStepUp(q.right, q.capability) && !q.principal.stepUp then Some(StepUpRequired)
    else if q.capability.Some? && IntegrityBlocked(t, q, q.capability.value) then Some(IntegrityInvalid)
    else if TupleMatch(t, QueryTenant(q), ResourceRefs(q.capability, q.resourceUri), DenyRelations(q.right), SubjectRefs(q.principal)) then Some(ExplicitDeny)
    else if !Granted(t, q) then Some(NoGrant)
    else None
  }

  predicate RowGrants(t: Tables, row: RoleRow, tenant: string, subjects: set<string>, right: string, c: Option<Capability>,
                      resourceUri: Option<string>, now: string)
  {
    RowApplies(row, tenant, subjects, now) && ScopeMatches(t, row, tenant, c, resourceUri) && RoleHasRight(row.role, right)
  }

  class Service {
    var tables: Tables
    var cache: Cache
    var decisions: seq<Decision>

    constructor (tables: Tables)
      ensures this.tables == tables && cache == map[] && decisions == []
    {
      this.tables, cache, decisions := tables, map[], [];
    }

    /** `org_id_for_store` */
    method OrgIdForStore(storeId: Option<string>, tenant: string) returns (org: Option<string>)
      modifies this`cache
      ensures Truthy(storeId).None? ==> org.None? && cache == old(cache)
      ensures Truthy(storeId).Some? ==>
        var k: Key := (tenant, storeId.value);
        && org == (if k in old(cache) then old(cache)[k] else OrgOf(tables.orgs, tenant, storeId.value))
        && cache == (if k in old(cache) then old(cache) else old(cache)[k := org])
      ensures forall seen :: SeenAs(seen, old(cache), tables.orgs) ==>
        SeenAs(seen, cache, tables.orgs) && org == OrgForStore(seen, storeId, tenant)
    {
      if Truthy(storeId).None? {
        return None;
      }
      var key: Key := (tenant, storeId.value);
      if key in cache {
        return cache[key];
      }
      org := OrgOf(tables.orgs, tenant, storeId.value);
      cache := cache[key := org];
    }

    /** `active_role_grant`: the row loop with its early return; organizations are as the process sees them. */
    method HasRoleGrant(tenant: string, subjects: set<string>, right: string, c: Option<Capability>, resourceUri: Option<string>, now: string,
                        ghost seen: seq<Org>)
      returns (granted: bool)
      requires SeenAs(seen, cache, tables.orgs)
      modifies this`cache
      ensures SeenAs(seen, cache, tables.orgs)
      ensures granted <==> ActiveRoleGrant(tables.(orgs := seen), tenant, subjects, right, c, resourceUri, now)
    {
      ghost var t := tables.(orgs := seen);
      for i := 0 to |tables.roles|
        invariant SeenAs(seen, cache, tables.orgs)
        invariant forall j :: 0 <= j < i ==> !RowGrants(t, tables.roles[j], tenant, subjects, right, c, resourceUri, now)
      {
        var row := tables.roles[i];
        var matches := false;
        if RowApplies(row, tenant, subjects, now) {
          if row.scopeType == "org" && c.Some? {
            var cap := c.value;
            var org := OrgIdForStore(cap.storeId, if cap.tenantId != "" then cap.tenantId else tenant);
            matches := org == Some(row.scopeId);
          } else {
            matches := ScopeMatches(tables, row, tenant, c, resourceUri);
          }
        }
        assert RowApplies(row, tenant, subjects, now) ==> (matches <==> ScopeMatches(t, row, tenant, c, resourceUri));
        if matches && RoleHasRight(row.role, right) {
          assert row in t.roles;
          return true;
        }
      }
      return false;
    }

    /**
     `evaluate_access`, whatever the cache holds: the cascade allows exactly what
     `Allowed` says of the tables as the process believes them, names the first
     blocker otherwise, and logs when asked.
     */
    method EvaluateAccess(q: Query, audit: bool) returns (allowed: bool, denial: Option<Denial>)
      modifies this`cache, this`decisions
      ensures SeenAs(Seen(old(cache), tables.orgs), cache, tables.orgs)
      ensures allowed <==> Allowed(Believed(tables, old(cache)), q)
      ensures denial == DenialOf(Believed(tables, old(cache)), q) && (allowed <==> denial.None?)
      ensures decisions == old(decisions) +
        (if audit && q.right in RIGHTS then [Decision(QueryTenant(q), q.principal.subject, q.right, TargetUri(q), allowed)] else [])
    {
      if q.right !in RIGHTS {
        return false, Some(UnsupportedRight);
      }
      var tenant, resources, subjects := QueryTenant(q), ResourceRefs(q.capability, q.resourceUri), SubjectRefs(q.principal);
      denial := Some(NoGrant);
      if IsDisabled(tables, q.principal) {
        denial := Some(PrincipalDisabled);
      } else if q.capability.Some? && InactiveCapability(q.capability.value) {
        denial := Some(CapabilityInactive);
      } else if RequiresStepUp(q.right, q.capability) && !q.principal.stepUp {
        denial := Some(StepUpRequired);
      } else if q.capability.Some? && IntegrityBlocked(tables, q, q.capability.value) {
        denial := Some(IntegrityInvalid);
      } else if TupleMatch(tables, tenant, resources, DenyRelations(q.right), subjects) {
        denial := Some(ExplicitDeny);
      } else {
        var granted := FindGrant(q, Seen(cache, tables.orgs));
        if granted {
          denial := None;
        }
      }
      allowed := denial.None?;
      if audit {
        decisions := decisions + [Decision(tenant, q.principal.subject, q.right, TargetUri(q), allowed)];
      }
    }

    /** The grant half of the cascade, in order. */
    method FindGrant(q: Query, ghost seen: seq<Org>) returns (granted: bool)
      requires SeenAs(seen, cache, tables.orgs)
      modifies this`cache
      ensures SeenAs(seen, cache, tables.orgs)
      ensures granted <==> Granted(tables.(orgs := seen), q)
    {
      var p, right, tenant, subjects := q.principal, q.right, QueryTenant(q), SubjectRefs(q.principal);
      if exists r :: r in p.roles && GlobalRoleHasRight(r, right) {
        return true;
      }
      var byRole := HasRoleGrant(tenant, subjects, right, q.capability, q.resourceUri, q.now, seen);
      if byRole {
        return true;
      }
      if ShareGrant(tables, tenant, subjects, TargetUri(q), right, q.now) {
        return true;
      }
      if TupleMatch(tables, tenant, ResourceRefs(q.capability, q.resourceUri), GrantRelations(right), subjects) {
        return true;
      }
      if q.capability.None? {
        return false;
      }
      granted := FindCapabilityGrant(q, q.capability.value, seen);
    }

    /** The grants that look at the capability itself. */
    method FindCapabilityGrant(q: Query, c: Capability, ghost seen: seq<Org>) returns (granted: bool)
      requires SeenAs(seen, cache, tables.orgs)
      modifies this`cache
      ensures SeenAs(seen, cache, tables.orgs)
      ensures granted <==> CapabilityGranted(tables.(orgs := seen), q, c)
    {
      var p, right, subjects := q.principal, q.right, SubjectRefs(q.principal);
      if NamespaceMemberGrant(tables, c.namespaceId, subjects, right) || StoreOwnerGrant(tables, c, p, right)
         || ManifestGrant(c, p, right) || OwnerGrant(c, p, right) || AllUsersStoreGrant(tables, c, p, right) {
        return true;
      }
      if right in {"discover", "load", "call"} && p.authenticated && StoreIsOrg(tables, c.storeId, CapTenant(c, p.tenantId)) {
        var member := HasRoleGrant(CapTenant(c, p.tenantId), subjects, right, Some(c), None, q.now, seen);
        if member {
          return true;
        }
      }
      return DefaultVisibilityGrant(tables, c, p, right);
    }
  }
}
