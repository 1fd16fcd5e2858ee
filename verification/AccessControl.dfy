/**
 `evaluate_access` and its grant functions (capmesh/access_control.py) over the
 governance tables, and the process-lifetime store-to-organization cache.
 `utc_now()` is the parameter `now`; timestamps compare as text, as in the source.
 */
module AccessControl {
  import opened Types
  import opened Text

  const RIGHTS := {"discover", "load", "call", "delegate", "share", "submit", "publish", "approve", "manage", "audit"}

  const ROLE_RIGHTS: map<string, set<string>> := map[
    "member" := {"discover", "load", "call"},
    "vibe_coder" := {"discover", "load", "call", "delegate", "share", "submit"},
    "publisher" := {"discover", "load", "call", "submit", "publish"},
    "namespace_admin" := RIGHTS,
    "org_admin" := RIGHTS,
    "platform_admin" := RIGHTS,
    "auditor" := {"discover", "load", "audit"},
    "app_service" := {"discover", "load", "call", "delegate"}]

  datatype Principal = Principal(subject: string, tenantId: string, identityId: Option<string>, stableId: string,
                                 email: Option<string>, appId: Option<string>, groups: seq<string>, roles: seq<string>,
                                 scopes: set<string>, authenticated: bool, disabled: bool, stepUp: bool)

  datatype Capability = Capability(uri: string, tenantId: string, storeId: Option<string>, namespaceId: Option<string>,
                                   approvalState: string, lifecycle: string, riskTier: string, visibility: string,
                                   promotedFrom: Option<string>, signature: string, provenance: string, riskReview: string,
                                   allowUsers: set<string>, allowGroups: set<string>, requiredScopes: set<string>,
                                   createdBy: Option<string>, owner: string)

  datatype RoleRow = RoleRow(tenant: string, subjectType: string, subjectId: string, role: string, scopeType: string,
                             scopeId: string, expiresAt: Option<string>, revoked: bool)
  datatype Share = Share(tenant: string, uri: string, subjectType: string, subjectId: string, rights: set<string>,
                         state: string, expiresAt: Option<string>, revoked: bool)
  datatype Member = Member(namespaceId: string, subjectType: string, subjectId: string, role: string, rights: set<string>, revoked: bool)
  datatype Store = Store(tenant: string, kind: string, ownerIdentity: Option<string>, ownerApp: Option<string>)
  datatype Org = Org(id: string, tenant: string, storeId: Option<string>)
  datatype Identity = Identity(id: string, tenant: string, userName: string, email: Option<string>, active: bool)

  /** `identities` is kept newest first; the other tables in row order. */
  datatype Tables = Tables(relations: seq<Relation>, roles: seq<RoleRow>, shares: seq<Share>, members: seq<Member>,
                           stores: map<string, Store>, orgs: seq<Org>, identities: seq<Identity>, promotions: set<(string, string)>)

  /** One access question. */
  datatype Query = Query(principal: Principal, right: string, capability: Option<Capability>, resourceUri: Option<string>,
                         now: string, production: bool)

  // ---- subjects and resources ----

  function IdentityOf(p: Principal): string
  {
    Or(p.identityId, p.stableId)
  }

  function SubjectRefs(p: Principal): set<string>
  {
    {"user:" + p.subject, "identity:" + IdentityOf(p)}
    + (if Truthy(p.email).Some? && p.email.value != p.subject then {"user:" + p.email.value} else {})
    + (if Truthy(p.appId).Some? then {"app:" + p.appId.value} else {})
    + (set g | g in p.groups :: "group:" + g)
    + (set r | r in p.roles :: "role:" + r)
  }

  function ResourceRefs(c: Option<Capability>, resourceUri: Option<string>): seq<string>
  {
    match c
    case Some(cap) =>
      [cap.uri]
      + (if Truthy(cap.namespaceId).Some? then ["namespace:" + cap.namespaceId.value] else [])
      + (if Truthy(cap.storeId).Some? then ["store:" + cap.storeId.value] else [])
      + ["tenant:" + TenantOr(cap.tenantId)]
    case None => if Truthy(resourceUri).Some? then [resourceUri.value] else []
  }

  /** The tenant whose rows answer the query. */
  function QueryTenant(q: Query): string
  {
    if q.principal.tenantId != "" then q.principal.tenantId
    else if q.capability.Some? && q.capability.value.tenantId != "" then q.capability.value.tenantId
    else DEFAULT_TENANT
  }

  function CapTenant(c: Capability, fallback: string): string
  {
    if c.tenantId != "" then c.tenantId else TenantOr(fallback)
  }

  /** `ref.partition(":")` without the separator. */
  function Partition(ref: string): (string, string)
  {
    if ref == "" then ("", "")
    else if ref[0] == ':' then ("", ref[1..])
    else
      var (t, id) := Partition(ref[1..]);
      ([ref[0]] + t, id)
  }

  // ---- grants ----

  predicate Live(expiresAt: Option<string>, now: string)
  {
    Truthy(expiresAt).None? || !Leq(expiresAt.value, now)
  }

  predicate RoleHasRight(role: string, right: string)
  {
    role in ROLE_RIGHTS && (right in ROLE_RIGHTS[role] || "manage" in ROLE_RIGHTS[role])
  }

  predicate GlobalRoleHasRight(role: string, right: string)
  {
    if role in {"platform_admin", "org_admin"} then RoleHasRight(role, right)
    else role == "auditor" && right in {"discover", "load", "audit"}
  }

  predicate TupleMatch(t: Tables, tenant: string, objects: seq<string>, relations: set<string>, users: set<string>)
  {
    exists r :: r in t.relations && r.tenant == tenant && r.resource in objects && r.relation in relations && r.user in users
  }

  /** `SELECT id FROM organizations WHERE store_id = ? AND tenant_id = ?` */
  function OrgOf(orgs: seq<Org>, tenant: string, storeId: string): Option<string>
  {
    if orgs == [] then None
    else if orgs[0].storeId == Some(storeId) && orgs[0].tenant == tenant then Some(orgs[0].id)
    else OrgOf(orgs[1..], tenant, storeId)
  }

  function OrgForStore(orgs: seq<Org>, storeId: Option<string>, tenant: string): Option<string>
  {
    if Truthy(storeId).None? then None else OrgOf(orgs, tenant, storeId.value)
  }

  predicate ScopeMatches(t: Tables, row: RoleRow, tenant: string, c: Option<Capability>, resourceUri: Option<string>)
  {
    if row.scopeType == "org" then
      match c
      case None => resourceUri in {Some("org:" + row.scopeId), Some(row.scopeId)}
      case Some(cap) => OrgForStore(t.orgs, cap.storeId, if cap.tenantId != "" then cap.tenantId else tenant) == Some(row.scopeId)
    else PlainScopeMatches(row, tenant, c, resourceUri)
  }

  /** `role_assignment_scope_matches` */
  predicate PlainScopeMatches(row: RoleRow, tenant: string, c: Option<Capability>, resourceUri: Option<string>)
  {
    if row.scopeType == "tenant" then row.scopeId in {tenant, "*"}
    else match c
      case None => resourceUri in {Some(row.scopeType + ":" + row.scopeId), Some(row.scopeId)}
      case Some(cap) =>
        if row.scopeType == "store" then cap.storeId == Some(row.scopeId)
        else if row.scopeType == "namespace" then cap.namespaceId == Some(row.scopeId)
        else row.scopeType in {"capability", "resource", "object"} && (row.scopeId == cap.uri || resourceUri == Some(row.scopeId))
  }

  predicate RowApplies(row: RoleRow, tenant: string, subjects: set<string>, now: string)
  {
    && row.tenant == tenant && !row.revoked && Live(row.expiresAt, now)
    && exists s :: s in subjects && Partition(s) == (row.subjectType, row.subjectId)
  }

  predicate ActiveRoleGrant(t: Tables, tenant: string, subjects: set<string>, right: string, c: Option<Capability>,
                            resourceUri: Option<string>, now: string)
  {
    exists row :: row in t.roles && RowApplies(row, tenant, subjects, now)
                  && ScopeMatches(t, row, tenant, c, resourceUri) && RoleHasRight(row.role, right)
  }

  predicate ShareGrant(t: Tables, tenant: string, subjects: set<string>, uri: string, right: string, now: string)
  {
    uri != "" &&
    exists s :: s in t.shares && s.tenant == tenant && s.uri == uri && s.state == "active" && !s.revoked
                && s.subjectType + ":" + s.subjectId in subjects && Live(s.expiresAt, now)
                && (right in s.rights || "manage" in s.rights)
  }

  predicate NamespaceMemberGrant(t: Tables, namespaceId: Option<string>, subjects: set<string>, right: string)
  {
    Truthy(namespaceId).Some? &&
    exists m :: m in t.members && m.namespaceId == namespaceId.value && !m.revoked
                && m.subjectType + ":" + m.subjectId in subjects
                && (right in m.rights || "manage" in m.rights || RoleHasRight(m.role, right))
  }

  function StoreRow(t: Tables, storeId: Option<string>, tenant: string): Option<Store>
  {
    if Truthy(storeId).Some? && storeId.value in t.stores && t.stores[storeId.value].tenant == tenant
    then Some(t.stores[storeId.value]) else None
  }

  predicate StoreOwnerGrant(t: Tables, c: Capability, p: Principal, right: string)
  {
    var store := StoreRow(t, c.storeId, TenantOr(c.tenantId));
    && right in {"discover", "load", "call", "delegate", "share", "submit", "manage"}
    && store.Some?
    && (|| (store.value.kind in {"user_private", "user_shared"} && store.value.ownerIdentity == Some(IdentityOf(p)))
        || (store.value.kind == "app" && Truthy(p.appId).Some? && store.value.ownerApp == p.appId))
  }

  predicate ManifestGrant(c: Capability, p: Principal, right: string)
  {
    && right in {"discover", "load", "call", "delegate"}
    && (|| p.subject in c.allowUsers
        || (exists g :: g in p.groups && g in c.allowGroups)
        || (c.requiredScopes != {} && c.requiredScopes <= p.scopes))
  }

  predicate OwnerGrant(c: Capability, p: Principal, right: string)
  {
    var owner := Or(c.createdBy, c.owner);
    && right in {"discover", "load", "call", "delegate", "share", "submit", "manage"}
    && (owner == p.subject || p.identityId == Some(owner) || owner in p.groups)
  }

  predicate AllUsersStoreGrant(t: Tables, c: Capability, p: Principal, right: string)
  {
    var store := StoreRow(t, c.storeId, TenantOr(c.tenantId));
    && right in {"discover", "load", "call"} && p.authenticated
    && TenantOr(c.tenantId) == TenantOr(p.tenantId)
    && store.Some? && store.value.kind == "all_users"
  }

  predicate StoreIsOrg(t: Tables, storeId: Option<string>, tenant: string)
  {
    var store := StoreRow(t, storeId, tenant);
    store.Some? && store.value.kind == "org"
  }

  predicate OrgMembershipGrant(t: Tables, c: Capability, p: Principal, right: string, now: string)
  {
    && right in {"discover", "load", "call"} && p.authenticated
    && StoreIsOrg(t, c.storeId, CapTenant(c, p.tenantId))
    && ActiveRoleGrant(t, CapTenant(c, p.tenantId), SubjectRefs(p), right, Some(c), None, now)
  }

  predicate DefaultVisibilityGrant(t: Tables, c: Capability, p: Principal, right: string)
  {
    && right in {"discover", "load", "call"}
    && (|| c.visibility == "public"
        || (!StoreIsOrg(t, c.storeId, CapTenant(c, p.tenantId)) && c.visibility == "internal" && p.authenticated))
  }

  // ---- blockers ----

  /** Newest identity row of the principal, if any, is inactive. */
  predicate IdentityInactive(identities: seq<Identity>, p: Principal)
  {
    if identities == [] then false
    else
      var row := identities[0];
      if row.tenant == TenantOr(p.tenantId)
         && (row.userName == p.subject || (Truthy(p.identityId).Some? && row.id == p.identityId.value)
             || (Truthy(p.email).Some? && row.email == p.email))
      then !row.active
      else IdentityInactive(identities[1..], p)
  }

  predicate IsDisabled(t: Tables, p: Principal)
  {
    p.disabled || !p.authenticated || IdentityInactive(t.identities, p)
  }

  predicate RequiresStepUp(right: string, c: Option<Capability>)
  {
    right in {"manage", "approve", "publish"} && c.Some? && c.value.riskTier in {"high", "critical"}
  }

  predicate InactiveCapability(c: Capability)
  {
    c.approvalState in {"rejected", "recalled", "demoted", "yanked"}
    || c.lifecycle in {"disabled", "deleted", "retired", "recalled", "yanked"}
  }

  predicate IntegrityBlocked(t: Tables, q: Query, c: Capability)
  {
    && q.production && Truthy(c.promotedFrom).Some?
    && (TenantOr(c.tenantId), c.uri) in t.promotions
    && q.right in {"discover", "load", "call", "delegate"}
    && (c.approvalState != "approved" || c.signature != "verified" || c.provenance != "verified" || c.riskReview != "approved")
  }

  function DenyRelations(right: string): set<string>
  {
    {"deny_" + right, "deny"}
  }

  function GrantRelations(right: string): set<string>
  {
    {right, "grant_" + right, "owner"}
  }

  function TargetUri(q: Query): string
  {
    match q.capability case Some(c) => c.uri case None => Or(q.resourceUri, "")
  }

  predicate Blocked(t: Tables, q: Query)
  {
    || IsDisabled(t, q.principal)
    || (q.capability.Some? && InactiveCapability(q.capability.value))
    || (RequiresStepUp(q.right, q.capability) && !q.principal.stepUp)
    || (q.capability.Some? && IntegrityBlocked(t, q, q.capability.value))
    || TupleMatch(t, QueryTenant(q), ResourceRefs(q.capability, q.resourceUri), DenyRelations(q.right), SubjectRefs(q.principal))
  }

  predicate Granted(t: Tables, q: Query)
  {
    var p, right, subjects, tenant := q.principal, q.right, SubjectRefs(q.principal), QueryTenant(q);
    || (exists r :: r in p.roles && GlobalRoleHasRight(r, right))
    || ActiveRoleGrant(t, tenant, subjects, right, q.capability, q.resourceUri, q.now)
    || ShareGrant(t, tenant, subjects, TargetUri(q), right, q.now)
    || TupleMatch(t, tenant, ResourceRefs(q.capability, q.resourceUri), GrantRelations(right), subjects)
    || (q.capability.Some? && CapabilityGranted(t, q, q.capability.value))
  }

  predicate CapabilityGranted(t: Tables, q: Query, c: Capability)
  {
    || NamespaceMemberGrant(t, c.namespaceId, SubjectRefs(q.principal), q.right)
    || StoreOwnerGrant(t, c, q.principal, q.right)
    || ManifestGrant(c, q.principal, q.right)
    || OwnerGrant(c, q.principal, q.right)
    || AllUsersStoreGrant(t, c, q.principal, q.right)
    || OrgMembershipGrant(t, c, q.principal, q.right, q.now)
    || DefaultVisibilityGrant(t, c, q.principal, q.right)
  }

  /** The decision: a known right, no blocker, some grant. */
  predicate Allowed(t: Tables, q: Query)
  {
    q.right in RIGHTS && !Blocked(t, q) && Granted(t, q)
  }

  // ---- monotonicity ----

  /**
   Everything in `a` that can grant is also in `b`, and everything in `b` that
   can deny is also in `a`: `b` is reached from `a` by adding shares, roles,
   memberships or non-deny tuples; `a` from `b` by revoking, removing or adding denies.
   */
  ghost predicate NoMoreGenerous(a: Tables, b: Tables, right: string)
  {
    && (forall r :: r in a.roles && !r.revoked ==> r in b.roles)
    && (forall s :: s in a.shares && s.state == "active" && !s.revoked ==> s in b.shares)
    && (forall m :: m in a.members && !m.revoked ==> m in b.members)
    && (forall r :: r in a.relations && r.relation in GrantRelations(right) ==> r in b.relations)
    && (forall r :: r in b.relations && r.relation in DenyRelations(right) ==> r in a.relations)
    && a.stores == b.stores && a.orgs == b.orgs && a.identities == b.identities && a.promotions == b.promotions
  }

  lemma LiveEarlier(expiresAt: Option<string>, earlier: string, later: string)
    requires Leq(earlier, later) && Live(expiresAt, later)
    ensures Live(expiresAt, earlier)
  {
    if Truthy(expiresAt).Some? && Leq(expiresAt.value, earlier) {
      LeqTransitive(expiresAt.value, earlier, later);
    }
  }

  lemma RoleGrantMonotone(a: Tables, b: Tables, tenant: string, subjects: set<string>, right: string, c: Option<Capability>,
                          resourceUri: Option<string>, later: string, earlier: string)
    requires NoMoreGenerous(a, b, right) && Leq(earlier, later)
    requires ActiveRoleGrant(a, tenant, subjects, right, c, resourceUri, later)
    ensures ActiveRoleGrant(b, tenant, subjects, right, c, resourceUri, earlier)
  {
    var row :| row in a.roles && RowApplies(row, tenant, subjects, later)
               && ScopeMatches(a, row, tenant, c, resourceUri) && RoleHasRight(row.role, right);
    LiveEarlier(row.expiresAt, earlier, later);
    assert row in b.roles && ScopeMatches(b, row, tenant, c, resourceUri);
  }

  lemma ShareGrantMonotone(a: Tables, b: Tables, tenant: string, subjects: set<string>, uri: string, right: string, later: string, earlier: string)
    requires NoMoreGenerous(a, b, right) && Leq(earlier, later)
    requires ShareGrant(a, tenant, subjects, uri, right, later)
    ensures ShareGrant(b, tenant, subjects, uri, right, earlier)
  {
    var s :| s in a.shares && s.tenant == tenant && s.uri == uri && s.state == "active" && !s.revoked
             && s.subjectType + ":" + s.subjectId in subjects && Live(s.expiresAt, later)
             && (right in s.rights || "manage" in s.rights);
    LiveEarlier(s.expiresAt, earlier, later);
    assert s in b.shares;
  }

  lemma CapabilityGrantMonotone(a: Tables, b: Tables, q: Query, c: Capability, earlier: string)
    requires NoMoreGenerous(a, b, q.right) && Leq(earlier, q.now)
    requires CapabilityGranted(a, q, c)
    ensures CapabilityGranted(b, q.(now := earlier), c)
  {
    if OrgMembershipGrant(a, c, q.principal, q.right, q.now) {
      RoleGrantMonotone(a, b, CapTenant(c, q.principal.tenantId), SubjectRefs(q.principal), q.right, Some(c), None, q.now, earlier);
    }
  }

  /**
   Moving to more generous tables or to an earlier time keeps every allow.
   Read one way: adding shares, roles, memberships or non-deny tuples never revokes.
   Read the other way: adding denies, revoking, or letting time pass never grants.
   */
  lemma AccessMonotone(a: Tables, b: Tables, q: Query, earlier: string)
    requires NoMoreGenerous(a, b, q.right) && Leq(earlier, q.now)
    requires Allowed(a, q)
    ensures Allowed(b, q.(now := earlier))
  {
    var q' := q.(now := earlier);
    assert !Blocked(b, q');
    if ActiveRoleGrant(a, QueryTenant(q), SubjectRefs(q.principal), q.right, q.capability, q.resourceUri, q.now) {
      RoleGrantMonotone(a, b, QueryTenant(q), SubjectRefs(q.principal), q.right, q.capability, q.resourceUri, q.now, earlier);
    } else if ShareGrant(a, QueryTenant(q), SubjectRefs(q.principal), TargetUri(q), q.right, q.now) {
      ShareGrantMonotone(a, b, QueryTenant(q), SubjectRefs(q.principal), TargetUri(q), q.right, q.now, earlier);
    } else if q.capability.Some? && CapabilityGranted(a, q, q.capability.value) {
      CapabilityGrantMonotone(a, b, q, q.capability.value, earlier);
    }
  }

  /** Governance edits, each a step of the tables. */
  datatype Edit =
    | AddShare(share: Share)
    | AddRole(row: RoleRow)
    | AddMember(member: Member)
    | AddTuple(tuple: Relation)
    | RevokeShares(shareGone: Share -> bool)
    | RevokeRoles(roleGone: RoleRow -> bool)
    | RevokeMembers(memberGone: Member -> bool)

  function MapSeq<T>(s: seq<T>, f: T -> T): (r: seq<T>)
    ensures |r| == |s| && forall i :: 0 <= i < |s| ==> r[i] == f(s[i])
  {
    seq(|s|, i requires 0 <= i < |s| => f(s[i]))
  }

  function ApplyEdit(t: Tables, e: Edit): Tables
  {
    match e
    case AddShare(s) => t.(shares := t.shares + [s])
    case AddRole(r) => t.(roles := t.roles + [r])
    case AddMember(m) => t.(members := t.members + [m])
    case AddTuple(r) => t.(relations := t.relations + [r])
    case RevokeShares(gone) => t.(shares := MapSeq(t.shares, (s: Share) => if gone(s) then s.(revoked := true) else s))
    case RevokeRoles(gone) => t.(roles := MapSeq(t.roles, (r: RoleRow) => if gone(r) then r.(revoked := true) else r))
    case RevokeMembers(gone) => t.(members := MapSeq(t.members, (m: Member) => if gone(m) then m.(revoked := true) else m))
  }

  predicate Giving(e: Edit, right: string)
  {
    e.AddShare? || e.AddRole? || e.AddMember? || (e.AddTuple? && e.tuple.relation !in DenyRelations(right))
  }

  predicate Taking(e: Edit)
  {
    e.RevokeShares? || e.RevokeRoles? || e.RevokeMembers?
    || (e.AddTuple? && e.tuple.relation in set r | r in RIGHTS :: "deny_" + r)
    || (e.AddTuple? && e.tuple.relation == "deny")
  }

  lemma DenyIsNoGrant(right: string, relation: string)
    requires right in RIGHTS && (relation == "deny" || exists r :: r in RIGHTS && relation == "deny_" + r)
    ensures relation !in GrantRelations(right)
  {
    assert relation[0] == 'd' && |relation| >= 4 && relation[1] == 'e' && relation[2] == 'n';
    assert "grant_"[0] == 'g' && ("grant_" + right)[0] == 'g';
  }

  lemma MappedFrom<T>(s: seq<T>, f: T -> T, x: T)
    requires x in MapSeq(s, f)
    ensures exists y :: y in s && x == f(y)
  {
    var i :| 0 <= i < |s| && MapSeq(s, f)[i] == x;
    assert s[i] in s && x == f(s[i]);
  }

  /** No edit that gives revokes an allow, and no edit that takes creates one, at any later time. */
  lemma EditsMonotone(t: Tables, e: Edit, q: Query, earlier: string)
    requires Leq(earlier, q.now) && q.right in RIGHTS
    ensures Giving(e, q.right) && Allowed(t, q) ==> Allowed(ApplyEdit(t, e), q.(now := earlier))
    ensures Taking(e) && Allowed(ApplyEdit(t, e), q) ==> Allowed(t, q.(now := earlier))
  {
    var t' := ApplyEdit(t, e);
    if Giving(e, q.right) && Allowed(t, q) {
      AccessMonotone(t, t', q, earlier);
    }
    if Taking(e) && Allowed(t', q) {
      TakingIsNoMoreGenerous(t, e, q.right);
      AccessMonotone(t', t, q, earlier);
    }
  }

  lemma TakingIsNoMoreGenerous(t: Tables, e: Edit, right: string)
    requires Taking(e) && right in RIGHTS
    ensures NoMoreGenerous(ApplyEdit(t, e), t, right)
  {
    var t' := ApplyEdit(t, e);
    match e
    case AddTuple(r) => DenyIsNoGrant(right, r.relation);
    case RevokeShares(gone) =>
      forall s | s in t'.shares && !s.revoked ensures s in t.shares {
        MappedFrom(t.shares, (s: Share) => if gone(s) then s.(revoked := true) else s, s);
      }
    case RevokeRoles(gone) =>
      forall r | r in t'.roles && !r.revoked ensures r in t.roles {
        MappedFrom(t.roles, (r: RoleRow) => if gone(r) then r.(revoked := true) else r, r);
      }
    case RevokeMembers(gone) =>
      forall m | m in t'.members && !m.revoked ensures m in t.members {
        MappedFrom(t.members, (m: Member) => if gone(m) then m.(revoked := true) else m, m);
      }
    case _ =>
  }

  // ---- roles carried by the principal ----

  /** The same principal with more roles or groups in its token. */
  ghost predicate Wider(p: Principal, p': Principal)
  {
    p' == p.(roles := p'.roles, groups := p'.groups) && (forall r :: r in p.roles ==> r in p'.roles) && forall g :: g in p.groups ==> g in p'.groups
  }

  lemma WiderRefs(p: Principal, p': Principal)
    requires Wider(p, p')
    ensures SubjectRefs(p) <= SubjectRefs(p')
  {
    forall s | s in SubjectRefs(p) ensures s in SubjectRefs(p') {
      assert s in (set r | r in p.roles :: "role:" + r) ==> s in (set r | r in p'.roles :: "role:" + r);
      assert s in (set g | g in p.groups :: "group:" + g) ==> s in (set g | g in p'.groups :: "group:" + g);
    }
  }

  lemma RowAppliesMore(row: RoleRow, tenant: string, subjects: set<string>, more: set<string>, now: string)
    requires RowApplies(row, tenant, subjects, now) && subjects <= more
    ensures RowApplies(row, tenant, more, now)
  {
    var s :| s in subjects && Partition(s) == (row.subjectType, row.subjectId);
    assert s in more;
  }

  lemma RoleGrantMoreSubjects(t: Tables, tenant: string, subjects: set<string>, more: set<string>, right: string,
                              c: Option<Capability>, resourceUri: Option<string>, now: string)
    requires ActiveRoleGrant(t, tenant, subjects, right, c, resourceUri, now) && subjects <= more
    ensures ActiveRoleGrant(t, tenant, more, right, c, resourceUri, now)
  {
    var row :| row in t.roles && RowApplies(row, tenant, subjects, now)
               && ScopeMatches(t, row, tenant, c, resourceUri) && RoleHasRight(row.role, right);
    RowAppliesMore(row, tenant, subjects, more, now);
  }

  lemma GrantedWider(t: Tables, q: Query, p': Principal)
    requires Granted(t, q) && Wider(q.principal, p')
    ensures Granted(t, q.(principal := p'))
  {
    var p, q' := q.principal, q.(principal := p');
    WiderRefs(p, p');
    if ActiveRoleGrant(t, QueryTenant(q), SubjectRefs(p), q.right, q.capability, q.resourceUri, q.now) {
      RoleGrantMoreSubjects(t, QueryTenant(q), SubjectRefs(p), SubjectRefs(p'), q.right, q.capability, q.resourceUri, q.now);
    } else if q.capability.Some? && OrgMembershipGrant(t, q.capability.value, p, q.right, q.now) {
      RoleGrantMoreSubjects(t, CapTenant(q.capability.value, p.tenantId), SubjectRefs(p), SubjectRefs(p'), q.right,
                            Some(q.capability.value), None, q.now);
    } else if exists r :: r in p.roles && GlobalRoleHasRight(r, q.right) {
      var r :| r in p.roles && GlobalRoleHasRight(r, q.right);
      assert r in p'.roles;
    }
  }

  lemma {:induction false} IdentityIgnoresToken(identities: seq<Identity>, p: Principal, p': Principal)
    requires Wider(p, p')
    ensures IdentityInactive(identities, p') == IdentityInactive(identities, p)
  {
    if identities != [] {
      IdentityIgnoresToken(identities[1..], p, p');
    }
  }

  /**
   Roles and groups in the principal's token are also subjects, `role:<name>`
   and `group:<name>`, so handing them out can revoke: an allow is kept exactly
   when no deny tuple on the resource names one of the new subjects.
   */
  lemma WiderTokenKeepsAccessIff(t: Tables, q: Query, p': Principal)
    requires Allowed(t, q) && Wider(q.principal, p')
    ensures Allowed(t, q.(principal := p')) <==>
      !TupleMatch(t, QueryTenant(q), ResourceRefs(q.capability, q.resourceUri), DenyRelations(q.right), SubjectRefs(p') - SubjectRefs(q.principal))
  {
    GrantedWider(t, q, p');
    WiderRefs(q.principal, p');
    IdentityIgnoresToken(t.identities, q.principal, p');
    var refs, more := ResourceRefs(q.capability, q.resourceUri), SubjectRefs(p');
    assert TupleMatch(t, QueryTenant(q), refs, DenyRelations(q.right), more) <==>
      TupleMatch(t, QueryTenant(q), refs, DenyRelations(q.right), more - SubjectRefs(q.principal));
  }

  function WithRole(q: Query, role: string): Query
  {
    q.(principal := q.principal.(roles := q.principal.roles + [role]))
  }

  function WithGroup(q: Query, group: string): Query
  {
    q.(principal := q.principal.(groups := q.principal.groups + [group]))
  }

  lemma RefsWithRole(p: Principal, role: string)
    ensures SubjectRefs(p.(roles := p.roles + [role])) == SubjectRefs(p) + {"role:" + role}
  {
    var p' := p.(roles := p.roles + [role]);
    assert forall r :: r in p'.roles <==> r in p.roles || r == role;
    assert (set r | r in p'.roles :: "role:" + r) == (set r | r in p.roles :: "role:" + r) + {"role:" + role};
  }

  lemma RefsWithGroup(p: Principal, group: string)
    ensures SubjectRefs(p.(groups := p.groups + [group])) == SubjectRefs(p) + {"group:" + group}
  {
    var p' := p.(groups := p.groups + [group]);
    assert forall g :: g in p'.groups <==> g in p.groups || g == group;
    assert (set g | g in p'.groups :: "group:" + g) == (set g | g in p.groups :: "group:" + g) + {"group:" + group};
  }

  lemma NoDenyAmongOld(t: Tables, q: Query, ref: string)
    requires Allowed(t, q)
    ensures var deny := (subjects: set<string>) =>
        TupleMatch(t, QueryTenant(q), ResourceRefs(q.capability, q.resourceUri), DenyRelations(q.right), subjects);
      deny(SubjectRefs(q.principal) + {ref} - SubjectRefs(q.principal)) <==> deny({ref})
  {
  }

  /** One role more keeps an allow exactly when no deny tuple names that role. */
  lemma TokenRoleKeepsAccessIff(t: Tables, q: Query, role: string)
    requires Allowed(t, q)
    ensures Allowed(t, WithRole(q, role)) <==>
      !TupleMatch(t, QueryTenant(q), ResourceRefs(q.capability, q.resourceUri), DenyRelations(q.right), {"role:" + role})
  {
    RefsWithRole(q.principal, role);
    WiderTokenKeepsAccessIff(t, q, WithRole(q, role).principal);
    NoDenyAmongOld(t, q, "role:" + role);
  }

  /** Likewise for a group. */
  lemma TokenGroupKeepsAccessIff(t: Tables, q: Query, group: string)
    requires Allowed(t, q)
    ensures Allowed(t, WithGroup(q, group)) <==>
      !TupleMatch(t, QueryTenant(q), ResourceRefs(q.capability, q.resourceUri), DenyRelations(q.right), {"group:" + group})
  {
    RefsWithGroup(q.principal, group);
    WiderTokenKeepsAccessIff(t, q, WithGroup(q, group).principal);
    NoDenyAmongOld(t, q, "group:" + group);
  }

  /** A concrete revocation by an added role. */
  lemma AddedRoleRevokes() returns (t: Tables, q: Query)
    ensures Allowed(t, q) && !Allowed(t, WithRole(q, "auditor"))
  {
    var p := Principal("u", "asg", None, "idn_u", None, None, [], ["platform_admin"], {}, true, false, false);
    q := Query(p, "load", None, Some("cap://x"), "2026", false);
    var ref := "role:" + "auditor";
    var deny := Relation("asg", "cap://x", "deny", ref);
    t := Tables([deny], [], [], [], map[], [], [], {});
    assert "platform_admin" in p.roles && GlobalRoleHasRight("platform_admin", "load");
    assert ref !in SubjectRefs(p) by {
      assert |ref| == 12 && |"user:" + p.subject| == 6 && |"identity:" + IdentityOf(p)| == 14;
      assert forall r :: r in p.roles ==> |"role:" + r| == 19;
    }
    assert Allowed(t, q);
    assert deny in t.relations && deny.resource in ResourceRefs(q.capability, q.resourceUri) && deny.relation in DenyRelations(q.right);
    assert TupleMatch(t, QueryTenant(q), ResourceRefs(q.capability, q.resourceUri), DenyRelations(q.right), {ref});
    TokenRoleKeepsAccessIff(t, q, "auditor");
  }

  // ---- organization isolation ----

  /** Every live assignment of the principal, in the tenants the query consults, is scoped to organization `org`. */
  ghost predicate OnlyOrg(t: Tables, q: Query, c: Capability, org: string)
  {
    forall row :: row in t.roles
      && (RowApplies(row, QueryTenant(q), SubjectRefs(q.principal), q.now)
          || RowApplies(row, CapTenant(c, q.principal.tenantId), SubjectRefs(q.principal), q.now))
      ==> row.scopeType == "org" && row.scopeId == org
  }

  /**
   A member of organization A, with no share, tuple, namespace, manifest or
   ownership grant and no global role, gets none of discover, load and call on
   an internal capability in the store of another organization B.
   */
  lemma OrgIsolation(t: Tables, q: Query, c: Capability, orgA: string, orgB: string)
    requires q.capability == Some(c) && q.right in {"discover", "load", "call"} && c.visibility == "internal"
    requires StoreIsOrg(t, c.storeId, CapTenant(c, q.principal.tenantId))
    requires c.tenantId != "" ==> OrgForStore(t.orgs, c.storeId, c.tenantId) == Some(orgB)
    requires c.tenantId == "" ==> OrgForStore(t.orgs, c.storeId, QueryTenant(q)) == Some(orgB)
    requires orgA != orgB && OnlyOrg(t, q, c, orgA)
    requires forall r :: r in q.principal.roles ==> !GlobalRoleHasRight(r, q.right)
    requires !ShareGrant(t, QueryTenant(q), SubjectRefs(q.principal), c.uri, q.right, q.now)
    requires !TupleMatch(t, QueryTenant(q), ResourceRefs(q.capability, q.resourceUri), GrantRelations(q.right), SubjectRefs(q.principal))
    requires !NamespaceMemberGrant(t, c.namespaceId, SubjectRefs(q.principal), q.right)
    requires !ManifestGrant(c, q.principal, q.right) && !OwnerGrant(c, q.principal, q.right)
    ensures !Allowed(t, q)
  {
    var subjects := SubjectRefs(q.principal);
    forall row | row in t.roles && RowApplies(row, QueryTenant(q), subjects, q.now)
      ensures !ScopeMatches(t, row, QueryTenant(q), q.capability, q.resourceUri)
    {
      assert row.scopeType == "org" && row.scopeId == orgA;
    }
    forall row | row in t.roles && RowApplies(row, CapTenant(c, q.principal.tenantId), subjects, q.now)
      ensures !ScopeMatches(t, row, CapTenant(c, q.principal.tenantId), q.capability, None)
    {
      assert row.scopeType == "org" && row.scopeId == orgA;
    }
  }
}
