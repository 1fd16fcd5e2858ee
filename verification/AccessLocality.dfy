/**
 What an access decision depends on (capmesh/access_control.py): the rows that
 name this principal and this resource in this tenant, and nothing else.  The
 rows are described here by what they say, not by the cascade that reads them.
 */
module AccessLocality {
  import opened Types
  import opened Text
  import opened AccessControl

  // ---- who is meant ----

  /** `kind:id` names the principal. */
  ghost predicate IsSubject(p: Principal, kind: string, id: string)
  {
    || (kind == "user" && (id == p.subject || Truthy(p.email) == Some(id)))
    || (kind == "identity" && (Truthy(p.identityId) == Some(id) || (p.identityId in {None, Some("")} && id == p.stableId)))
    || (kind == "app" && Truthy(p.appId) == Some(id))
    || (kind == "group" && id in p.groups)
    || (kind == "role" && id in p.roles)
  }

  ghost predicate Names(p: Principal, ref: string)
  {
    exists kind, id :: IsSubject(p, kind, id) && ref == kind + ":" + id
  }

  lemma SubjectNamed(p: Principal, kind: string, id: string)
    requires IsSubject(p, kind, id)
    ensures kind + ":" + id in SubjectRefs(p)
  {
    assert "user" + ":" == "user:" && "identity" + ":" == "identity:" && "app" + ":" == "app:" && "group" + ":" == "group:" && "role" + ":" == "role:";
    if kind == "group" {
      assert "group:" + id in (set g | g in p.groups :: "group:" + g);
    } else if kind == "role" {
      assert "role:" + id in (set r | r in p.roles :: "role:" + r);
    }
  }

  lemma RefNamesSubject(p: Principal, ref: string) returns (kind: string, id: string)
    requires ref in SubjectRefs(p)
    ensures IsSubject(p, kind, id) && ref == kind + ":" + id && ':' !in kind
  {
    assert "user" + ":" == "user:" && "identity" + ":" == "identity:" && "app" + ":" == "app:" && "group" + ":" == "group:" && "role" + ":" == "role:";
    if ref == "user:" + p.subject {
      kind, id := "user", p.subject;
    } else if ref == "identity:" + IdentityOf(p) {
      kind, id := "identity", IdentityOf(p);
    } else if Truthy(p.email).Some? && ref == "user:" + p.email.value {
      kind, id := "user", p.email.value;
    } else if Truthy(p.appId).Some? && ref == "app:" + p.appId.value {
      kind, id := "app", p.appId.value;
    } else if g :| g in p.groups && ref == "group:" + g {
      kind, id := "group", g;
    } else {
      var r :| r in p.roles && ref == "role:" + r;
      kind, id := "role", r;
    }
  }

  /** The subject references of a principal are exactly the references that name it. */
  lemma RefsAreNames(p: Principal, ref: string)
    ensures ref in SubjectRefs(p) <==> Names(p, ref)
  {
    if ref in SubjectRefs(p) {
      var kind, id := RefNamesSubject(p, ref);
    }
    if Names(p, ref) {
      var kind, id :| IsSubject(p, kind, id) && ref == kind + ":" + id;
      SubjectNamed(p, kind, id);
    }
  }

  lemma {:induction false} PartitionOf(kind: string, id: string)
    requires ':' !in kind
    ensures Partition(kind + ":" + id) == (kind, id)
  {
    var ref := kind + ":" + id;
    if kind == "" {
      assert ref == ":" + id && ref[1..] == id;
    } else {
      assert ref[0] == kind[0] && kind[0] in kind;
      assert ref[1..] == kind[1..] + ":" + id;
      PartitionOf(kind[1..], id);
      assert Partition(ref).0 == [kind[0]] + kind[1..] == kind;
    }
  }

  /** A role row is assigned to the principal exactly when its subject type and id name it. */
  lemma AssignedIff(p: Principal, kind: string, id: string)
    ensures (exists s :: s in SubjectRefs(p) && Partition(s) == (kind, id)) <==> IsSubject(p, kind, id)
  {
    if s :| s in SubjectRefs(p) && Partition(s) == (kind, id) {
      var k, i := RefNamesSubject(p, s);
      PartitionOf(k, i);
    }
    if IsSubject(p, kind, id) {
      SubjectNamed(p, kind, id);
      PartitionOf(kind, id);
    }
  }

  // ---- what is meant ----

  /** The resource texts under which a tuple can name what is asked for. */
  ghost predicate IsResource(q: Query, ref: string)
  {
    match q.capability
    case None => Truthy(q.resourceUri) == Some(ref)
    case Some(c) =>
      || ref == c.uri
      || (Truthy(c.namespaceId).Some? && ref == "namespace:" + c.namespaceId.value)
      || (Truthy(c.storeId).Some? && ref == "store:" + c.storeId.value)
      || ref == "tenant:" + TenantOr(c.tenantId)
  }

  lemma ResourcesExact(q: Query, ref: string)
    ensures ref in ResourceRefs(q.capability, q.resourceUri) <==> IsResource(q, ref)
  {
  }

  // ---- the rows that concern a query ----

  ghost predicate TupleConcerns(r: Relation, q: Query)
  {
    r.tenant == QueryTenant(q) && IsResource(q, r.resource) && Names(q.principal, r.user)
  }

  /** Without an expiry, or before it. */
  ghost predicate Unexpired(expiresAt: Option<string>, now: string)
  {
    expiresAt in {None, Some("")} || Less(now, expiresAt.value)
  }

  lemma LiveIff(expiresAt: Option<string>, now: string)
    ensures Live(expiresAt, now) <==> Unexpired(expiresAt, now)
  {
    if expiresAt.Some? {
      LeqTotal(now, expiresAt.value);
      if Leq(now, expiresAt.value) && Leq(expiresAt.value, now) {
        LeqAntisymmetric(now, expiresAt.value);
      }
      LeqReflexive(now);
    }
  }

  /** A live share of this very URI to this principal. */
  ghost predicate ShareConcerns(s: Share, q: Query)
  {
    && s.tenant == QueryTenant(q) && s.uri != ""
    && (match q.capability case Some(c) => s.uri == c.uri case None => q.resourceUri == Some(s.uri))
    && Names(q.principal, s.subjectType + ":" + s.subjectId) && s.state == "active" && !s.revoked && Unexpired(s.expiresAt, q.now)
  }

  /** A membership of this principal in the capability's own namespace. */
  ghost predicate MemberConcerns(m: Member, q: Query)
  {
    && q.capability.Some? && Truthy(q.capability.value.namespaceId) == Some(m.namespaceId)
    && Names(q.principal, m.subjectType + ":" + m.subjectId) && !m.revoked
  }

  /** `id` is the organization of the store: the first row for it in the tenant. */
  ghost predicate OrgIs(orgs: seq<Org>, tenant: string, storeId: string, id: string)
  {
    exists i :: 0 <= i < |orgs| && orgs[i] == Org(id, tenant, Some(storeId)) && forall j :: 0 <= j < i ==> orgs[j].tenant != tenant || orgs[j].storeId != Some(storeId)
  }

  lemma {:induction false} OrgIff(orgs: seq<Org>, tenant: string, storeId: string, id: string)
    ensures OrgOf(orgs, tenant, storeId) == Some(id) <==> OrgIs(orgs, tenant, storeId, id)
  {
    if orgs != [] {
      var rest := orgs[1..];
      OrgIff(rest, tenant, storeId, id);
      if OrgIs(rest, tenant, storeId, id) && (orgs[0].tenant != tenant || orgs[0].storeId != Some(storeId)) {
        var i :| 0 <= i < |rest| && rest[i] == Org(id, tenant, Some(storeId)) && forall j :: 0 <= j < i ==> rest[j].tenant != tenant || rest[j].storeId != Some(storeId);
        assert orgs[i + 1] == rest[i];
        assert forall j :: 0 < j < i + 1 ==> orgs[j] == rest[j - 1];
      }
      if i :| 0 <= i < |orgs| && orgs[i] == Org(id, tenant, Some(storeId)) && forall j :: 0 <= j < i ==> orgs[j].tenant != tenant || orgs[j].storeId != Some(storeId) {
        if i > 0 {
          assert rest[i - 1] == orgs[i];
          assert forall j :: 0 <= j < i - 1 ==> rest[j] == orgs[j + 1];
        }
      }
    }
  }

  /** The scope of a role row covers the capability, or the bare resource, asked for in `tenant`; organizations are looked up in `orgs`. */
  ghost predicate Covers(row: RoleRow, orgs: seq<Org>, tenant: string, c: Option<Capability>, resourceUri: Option<string>)
  {
    || (row.scopeType == "tenant" && row.scopeId in {tenant, "*"})
    || (row.scopeType != "tenant" && c.None? && resourceUri in {Some(row.scopeType + ":" + row.scopeId), Some(row.scopeId)})
    || (row.scopeType == "store" && c.Some? && c.value.storeId == Some(row.scopeId))
    || (row.scopeType == "namespace" && c.Some? && c.value.namespaceId == Some(row.scopeId))
    || (row.scopeType in {"capability", "resource", "object"} && c.Some? && (row.scopeId == c.value.uri || resourceUri == Some(row.scopeId)))
    || (row.scopeType == "org" && c.Some? && Truthy(c.value.storeId).Some?
        && OrgIs(orgs, if c.value.tenantId != "" then c.value.tenantId else tenant, c.value.storeId.value, row.scopeId))
  }

  /** A live assignment of the principal in `tenant` whose scope covers what is asked for. */
  ghost predicate RoleConcerns(row: RoleRow, orgs: seq<Org>, q: Query, tenant: string, resourceUri: Option<string>)
  {
    && row.tenant == tenant && !row.revoked && Unexpired(row.expiresAt, q.now) && IsSubject(q.principal, row.subjectType, row.subjectId)
    && Covers(row, orgs, tenant, q.capability, resourceUri)
  }

  // ---- each grant, by its rows ----

  lemma ShareGrantIff(t: Tables, q: Query)
    ensures ShareGrant(t, QueryTenant(q), SubjectRefs(q.principal), TargetUri(q), q.right, q.now) <==>
      exists s :: s in t.shares && ShareConcerns(s, q) && (q.right in s.rights || "manage" in s.rights)
  {
    forall s: Share
      ensures s.subjectType + ":" + s.subjectId in SubjectRefs(q.principal) <==> Names(q.principal, s.subjectType + ":" + s.subjectId)
      ensures Live(s.expiresAt, q.now) <==> Unexpired(s.expiresAt, q.now)
    {
      LiveIff(s.expiresAt, q.now);
      RefsAreNames(q.principal, s.subjectType + ":" + s.subjectId);
    }
  }

  lemma MemberGrantIff(t: Tables, q: Query, c: Capability)
    requires q.capability == Some(c)
    ensures NamespaceMemberGrant(t, c.namespaceId, SubjectRefs(q.principal), q.right) <==>
      exists m :: m in t.members && MemberConcerns(m, q) && (q.right in m.rights || "manage" in m.rights || RoleHasRight(m.role, q.right))
  {
    forall m: Member ensures m.subjectType + ":" + m.subjectId in SubjectRefs(q.principal) <==> Names(q.principal, m.subjectType + ":" + m.subjectId) {
      RefsAreNames(q.principal, m.subjectType + ":" + m.subjectId);
    }
  }

  lemma ScopeIff(t: Tables, row: RoleRow, tenant: string, c: Option<Capability>, resourceUri: Option<string>)
    ensures ScopeMatches(t, row, tenant, c, resourceUri) <==> Covers(row, t.orgs, tenant, c, resourceUri)
  {
    if row.scopeType == "org" {
      match c
      case None => assert "org" + ":" == "org:";
      case Some(cap) =>
        if Truthy(cap.storeId).Some? {
          OrgIff(t.orgs, if cap.tenantId != "" then cap.tenantId else tenant, cap.storeId.value, row.scopeId);
        }
    }
  }

  lemma RoleGrantIff(t: Tables, q: Query, tenant: string, resourceUri: Option<string>)
    ensures ActiveRoleGrant(t, tenant, SubjectRefs(q.principal), q.right, q.capability, resourceUri, q.now) <==>
      exists row :: row in t.roles && RoleConcerns(row, t.orgs, q, tenant, resourceUri) && RoleHasRight(row.role, q.right)
  {
    forall row: RoleRow
      ensures RowApplies(row, tenant, SubjectRefs(q.principal), q.now) && ScopeMatches(t, row, tenant, q.capability, resourceUri) <==>
        RoleConcerns(row, t.orgs, q, tenant, resourceUri)
    {
      LiveIff(row.expiresAt, q.now);
      AssignedIff(q.principal, row.subjectType, row.subjectId);
      ScopeIff(t, row, tenant, q.capability, resourceUri);
    }
  }

  lemma TupleMatchIff(t: Tables, q: Query, relations: set<string>)
    ensures TupleMatch(t, QueryTenant(q), ResourceRefs(q.capability, q.resourceUri), relations, SubjectRefs(q.principal)) <==>
      exists r :: r in t.relations && TupleConcerns(r, q) && r.relation in relations
  {
    forall r: Relation
      ensures r.user in SubjectRefs(q.principal) <==> Names(q.principal, r.user)
      ensures r.resource in ResourceRefs(q.capability, q.resourceUri) <==> IsResource(q, r.resource)
    {
      RefsAreNames(q.principal, r.user);
      ResourcesExact(q, r.resource);
    }
  }

  // ---- locality ----

  /** Two states of the tables that agree on every row concerning the query, on the capability's own store, and on what identifies the principal. */
  ghost predicate AgreeFor(a: Tables, b: Tables, q: Query)
  {
    && (forall r :: TupleConcerns(r, q) ==> (r in a.relations <==> r in b.relations))
    && (forall s :: ShareConcerns(s, q) ==> (s in a.shares <==> s in b.shares))
    && (forall m :: MemberConcerns(m, q) ==> (m in a.members <==> m in b.members))
    && a.orgs == b.orgs && a.identities == b.identities
    && (q.capability.Some? ==> SameHome(a, b, q.capability.value))
    && (forall row :: RoleConcerns(row, a.orgs, q, QueryTenant(q), q.resourceUri) ==> (row in a.roles <==> row in b.roles))
    && (q.capability.Some? ==> forall row :: RoleConcerns(row, a.orgs, q, CapTenant(q.capability.value, q.principal.tenantId), None) ==>
          (row in a.roles <==> row in b.roles))
  }

  /** The capability's own store and its own promotion record are the same. */
  ghost predicate SameHome(a: Tables, b: Tables, c: Capability)
  {
    && (forall s :: c.storeId == Some(s) ==> (s in a.stores <==> s in b.stores) && (s in a.stores ==> a.stores[s] == b.stores[s]))
    && ((TenantOr(c.tenantId), c.uri) in a.promotions <==> (TenantOr(c.tenantId), c.uri) in b.promotions)
  }

  lemma LocalTuples(a: Tables, b: Tables, q: Query, relations: set<string>)
    requires AgreeFor(a, b, q)
    ensures TupleMatch(a, QueryTenant(q), ResourceRefs(q.capability, q.resourceUri), relations, SubjectRefs(q.principal)) <==>
      TupleMatch(b, QueryTenant(q), ResourceRefs(q.capability, q.resourceUri), relations, SubjectRefs(q.principal))
  {
    TupleMatchIff(a, q, relations);
    TupleMatchIff(b, q, relations);
  }

  lemma LocalShares(a: Tables, b: Tables, q: Query)
    requires AgreeFor(a, b, q)
    ensures ShareGrant(a, QueryTenant(q), SubjectRefs(q.principal), TargetUri(q), q.right, q.now) <==>
      ShareGrant(b, QueryTenant(q), SubjectRefs(q.principal), TargetUri(q), q.right, q.now)
  {
    ShareGrantIff(a, q);
    ShareGrantIff(b, q);
  }

  lemma LocalRoles(a: Tables, b: Tables, q: Query, tenant: string, resourceUri: Option<string>)
    requires a.orgs == b.orgs && forall row :: RoleConcerns(row, a.orgs, q, tenant, resourceUri) ==> (row in a.roles <==> row in b.roles)
    ensures ActiveRoleGrant(a, tenant, SubjectRefs(q.principal), q.right, q.capability, resourceUri, q.now) <==>
      ActiveRoleGrant(b, tenant, SubjectRefs(q.principal), q.right, q.capability, resourceUri, q.now)
  {
    RoleGrantIff(a, q, tenant, resourceUri);
    RoleGrantIff(b, q, tenant, resourceUri);
  }

  lemma LocalCapabilityGrants(a: Tables, b: Tables, q: Query, c: Capability)
    requires AgreeFor(a, b, q) && q.capability == Some(c)
    ensures CapabilityGranted(a, q, c) <==> CapabilityGranted(b, q, c)
  {
    forall tenant ensures StoreRow(a, c.storeId, tenant) == StoreRow(b, c.storeId, tenant) {
    }
    MemberGrantIff(a, q, c);
    MemberGrantIff(b, q, c);
    LocalRoles(a, b, q, CapTenant(c, q.principal.tenantId), None);
  }

  /**
   Rows that name another principal, resource, namespace or tenant, or that are
   revoked or expired, can be added or removed without changing any decision.
   */
  lemma LocalDecision(a: Tables, b: Tables, q: Query)
    requires AgreeFor(a, b, q)
    ensures Allowed(a, q) <==> Allowed(b, q)
  {
    LocalTuples(a, b, q, DenyRelations(q.right));
    LocalTuples(a, b, q, GrantRelations(q.right));
    LocalShares(a, b, q);
    LocalRoles(a, b, q, QueryTenant(q), q.resourceUri);
    if q.capability.Some? {
      LocalCapabilityGrants(a, b, q, q.capability.value);
    }
    assert Blocked(a, q) <==> Blocked(b, q);
    assert Granted(a, q) <==> Granted(b, q);
  }

  // ---- closed by default ----

  /** No row grants `right` to the principal on what is asked for. */
  ghost predicate NoRowGrants(t: Tables, q: Query)
  {
    && (forall r :: r in t.relations && TupleConcerns(r, q) ==> r.relation !in {q.right, "grant_" + q.right, "owner"})
    && (forall s :: s in t.shares && ShareConcerns(s, q) ==> q.right !in s.rights && "manage" !in s.rights)
    && (forall m :: m in t.members && MemberConcerns(m, q) ==> q.right !in m.rights && "manage" !in m.rights && !RoleHasRight(m.role, q.right))
    && (forall row :: row in t.roles && RoleHasRight(row.role, q.right) ==>
          && !RoleConcerns(row, t.orgs, q, QueryTenant(q), q.resourceUri)
          && (q.capability.Some? ==> !RoleConcerns(row, t.orgs, q, CapTenant(q.capability.value, q.principal.tenantId), None)))
  }

  /** A store opens its contents to its owner, whether a person or an application, or to everybody. */
  ghost predicate OpensTo(store: Store, p: Principal)
  {
    || store.kind == "all_users"
    || (store.kind in {"user_private", "user_shared"} && store.ownerIdentity == Some(IdentityOf(p)))
    || (store.kind == "app" && Truthy(p.appId).Some? && store.ownerApp == p.appId)
  }

  /** The capability itself grants the principal nothing: not by its manifest, its owner, or the kind of store it is in. */
  ghost predicate ClosedTo(t: Tables, c: Capability, p: Principal)
  {
    && p.subject !in c.allowUsers && (forall g :: g in p.groups ==> g !in c.allowGroups) && (c.requiredScopes == {} || !(c.requiredScopes <= p.scopes))
    && !OwnedBy(c, p)
    && (forall s :: c.storeId == Some(s) && s in t.stores ==> !OpensTo(t.stores[s], p))
  }

  /** Without a grant, a capability that is neither public nor internal is denied. */
  lemma ClosedByDefault(t: Tables, q: Query, c: Capability)
    requires q.capability == Some(c) && c.visibility !in {"public", "internal"}
    requires NoRowGrants(t, q) && ClosedTo(t, c, q.principal) && forall r :: r in q.principal.roles ==> r !in {"platform_admin", "org_admin", "auditor"}
    ensures !Allowed(t, q)
  {
    ShareGrantIff(t, q);
    TupleMatchIff(t, q, GrantRelations(q.right));
    RoleGrantIff(t, q, QueryTenant(q), q.resourceUri);
    NoCapabilityGrant(t, q, c);
  }

  lemma NoCapabilityGrant(t: Tables, q: Query, c: Capability)
    requires q.capability == Some(c) && c.visibility !in {"public", "internal"} && NoRowGrants(t, q) && ClosedTo(t, c, q.principal)
    ensures !CapabilityGranted(t, q, c)
  {
    OwnerIff(c, q.principal, q.right);
    MemberGrantIff(t, q, c);
    RoleGrantIff(t, q, CapTenant(c, q.principal.tenantId), None);
  }

  /** The rows that can matter to a principal with a tenant are rows of that tenant; a query without one falls back on the capability's. */
  lemma OwnTenantOnly(q: Query, r: Relation, s: Share)
    ensures TupleConcerns(r, q) && q.principal.tenantId != "" ==> r.tenant == q.principal.tenantId
    ensures ShareConcerns(s, q) && q.principal.tenantId != "" ==> s.tenant == q.principal.tenantId
    ensures TupleConcerns(r, q) && q.principal.tenantId == "" ==> q.capability.None? || r.tenant == TenantOr(q.capability.value.tenantId)
  {
  }

  // ---- what always denies ----

  /** An inactive capability is denied whatever the grants. */
  lemma InactiveDenied(t: Tables, q: Query, c: Capability)
    requires q.capability == Some(c)
    requires Withdrawn(c)
    ensures !Allowed(t, q)
  {
  }

  /** So is a principal that is disabled or not authenticated, and a dangerous right on a high-risk capability without step-up. */
  lemma UnfitPrincipalDenied(t: Tables, q: Query)
    requires || q.principal.disabled || !q.principal.authenticated
             || (q.right in {"manage", "approve", "publish"} && !q.principal.stepUp && q.capability.Some? && q.capability.value.riskTier in {"high", "critical"})
    ensures !Allowed(t, q)
  {
  }

  /** The row of the principal in the identity table, newest first. */
  ghost predicate Identifies(row: Identity, p: Principal)
  {
    && row.tenant == TenantOr(p.tenantId)
    && (row.userName == p.subject || Truthy(p.identityId) == Some(row.id) || (Truthy(p.email).Some? && row.email == p.email))
  }

  /** The newest of them says it is switched off. */
  ghost predicate SwitchedOff(identities: seq<Identity>, p: Principal)
  {
    exists i :: 0 <= i < |identities| && Identifies(identities[i], p) && !identities[i].active && forall j :: 0 <= j < i ==> !Identifies(identities[j], p)
  }

  lemma {:induction false} InactiveIff(identities: seq<Identity>, p: Principal)
    ensures IdentityInactive(identities, p) <==> SwitchedOff(identities, p)
  {
    if identities != [] {
      var rest := identities[1..];
      InactiveIff(rest, p);
      if !Identifies(identities[0], p) && SwitchedOff(rest, p) {
        var i :| 0 <= i < |rest| && Identifies(rest[i], p) && !rest[i].active && forall j :: 0 <= j < i ==> !Identifies(rest[j], p);
        assert identities[i + 1] == rest[i];
        assert forall j :: 0 < j < i + 1 ==> identities[j] == rest[j - 1];
      }
      if i :| 0 <= i < |identities| && Identifies(identities[i], p) && !identities[i].active && forall j :: 0 <= j < i ==> !Identifies(identities[j], p) {
        if i > 0 {
          assert rest[i - 1] == identities[i];
          assert forall j :: 0 <= j < i - 1 ==> rest[j] == identities[j + 1];
        }
      }
    }
  }

  /** A production promotion that is not approved and verified in every respect. */
  ghost predicate UnverifiedPromotion(t: Tables, q: Query, c: Capability)
  {
    && q.production && Truthy(c.promotedFrom).Some? && (TenantOr(c.tenantId), c.uri) in t.promotions
    && q.right in {"discover", "load", "call", "delegate"}
    && !(c.approvalState == "approved" && c.signature == "verified" && c.provenance == "verified" && c.riskReview == "approved")
  }

  ghost predicate Withdrawn(c: Capability)
  {
    c.approvalState in {"rejected", "recalled", "demoted", "yanked"} || c.lifecycle in {"disabled", "deleted", "retired", "recalled", "yanked"}
  }

  /** Everything that overrides the grants. */
  lemma BlockedIff(t: Tables, q: Query)
    ensures Blocked(t, q) <==>
      || q.principal.disabled || !q.principal.authenticated || SwitchedOff(t.identities, q.principal)
      || (exists r :: r in t.relations && TupleConcerns(r, q) && r.relation in {"deny", "deny_" + q.right})
      || (q.capability.Some? && Withdrawn(q.capability.value))
      || (q.capability.Some? && UnverifiedPromotion(t, q, q.capability.value))
      || (q.capability.Some? && q.capability.value.riskTier in {"high", "critical"} && q.right in {"manage", "approve", "publish"} && !q.principal.stepUp)
  {
    InactiveIff(t.identities, q.principal);
    TupleMatchIff(t, q, DenyRelations(q.right));
  }

  /** One deny tuple on the capability, its namespace, store or tenant, for any name of the principal, is enough. */
  lemma DenyTupleDenies(t: Tables, q: Query, r: Relation)
    requires r in t.relations && TupleConcerns(r, q) && r.relation in {"deny", "deny_" + q.right}
    ensures !Allowed(t, q)
  {
    TupleMatchIff(t, q, DenyRelations(q.right));
  }

  // ---- what allows, unless something denies ----

  lemma ShareAllows(t: Tables, q: Query, s: Share)
    requires q.right in RIGHTS && !Blocked(t, q) && s in t.shares && ShareConcerns(s, q) && (q.right in s.rights || "manage" in s.rights)
    ensures Allowed(t, q)
  {
    ShareGrantIff(t, q);
  }

  lemma RoleAllows(t: Tables, q: Query, row: RoleRow)
    requires q.right in RIGHTS && !Blocked(t, q) && row in t.roles && RoleHasRight(row.role, q.right)
    requires RoleConcerns(row, t.orgs, q, QueryTenant(q), q.resourceUri)
    ensures Allowed(t, q)
  {
    RoleGrantIff(t, q, QueryTenant(q), q.resourceUri);
  }

  lemma TupleAllows(t: Tables, q: Query, r: Relation)
    requires q.right in RIGHTS && !Blocked(t, q) && r in t.relations && TupleConcerns(r, q) && r.relation in {q.right, "grant_" + q.right, "owner"}
    ensures Allowed(t, q)
  {
    TupleMatchIff(t, q, GrantRelations(q.right));
  }

  lemma MemberAllows(t: Tables, q: Query, m: Member)
    requires q.right in RIGHTS && !Blocked(t, q) && m in t.members && MemberConcerns(m, q)
    requires q.right in m.rights || "manage" in m.rights || RoleHasRight(m.role, q.right)
    ensures Allowed(t, q)
  {
    MemberGrantIff(t, q, q.capability.value);
  }

  /** The roles a token carries count everywhere only for administrators, and for auditors to look. */
  lemma GlobalRoleAllows(t: Tables, q: Query, role: string)
    requires q.right in RIGHTS && !Blocked(t, q) && role in q.principal.roles
    requires role in {"platform_admin", "org_admin"} || (role == "auditor" && q.right in {"discover", "load", "audit"})
    ensures Allowed(t, q)
  {
    assert GlobalRoleHasRight(role, q.right);
  }

  /** The owner of a store may use, share, submit and manage what is in it; a store for everybody lets every principal of its tenant use it. */
  lemma StoreAllows(t: Tables, q: Query, c: Capability, storeId: string)
    requires q.capability == Some(c) && c.storeId == Some(storeId) && storeId != "" && storeId in t.stores && t.stores[storeId].tenant == TenantOr(c.tenantId)
    requires OpensTo(t.stores[storeId], q.principal) && !Blocked(t, q)
    requires if t.stores[storeId].kind == "all_users" then q.right in {"discover", "load", "call"} && TenantOr(q.principal.tenantId) == TenantOr(c.tenantId)
             else q.right in {"discover", "load", "call", "delegate", "share", "submit", "manage"}
    ensures Allowed(t, q)
  {
    assert StoreRow(t, c.storeId, TenantOr(c.tenantId)) == Some(t.stores[storeId]);
    assert CapabilityGranted(t, q, c);
  }

  /** To use a capability it is enough that it is public, or internal and outside an organization's store. */
  lemma VisibleAllows(t: Tables, q: Query, c: Capability)
    requires q.capability == Some(c) && q.right in {"discover", "load", "call"} && !Blocked(t, q)
    requires c.visibility == "public" || InternalOutsideOrg(t, q, c)
    ensures Allowed(t, q)
  {
    assert CapabilityGranted(t, q, c);
  }

  /** To use or delegate it, that its manifest names the principal or one of its groups, or asks for scopes it has. */
  lemma ManifestAllows(t: Tables, q: Query, c: Capability)
    requires q.capability == Some(c) && q.right in {"discover", "load", "call", "delegate"} && !Blocked(t, q)
    requires || q.principal.subject in c.allowUsers || (exists g :: g in q.principal.groups && g in c.allowGroups)
             || (c.requiredScopes != {} && c.requiredScopes <= q.principal.scopes)
    ensures Allowed(t, q)
  {
    assert CapabilityGranted(t, q, c);
  }

  /** The creator, or the owner when no creator is recorded. */
  ghost predicate IsOwner(c: Capability, owner: string)
  {
    (c.createdBy == Some(owner) && owner != "") || (c.createdBy in {None, Some("")} && owner == c.owner)
  }

  ghost predicate OwnedBy(c: Capability, p: Principal)
  {
    exists owner :: IsOwner(c, owner) && (owner == p.subject || p.identityId == Some(owner) || owner in p.groups)
  }

  lemma OwnerIff(c: Capability, p: Principal, right: string)
    ensures OwnerGrant(c, p, right) <==> right in {"discover", "load", "call", "delegate", "share", "submit", "manage"} && OwnedBy(c, p)
  {
    assert IsOwner(c, Or(c.createdBy, c.owner));
  }

  /** Its creator, or its owner when no creator is known, may do all but publish, approve and audit. */
  lemma OwnerAllows(t: Tables, q: Query, c: Capability)
    requires q.capability == Some(c) && q.right in RIGHTS - {"publish", "approve", "audit"} && !Blocked(t, q) && OwnedBy(c, q.principal)
    ensures Allowed(t, q)
  {
    OwnerIff(c, q.principal, q.right);
    assert CapabilityGranted(t, q, c);
  }

  /** Being visible, or being named in the manifest, is good for use only: any other right needs a row, an owner or an administrator. */
  lemma UseGrantsOnlyUse(t: Tables, q: Query, c: Capability)
    requires q.capability == Some(c) && q.right !in {"discover", "load", "call", "delegate"} && NoRowGrants(t, q)
    requires !OwnedBy(c, q.principal) && (forall s :: c.storeId == Some(s) && s in t.stores ==> !OpensTo(t.stores[s], q.principal))
    requires forall r :: r in q.principal.roles ==> r !in {"platform_admin", "org_admin", "auditor"}
    ensures !Allowed(t, q)
  {
    ShareGrantIff(t, q);
    TupleMatchIff(t, q, GrantRelations(q.right));
    RoleGrantIff(t, q, QueryTenant(q), q.resourceUri);
    MemberGrantIff(t, q, c);
    OwnerIff(c, q.principal, q.right);
  }

  ghost predicate InternalOutsideOrg(t: Tables, q: Query, c: Capability)
  {
    c.visibility == "internal" && q.principal.authenticated && forall s :: c.storeId == Some(s) && s in t.stores ==> t.stores[s].kind != "org"
  }

  /** What each role is good for. */
  lemma RoleMatrix(right: string)
    requires right in RIGHTS
    ensures RoleHasRight("member", right) <==> right in {"discover", "load", "call"}
    ensures RoleHasRight("auditor", right) <==> right in {"discover", "load", "audit"}
    ensures RoleHasRight("app_service", right) <==> right in {"discover", "load", "call", "delegate"}
    ensures RoleHasRight("publisher", right) <==> right in {"discover", "load", "call", "submit", "publish"}
    ensures RoleHasRight("vibe_coder", right) <==> right in {"discover", "load", "call", "delegate", "share", "submit"}
    ensures RoleHasRight("namespace_admin", right) && RoleHasRight("org_admin", right) && RoleHasRight("platform_admin", right)
    ensures forall role :: right in {"manage", "approve"} && RoleHasRight(role, right) ==> role in {"namespace_admin", "org_admin", "platform_admin"}
  {
  }
}
