/**
 `apply_default_user_namespace` (capmesh/governance.py): where a capability
 without a namespace of its own is placed.
 */
module Namespaces {
  import opened Types
  import opened Model

  /** The store, namespace and subject of the default user, and the texts minted or recorded with them. */
  datatype Defaults = Defaults(userPrefix: string -> string, storeId: string -> string, namespaceId: string -> string, subject: string,
                               mint: (string, Capability) -> string, stamp: (string, string, string) -> string)

  predicate Namespaced(uri: string)
  {
    "cap://user/" <= uri || "cap://org/" <= uri || "cap://app/" <= uri || "cap://all/" <= uri
  }

  predicate System(c: Capability)
  {
    c.sourceKind == "system_capability" || "cap://system/" <= c.uri
  }

  /** Default prefixes lie in the user space, and minted URIs under them. */
  ghost predicate Sensible(d: Defaults)
  {
    && (forall t :: "cap://user/" <= d.userPrefix(t))
    && (forall t, c :: d.userPrefix(t) <= d.mint(t, c))
  }

  function Demoted(g: Governance): Governance
  {
    g.(approvalState := if g.approvalState in {"published", "approved"} then "draft" else g.approvalState,
       lifecycle := if g.lifecycle in {"active", "published"} then "draft" else g.lifecycle)
  }

  function ApplyDefaultUserNamespace(d: Defaults, c: Capability): Capability
  {
    var tenant := TenantOr(c.tenant);
    if System(c) then c
    else if Namespaced(c.uri) then c.(tenant := tenant)
    else
      c.(uri := if d.userPrefix(tenant) + "/" <= c.uri then c.uri else d.mint(tenant, c), tenant := tenant, gov := Demoted(c.gov),
         details := c.details.(storeId := Some(d.storeId(tenant)), namespaceId := Some(d.namespaceId(tenant)), visibility := "protected",
                               discoveryMode := "hidden", owner := d.subject, createdBy := Some(d.subject)),
         metadata := c.metadata.(rest := d.stamp(c.metadata.rest, c.uri, c.details.owner)))
  }

  lemma {:induction false} PrefixTransitive(a: string, b: string, c: string)
    requires a <= b && b <= c
    ensures a <= c
  {
    forall i | 0 <= i < |a| ensures a[i] == c[i] {
      assert a[i] == b[i];
    }
  }

  /** Placing a capability twice is placing it once, so the second placement inside the upsert changes nothing. */
  lemma PlacementIdempotent(d: Defaults, c: Capability)
    requires Sensible(d)
    ensures var placed := ApplyDefaultUserNamespace(d, c);
      ApplyDefaultUserNamespace(d, placed) == placed && (!System(c) ==> Namespaced(placed.uri) && placed.tenant != "")
  {
    var tenant := TenantOr(c.tenant);
    if !System(c) && !Namespaced(c.uri) {
      PrefixTransitive("cap://user/", d.userPrefix(tenant), d.mint(tenant, c));
      if d.userPrefix(tenant) + "/" <= c.uri {
        PrefixTransitive(d.userPrefix(tenant), d.userPrefix(tenant) + "/", c.uri);
        PrefixTransitive("cap://user/", d.userPrefix(tenant), c.uri);
      }
    }
  }
}
