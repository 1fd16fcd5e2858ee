/**
 What a decision on a promotion request comes to (capmesh/promotions.py), in
 terms of the rows a reader would look up afterwards, and when two capabilities
 compete for one promoted address.
 */
module PromotionOutcome {
  import opened Types
  import opened Promotion

  // ---- decisions ----

  /** The words a negative decision leaves behind. */
  ghost predicate Says(d: Decision, state: string)
  {
    match d
    case Approve => state == "approved"
    case Reject => state == "rejected"
    case Recall => state == "recalled"
    case Demote => state == "demoted"
    case Yank => state == "yanked"
  }

  /** The steps of `request` that were waiting now say `d`; all other steps are as they were. */
  ghost predicate StepsSettled(before: seq<Step>, after: seq<Step>, request: string, d: Decision)
  {
    && |after| == |before|
    && forall i :: 0 <= i < |before| ==>
         after[i].request == before[i].request &&
         if before[i].request == request && before[i].state == "pending" then Says(d, after[i].state) else after[i].state == before[i].state
  }

  /**
   A reject, recall, demote or yank needs no gates and always goes through for a
   request of the tenant: the capability is left unapproved with the decision's
   state, at its address, with its grants, sources and index entry; no other row
   changes.
   */
  lemma DismissalUnapproves(t: Tables, tenant: string, id: string, d: Decision, gates: Gates, production: bool)
    requires id in t.requests && t.requests[id].tenant == tenant && d != Approve
    ensures Decide(t, tenant, id, d, gates, production).Ok?
    ensures var r, t' := t.requests[id], Decide(t, tenant, id, d, gates, production).value;
      && t'.caps.Keys == t.caps.Keys && t'.requests.Keys == t.requests.Keys
      && (r.uri in t.caps ==> Says(d, t'.caps[r.uri].approvalState) && t'.caps[r.uri].approvalState != "approved"
                              && t'.caps[r.uri] == t.caps[r.uri].(approvalState := t'.caps[r.uri].approvalState))
      && (forall u :: u in t.caps && u != r.uri ==> t'.caps[u] == t.caps[u])
      && Says(d, t'.requests[id].state) && t'.requests[id] == r.(state := t'.requests[id].state)
      && (forall x :: x in t.requests && x != id ==> t'.requests[x] == t.requests[x])
      && StepsSettled(t.steps, t'.steps, id, d)
      && t'.sources == t.sources && t'.fts == t.fts && t'.shares == t.shares && t'.relations == t.relations && t'.namespaces == t.namespaces
  {
  }

  /** What approval makes of a capability row: it is published unless it was withdrawn, placed in the target, and remembers its first address; checks never done become pending, and nothing else changes. */
  ghost predicate ApprovedInto(c: CapRow, r: CapRow, from: string, store: Option<string>, namespaceId: string)
  {
    && r.approvalState == "approved" && r.storeId == store && r.namespaceId == Some(namespaceId)
    && (c.lifecycle == "draft" ==> r.lifecycle == "published") && (c.lifecycle != "draft" ==> r.lifecycle == c.lifecycle)
    && (c.promotedFrom.None? ==> r.promotedFrom == Some(from)) && (c.promotedFrom.Some? ==> r.promotedFrom == c.promotedFrom)
    && (c.signature == "unchecked" ==> r.signature == "pending") && (c.signature != "unchecked" ==> r.signature == c.signature)
    && (c.provenance == "unchecked" ==> r.provenance == "pending") && (c.provenance != "unchecked" ==> r.provenance == c.provenance)
    && (c.riskReview == "pending" ==> r.riskReview == "approved") && (c.riskReview != "pending" ==> r.riskReview == c.riskReview)
    && r.id == c.id && r.capType == c.capType && r.pluginSlug == c.pluginSlug && r.nameSlug == c.nameSlug && r.version == c.version
  }

  /** An approval that goes through into an existing namespace. */
  lemma ApprovalPlaces(t: Tables, tenant: string, id: string, gates: Gates, production: bool)
    requires Decide(t, tenant, id, Approve, gates, production).Ok?
    requires t.requests[id].uri in t.caps && t.requests[id].targetNamespace in t.namespaces
    ensures var r, t' := t.requests[id], Decide(t, tenant, id, Approve, gates, production).value;
      var c, ns := t.caps[r.uri], t.namespaces[r.targetNamespace];
      && !gates.refused && Mint(ns, c) in t'.caps
      && ApprovedInto(c, t'.caps[Mint(ns, c)], r.uri, Some(ns.storeId), r.targetNamespace)
      && (forall u :: u in t.caps && u != r.uri ==> u in t'.caps && t'.caps[u] == t.caps[u])
      && id in t'.requests && t'.requests[id] == Request(tenant, Mint(ns, c), r.targetNamespace, "approved", gates.final)
      && StepsSettled(t.steps, t'.steps, id, Approve)
  {
    ApprovalConserves(t, id, t.requests[id], gates.final);
  }

  /** A tuple on the capability that already exists at its new address. */
  ghost predicate TupleThere(t: Tables, tenant: string, from: string, to: string)
  {
    exists relation, user :: Relation(tenant, from, relation, user) in t.relations && Relation(tenant, to, relation, user) in t.relations
  }

  lemma TupleThereIff(t: Tables, tenant: string, from: string, to: string)
    ensures TupleWouldClash(t, tenant, from, to) <==> TupleThere(t, tenant, from, to)
  {
    if x :| x in t.relations && x.tenant == tenant && x.resource == from && x.(resource := to) in t.relations {
      assert Relation(tenant, from, x.relation, x.user) == x && Relation(tenant, to, x.relation, x.user) == x.(resource := to);
    }
    if relation, user :| Relation(tenant, from, relation, user) in t.relations && Relation(tenant, to, relation, user) in t.relations {
      var x := Relation(tenant, from, relation, user);
      assert x.(resource := to) == Relation(tenant, to, relation, user);
    }
  }

  /** An approval of a request of the tenant is refused exactly when its gates refuse, its target is missing in production, or its new address is taken by a row or a tuple. */
  lemma ApprovalRefusedIff(t: Tables, tenant: string, id: string, gates: Gates, production: bool)
    requires id in t.requests && t.requests[id].tenant == tenant
    ensures var r := t.requests[id];
      var complete := r.targetNamespace in t.namespaces && r.uri in t.caps;
      Decide(t, tenant, id, Approve, gates, production).Err? <==>
        || gates.refused || (production && !complete)
        || (complete && var to := Mint(t.namespaces[r.targetNamespace], t.caps[r.uri]);
                        to != r.uri && (to in t.caps || TupleThere(t, tenant, r.uri, to)))
  {
    var r := t.requests[id];
    TupleThereIff(t, tenant, r.uri, PromotedUri(t, r));
  }

  // ---- addresses ----

  lemma {:induction false} Stripped(s: string)
    ensures StripSlash(s) <= s && (StripSlash(s) != "" ==> StripSlash(s)[|StripSlash(s)| - 1] != '/')
    ensures forall i :: |StripSlash(s)| <= i < |s| ==> s[i] == '/'
  {
    if s != "" && s[|s| - 1] == '/' {
      Stripped(s[..|s| - 1]);
    }
  }

  lemma FirstSeparator(a: string, x: string, b: string, y: string, sep: char)
    requires sep !in a && sep !in b && a + [sep] + x == b + [sep] + y
    ensures a == b && x == y
  {
    var s := a + [sep] + x;
    assert s[|a|] == sep && s[|b|] == sep;
    assert forall i :: 0 <= i < |a| ==> s[i] == a[i];
    assert forall i :: 0 <= i < |b| ==> s[i] == b[i];
    assert a == s[..|a|] == b;
    assert x == s[|a| + 1..] == y;
  }

  /** What the type of a capability and a slug never contain. */
  ghost predicate Slugged(c: CapRow)
  {
    '/' !in c.capType && '@' !in c.pluginSlug && '@' !in c.nameSlug
  }

  ghost function Qualified(c: CapRow): string
  {
    c.pluginSlug + "." + c.nameSlug
  }

  lemma MintParts(ns: Namespace, c: CapRow)
    ensures Mint(ns, c) == (StripSlash(ns.uriPrefix) + "/") + (c.capType + ['/'] + (Qualified(c) + ['@'] + c.version))
  {
  }

  /** Two capabilities get one address in a namespace exactly when type, qualified name and version agree. */
  lemma SameAddressIff(ns: Namespace, c: CapRow, d: CapRow)
    requires Slugged(c) && Slugged(d)
    ensures Mint(ns, c) == Mint(ns, d) <==> c.capType == d.capType && Qualified(c) == Qualified(d) && c.version == d.version
  {
    MintParts(ns, c);
    MintParts(ns, d);
    if Mint(ns, c) == Mint(ns, d) {
      var prefix := StripSlash(ns.uriPrefix) + "/";
      var x, y := Qualified(c) + ['@'] + c.version, Qualified(d) + ['@'] + d.version;
      assert c.capType + ['/'] + x == Mint(ns, c)[|prefix|..] && d.capType + ['/'] + y == Mint(ns, d)[|prefix|..];
      FirstSeparator(c.capType, x, d.capType, y, '/');
      FirstSeparator(Qualified(c), c.version, Qualified(d), d.version, '@');
    }
  }

  /** Without dots in the plugin names the plugin qualifier keeps capabilities apart. */
  lemma PluginsApartIff(ns: Namespace, c: CapRow, d: CapRow)
    requires Slugged(c) && Slugged(d) && '.' !in c.pluginSlug && '.' !in d.pluginSlug
    ensures Mint(ns, c) == Mint(ns, d) <==>
      c.capType == d.capType && c.pluginSlug == d.pluginSlug && c.nameSlug == d.nameSlug && c.version == d.version
  {
    SameAddressIff(ns, c, d);
    if Qualified(c) == Qualified(d) {
      FirstSeparator(c.pluginSlug, c.nameSlug, d.pluginSlug, d.nameSlug, '.');
    }
  }

  /** With dots, which slugs may hold, it does not: skill "run" of plugin "a.b" and skill "b.run" of plugin "a" compete for one address. */
  lemma DottedPluginsCollide(ns: Namespace, c: CapRow, d: CapRow)
    requires c.pluginSlug == "a.b" && c.nameSlug == "run" && d.pluginSlug == "a" && d.nameSlug == "b.run"
    requires c.capType == d.capType && c.version == d.version
    ensures Mint(ns, c) == Mint(ns, d) && (c.pluginSlug, c.nameSlug) != (d.pluginSlug, d.nameSlug)
  {
    assert Qualified(c) == "a.b.run" == Qualified(d);
    MintParts(ns, c);
    MintParts(ns, d);
  }

  /** The second of two that compete is refused, whoever asks and whatever its gates say, and nothing is written. */
  lemma CompetitorRefused(t: Tables, tenant: string, id: string, gates: Gates, production: bool, taken: string)
    requires id in t.requests && t.requests[id].tenant == tenant && !gates.refused
    requires t.requests[id].uri in t.caps && t.requests[id].targetNamespace in t.namespaces && taken in t.caps && taken != t.requests[id].uri
    requires taken == Mint(t.namespaces[t.requests[id].targetNamespace], t.caps[t.requests[id].uri])
    ensures Decide(t, tenant, id, Approve, gates, production) == Err(UriClash)
  {
  }
}
