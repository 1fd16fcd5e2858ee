/**
 What becomes of a capability's standing when discovery finds it again: its
 approval, sharing, verification and lifecycle after one turn of the ingest
 loop and after any number of upserts at its address (capmesh/index.py).
 */
module Standing {
  import opened Types
  import opened Model
  import opened Catalog

  /** The five columns that content earns by being reviewed, shared or verified. */
  ghost predicate SameStanding(a: Governance, b: Governance)
  {
    && a.approvalState == b.approvalState && a.shareState == b.shareState && a.signature == b.signature
    && a.provenance == b.provenance && a.riskReview == b.riskReview
  }

  /** Nothing that was earned remains: what was approved, shared or verified goes back, and the rest is what the new content brings. */
  ghost predicate Forfeits(o: Governance, n: Governance, r: Governance)
  {
    && (if o.approvalState == "approved" then r.approvalState == "pending" else r.approvalState == n.approvalState)
    && (if o.shareState == "shared" then r.shareState == "not_shared" else r.shareState == n.shareState)
    && (if o.signature == "verified" then r.signature == "pending" else r.signature == n.signature)
    && (if o.provenance == "verified" then r.provenance == "pending" else r.provenance == n.provenance)
    && (if o.riskReview == "approved" then r.riskReview == "pending" else r.riskReview == n.riskReview)
  }

  /** The lifecycle that unchanged content ends in when `wanted` is asked for. */
  ghost predicate LifecycleFollows(o: Governance, wanted: string, got: string)
  {
    && (o.approvalState == "approved" || !ValidTransition(o.lifecycle, wanted) ==> got == o.lifecycle)
    && (o.approvalState != "approved" && ValidTransition(o.lifecycle, wanted) ==> got == wanted)
  }

  /** One upsert over a row. */
  lemma RefreshedStanding(o: Capability, c: Capability)
    requires o.uri == c.uri
    ensures Refreshed(o, c) == SetColumns(o, Clamp(o, c))
    ensures o.hash == c.hash ==> SameStanding(Refreshed(o, c).gov, o.gov) && LifecycleFollows(o.gov, c.gov.lifecycle, Refreshed(o, c).gov.lifecycle)
    ensures o.hash != c.hash ==> Forfeits(o.gov, c.gov, Refreshed(o, c).gov) && Refreshed(o, c).gov.lifecycle == c.gov.lifecycle
    ensures Refreshed(o, c).hash == c.hash && Refreshed(o, c).details == c.details && Refreshed(o, c).metadata == c.metadata
    ensures Refreshed(o, c).promotedFrom == if o.promotedFrom.Some? then o.promotedFrom else c.promotedFrom
    ensures Refreshed(o, c).submittedBy == if o.submittedBy.Some? then o.submittedBy else c.submittedBy
  {
    NoOpSuppressionExact(o, Clamp(o, c));
  }

  // ---- one turn of the loop ----

  /** The governance a discovered capability is handed over with: a pending draft while it is held. */
  ghost predicate Offers(e: Capability, held: bool, g: Governance)
  {
    && g.shareState == e.gov.shareState && g.signature == e.gov.signature && g.provenance == e.gov.provenance && g.riskReview == e.gov.riskReview
    && (if held then g.lifecycle == "draft" && g.approvalState == "pending" else g.lifecycle == e.gov.lifecycle && g.approvalState == e.gov.approvalState)
  }

  lemma HeldOffers(t: Tables, e: Capability, holds: set<HoldKey>)
    requires Keyed(t.rows, t.nextId)
    ensures Offers(e, (TenantOr(e.tenant), Landing(t, e), e.hash) in holds, Held(Prepared(t, e), holds).gov)
  {
  }

  /** What an approved promotion keeps of its placement when it is found again. */
  ghost predicate KeepsPlacement(o: Capability, r: Capability)
  {
    && r.uri == o.uri && r.promotedFrom == o.promotedFrom && (o.submittedBy.Some? ==> r.submittedBy == o.submittedBy)
    && r.details.storeId == o.details.storeId && r.details.namespaceId == o.details.namespaceId
    && r.details.visibility == o.details.visibility && r.details.discoveryMode == o.details.discoveryMode && r.details.owner == o.details.owner
  }

  lemma MovedPrevious(t: Tables, e: Capability)
    requires Keyed(t.rows, t.nextId) && Moved(t, e).Ok? && Previous(t, e).Some?
    ensures var rows := Moved(t, e).value.rows;
      Landing(t, e) in rows && rows[Landing(t, e)].cap == t.rows[Previous(t, e).value].cap.(uri := Landing(t, e))
  {
  }

  lemma LandedRow(t: Tables, e: Capability, holds: set<HoldKey>)
    requires Keyed(t.rows, t.nextId) && Land(t, e, holds).Ok?
    ensures var c, rows := Held(Prepared(t, e), holds), Land(t, e, holds).value.rows;
      && Landing(t, e) in rows
      && rows[Landing(t, e)].cap ==
         if Previous(t, e).Some? then Refreshed(t.rows[Previous(t, e).value].cap.(uri := Landing(t, e)), c) else c
  {
    MovedKeyed(t, e);
    if Previous(t, e).Some? {
      MovedPrevious(t, e);
    }
  }

  /** A capability never seen before is stored as it is found, as a pending draft when it is held. */
  lemma NewStanding(t: Tables, e: Capability, holds: set<HoldKey>)
    requires Keyed(t.rows, t.nextId) && Land(t, e, holds).Ok? && Previous(t, e).None?
    ensures e.uri in Land(t, e, holds).value.rows
    ensures var r := Land(t, e, holds).value.rows[e.uri].cap;
      Offers(e, (TenantOr(e.tenant), e.uri, e.hash) in holds, r.gov) && r == e.(gov := r.gov)
  {
    LandedRow(t, e, holds);
  }

  /**
   A capability found again: unchanged content keeps all it has earned and moves
   only along the lifecycle table, changed content forfeits it; an approved
   promotion keeps its address and placement either way.
   */
  lemma FoundAgain(t: Tables, e: Capability, holds: set<HoldKey>, o: Capability, r: Capability)
    requires Keyed(t.rows, t.nextId) && Land(t, e, holds).Ok?
    requires Previous(t, e).Some? && o == t.rows[Previous(t, e).value].cap
    requires Landing(t, e) in Land(t, e, holds).value.rows && r == Land(t, e, holds).value.rows[Landing(t, e)].cap
    ensures exists offered ::
      && Offers(e, (TenantOr(e.tenant), Landing(t, e), e.hash) in holds, offered)
      && if o.hash == e.hash then SameStanding(r.gov, o.gov) && LifecycleFollows(o.gov, offered.lifecycle, r.gov.lifecycle)
         else Forfeits(o.gov, offered, r.gov) && r.gov.lifecycle == offered.lifecycle
    ensures Pinned(o) ==> KeepsPlacement(o, r)
    ensures !Pinned(o) ==> r.uri == e.uri && r.details == e.details
  {
    var c := Held(Prepared(t, e), holds);
    HeldOffers(t, e, holds);
    LandedRow(t, e, holds);
    RefreshedStanding(o.(uri := Landing(t, e)), c);
    assert Offers(e, (TenantOr(e.tenant), Landing(t, e), e.hash) in holds, c.gov);
  }

  // ---- any number of upserts at one address ----

  function Latest(o: Capability, finds: seq<Capability>): Capability
  {
    if finds == [] then o else Refreshed(Latest(o, finds[..|finds| - 1]), finds[|finds| - 1])
  }

  /** What a capability can earn. */
  datatype Merit = Approval | Sharing | Signed | Provenanced | RiskCleared

  ghost predicate Has(g: Governance, m: Merit)
  {
    match m
    case Approval => g.approvalState == "approved"
    case Sharing => g.shareState == "shared"
    case Signed => g.signature == "verified"
    case Provenanced => g.provenance == "verified"
    case RiskCleared => g.riskReview == "approved"
  }

  ghost predicate SameContent(o: Capability, finds: seq<Capability>)
  {
    forall i :: 0 <= i < |finds| ==> finds[i].hash == o.hash
  }

  lemma {:induction false} LatestContent(o: Capability, finds: seq<Capability>)
    requires forall i :: 0 <= i < |finds| ==> finds[i].uri == o.uri
    ensures Latest(o, finds).uri == o.uri
    ensures Latest(o, finds).hash == if finds == [] then o.hash else finds[|finds| - 1].hash
  {
    if finds != [] {
      LatestContent(o, finds[..|finds| - 1]);
      RefreshedStanding(Latest(o, finds[..|finds| - 1]), finds[|finds| - 1]);
    }
  }

  lemma RefreshedHas(o: Capability, c: Capability, m: Merit)
    requires o.uri == c.uri && !Has(c.gov, m)
    ensures Has(Refreshed(o, c).gov, m) <==> Has(o.gov, m) && o.hash == c.hash
  {
    RefreshedStanding(o, c);
  }

  /**
   Discovery that claims no merit confers none, and a merit survives exactly
   while every later find has the content that earned it: bringing the old
   content back does not bring its merits back.
   */
  lemma {:induction false} MeritSurvivesIff(o: Capability, finds: seq<Capability>, m: Merit)
    requires forall i :: 0 <= i < |finds| ==> finds[i].uri == o.uri && !Has(finds[i].gov, m)
    ensures Has(Latest(o, finds).gov, m) <==> Has(o.gov, m) && SameContent(o, finds)
  {
    if finds != [] {
      var front, c := finds[..|finds| - 1], finds[|finds| - 1];
      MeritSurvivesIff(o, front, m);
      LatestContent(o, front);
      RefreshedHas(Latest(o, front), c, m);
      SameContentSplit(o, front, c);
      assert finds == front + [c];
    }
  }

  lemma SameContentSplit(o: Capability, front: seq<Capability>, c: Capability)
    ensures SameContent(o, front + [c]) <==> SameContent(o, front) && c.hash == o.hash
  {
    var all := front + [c];
    assert all[|front|] == c;
    assert forall i :: 0 <= i < |front| ==> all[i] == front[i];
  }

  lemma SameContentStep(o: Capability, c: Capability)
    requires o.uri == c.uri && o.hash == c.hash
    ensures ValidTransition(o.gov.lifecycle, Refreshed(o, c).gov.lifecycle) && SameStanding(Refreshed(o, c).gov, o.gov)
    ensures o.gov.approvalState == "approved" ==> Refreshed(o, c).gov.lifecycle == o.gov.lifecycle
    ensures Refreshed(o, c).uri == o.uri && Refreshed(o, c).hash == o.hash
  {
    RefreshedStanding(o, c);
  }

  lemma {:induction false} StandingKept(o: Capability, finds: seq<Capability>)
    requires SameContent(o, finds) && forall i :: 0 <= i < |finds| ==> finds[i].uri == o.uri
    ensures var r := Latest(o, finds);
      r.uri == o.uri && r.hash == o.hash && SameStanding(r.gov, o.gov) && (o.gov.approvalState == "approved" ==> r.gov.lifecycle == o.gov.lifecycle)
  {
    if finds != [] {
      var front := finds[..|finds| - 1];
      StandingKept(o, front);
      SameContentStep(Latest(o, front), finds[|finds| - 1]);
    }
  }

  /** While the content stays the same, the lifecycle only ever takes steps of the transition table; an approved row takes none. */
  lemma LifecycleWalks(o: Capability, finds: seq<Capability>, k: nat)
    requires SameContent(o, finds) && k < |finds| && forall i :: 0 <= i < |finds| ==> finds[i].uri == o.uri
    ensures ValidTransition(Latest(o, finds[..k]).gov.lifecycle, Latest(o, finds[..k + 1]).gov.lifecycle)
    ensures SameStanding(Latest(o, finds[..k + 1]).gov, o.gov)
    ensures o.gov.approvalState == "approved" ==> Latest(o, finds[..k + 1]).gov.lifecycle == o.gov.lifecycle
  {
    var upTo := finds[..k + 1];
    assert upTo[..k] == finds[..k];
    StandingKept(o, finds[..k]);
    StandingKept(o, upTo);
    SameContentStep(Latest(o, finds[..k]), finds[k]);
  }

  /** Content that was deleted stays deleted however often it is found again. */
  lemma {:induction false} DeletedStaysDeleted(o: Capability, finds: seq<Capability>)
    requires o.gov.lifecycle == "deleted" && SameContent(o, finds) && forall i :: 0 <= i < |finds| ==> finds[i].uri == o.uri
    ensures Latest(o, finds).gov.lifecycle == "deleted"
  {
    if finds != [] {
      var front := finds[..|finds| - 1];
      DeletedStaysDeleted(o, front);
      LatestContent(o, front);
      RefreshedStanding(Latest(o, front), finds[|finds| - 1]);
    }
  }

  /** The transition table, as the life of a capability: a recalled one comes back only as active or draft, a yanked or disabled one never as published, a retired one never as a draft. */
  lemma TransitionFacts(from: string, to: string)
    requires from != to && ValidTransition(from, to)
    ensures from != "deleted"
    ensures from == "recalled" ==> to in {"active", "draft"}
    ensures from == "yanked" ==> to == "active"
    ensures from == "disabled" ==> to in {"active", "deleted"}
    ensures to == "deleted" ==> from == "disabled"
    ensures to == "published" ==> from == "draft"
    ensures to == "draft" ==> from in {"active", "recalled"}
    ensures to !in {"disabled", "recalled", "yanked"}
  {
  }
}
