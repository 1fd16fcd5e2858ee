/**
 Runs that leave an indexed capability unaccounted for.  A capability is
 discovered and rejected; then its source reappears under another address while
 a capability with another key claims the old address with the same content.
 */
module MovedRejection {
  import opened Types
  import opened Text
  import opened Model
  import opened MergePipeline
  import opened Catalog
  import opened Ingest
  import opened Origins
  import opened Namespaces
  import opened Samples
  import opened Custody
  import opened Coverage
  import Q = Quarantine

  /** What each of the three capabilities is: alone under its key, from a tenant, neither system nor draft nor rejected. */
  ghost predicate Plain(c: Capability)
  {
    Lone(c) && c.uri != "" && c.tenant != "" && !IsSystemOrDraft(c) && c.gov.approvalState != "rejected"
  }

  /** `first` was found at an address; `moved` has its key at an earlier address, `taker` its content at the old one. */
  ghost predicate Swap(first: Capability, moved: Capability, taker: Capability)
  {
    && Plain(first) && Plain(moved) && Plain(taker)
    && first.key == moved.key != taker.key && moved.sourcePath != taker.sourcePath
    && first.uri == taker.uri && Less(moved.uri, taker.uri)
    && first.hash == taker.hash && first.tenant == taker.tenant
  }

  lemma OrdinaryPair(caps: seq<Capability>)
    requires LonePair(caps) && Less(caps[0].uri, caps[1].uri) && Plain(caps[0]) && Plain(caps[1])
    ensures OrdinaryBatch(caps)
  {
    forall e | e in caps ensures e.tenant != "" && e.gov.approvalState != "rejected" {
      assert e == caps[0] || e == caps[1];
    }
    PairMergedApart(caps);
  }

  lemma PairMergedApart(caps: seq<Capability>)
    requires LonePair(caps) && Less(caps[0].uri, caps[1].uri)
    ensures Separate(UriMerged(caps))
  {
    MergeOfTwo(caps);
    PairApart(caps);
  }

  lemma OrdinaryOne(caps: seq<Capability>)
    requires |caps| == 1 && Plain(caps[0])
    ensures OrdinaryBatch(caps)
  {
    MergeOfOne(caps);
    assert forall c :: c in caps ==> c == caps[0];
  }

  // ---- one capability, discovered and rejected ----

  function Flag(c: Capability, lifecycle: string, approval: string): Capability
  {
    c.(gov := c.gov.(lifecycle := lifecycle, approvalState := approval))
  }

  function HeldWorld(c: Capability): World
  {
    World(OneRow(Flag(c, "draft", "pending")), Q.Desk([Q.Item(HoldKeyOf(c), Q.Quarantined, "pending_scan")], []))
  }

  function RejectedWorld(c: Capability, signature: Q.Signature): World
  {
    World(OneRow(Flag(c, "disabled", "rejected")),
          Q.Desk([Q.Item(HoldKeyOf(c), Q.Rejected, "pending_scan")], [Q.Attestation(Q.Reject, 0, HoldKeyOf(c), signature)]))
  }

  lemma FirstLanding(c: Capability)
    requires Lone(c)
    ensures Land(Empty.tables, c, {HoldKeyOf(c)}) == Ok(OneRow(Flag(c, "draft", "pending")))
  {
    var t, held := Empty.tables, Flag(c, "draft", "pending");
    OwnRecordOnly(c);
    HeldRecords(c, {HoldKeyOf(c)});
    assert Previous(t, c).None?;
    assert Moved(t, c) == Ok(t) && Held(Prepared(t, c), {HoldKeyOf(c)}) == held;
    LoneExpected(held, c);
    assert Sync(map[], c.uri, Expected(held)) == Expected(held);
  }

  lemma LoneExpected(held: Capability, c: Capability)
    requires SourceRecords(held) == {Own(c, c.sourcePath)} && !Conflicting(ListedProvenance(held)) && held.uri == c.uri
    ensures Expected(held) == map[c.sourcePath := SourceRow(c.uri, c.sourceKind, c.sourceSystem, c.hash)]
  {
    assert Own(c, c.sourcePath) in SourceRecords(held);
  }

  lemma NoneRetired(t: Tables)
    requires Retire(t).Ok? && forall u :: u in t.rows ==> !Orphan(t, u)
    ensures Retire(t) == Ok(t)
  {
    RetireRows(t);
    assert Retire(t).value.rows == t.rows;
    assert Retire(t).value.fts == t.fts;
  }

  lemma OneRowKept(c: Capability)
    ensures Retire(OneRow(c)) == Ok(OneRow(c))
  {
    var t := OneRow(c);
    assert t.sources[c.sourcePath].uri == c.uri;
    NoRefsAlwaysRetires(t);
    NoneRetired(t);
  }

  lemma FirstCatalog(batch: seq<Capability>)
    requires |batch| == 1 && Lone(batch[0])
    ensures IngestBatch(Empty.tables, batch, {HoldKeyOf(batch[0])}) == Ok(OneRow(Flag(batch[0], "draft", "pending")))
  {
    MergeOfOne(batch);
    FirstLanding(batch[0]);
    LastTurn(Empty.tables, batch, {HoldKeyOf(batch[0])});
    OneRowKept(Flag(batch[0], "draft", "pending"));
  }

  lemma QuarantineOne(d: Q.Desk, rows: map<string, Row>, batch: seq<Capability>)
    requires |batch| == 1 && !Exempt(rows, batch[0]) && Q.Place(d, (batch[0].tenant, batch[0].uri, batch[0].hash), "pending_scan").Ok?
    ensures QuarantineNew(d, rows, batch) == (Q.Place(d, (batch[0].tenant, batch[0].uri, batch[0].hash), "pending_scan").value, true)
  {
    assert batch[1..] == [];
  }

  lemma FirstHold(batch: seq<Capability>)
    requires |batch| == 1 && Plain(batch[0])
    ensures QuarantineNew(Empty.desk, Empty.tables.rows, batch) == (HeldWorld(batch[0]).desk, true)
  {
    var e, d := batch[0], HeldWorld(batch[0]).desk;
    LoneFilled(e);
    assert [] + d.items == d.items;
    assert Q.Place(Empty.desk, (e.tenant, e.uri, e.hash), "pending_scan") == Ok(d);
    QuarantineOne(Empty.desk, Empty.tables.rows, batch);
  }

  lemma FirstIngest(batch: seq<Capability>)
    requires |batch| == 1 && Plain(batch[0])
    ensures AfterIngest(Empty, batch) == HeldWorld(batch[0])
  {
    var items := HeldWorld(batch[0]).desk.items;
    FirstHold(batch);
    assert items[0].key in ActiveKeys(items);
    assert ActiveKeys(items) == {HoldKeyOf(batch[0])};
    FirstCatalog(batch);
  }

  lemma DeskRejected(c: Capability, signature: Q.Signature)
    requires c.tenant != ""
    ensures Q.RejectItem(HeldWorld(c).desk, 0, c.tenant, true, signature) == Ok(RejectedWorld(c, signature).desk)
  {
    var d, d' := HeldWorld(c).desk, RejectedWorld(c, signature).desk;
    assert Q.RejectItem(d, 0, c.tenant, true, signature).value.items == d'.items;
    assert Q.RejectItem(d, 0, c.tenant, true, signature).value.attestations == d'.attestations;
  }

  lemma RowRejected(c: Capability)
    requires c.tenant != ""
    ensures var t := OneRow(Flag(c, "draft", "pending"));
      WithRows(t, Flagged(t.rows, HoldKeyOf(c), "disabled", "rejected")) == OneRow(Flag(c, "disabled", "rejected"))
  {
    var t, t' := OneRow(Flag(c, "draft", "pending")), OneRow(Flag(c, "disabled", "rejected"));
    assert Flagged(t.rows, HoldKeyOf(c), "disabled", "rejected") == t'.rows;
  }

  lemma ThenRejected(c: Capability, signature: Q.Signature, trust: Trust)
    requires c.tenant != ""
    ensures Next(HeldWorld(c), Reject(0, c.tenant, true, signature), trust) == RejectedWorld(c, signature)
  {
    DeskRejected(c, signature);
    RowRejected(c);
  }

  // ---- the swap ----

  /** One row, moved by the first of two capabilities; the second is stored where it was. */
  lemma PairCommits(t: Tables, caps: seq<Capability>, b: string, holds: set<HoldKey>)
    requires |caps| == 2 && Less(caps[0].uri, caps[1].uri) && caps[0].key != caps[1].key && caps[1].uri == b
    requires !Conflicting(ListedProvenance(caps[0])) && !Conflicting(ListedProvenance(caps[1])) && t.refs == NoRefs
    requires Keyed(t.rows, t.nextId) && t.rows.Keys == {b} && t.rows[b].cap.key == caps[0].key && !Pinned(t.rows[b].cap)
    ensures IngestBatch(t, caps, holds).Ok?
  {
    var e, f := caps[0], caps[1];
    MergeOfTwo(caps);
    OnlyRowMoves(t, e, b, holds);
    LandKeyed(t, e, holds);
    LandRefs(t, e, holds);
    var t1 := Land(t, e, holds).value;
    assert Landing(t, e) == e.uri by { assert Owns(t.rows, b, e.key); }
    LandRows(t, e, holds, e.uri);
    LandsBeside(t1, e.uri, f, holds);
    LandRefs(t1, f, holds);
    TwoTurns(t, caps, holds);
    NoRefsAlwaysRetires(Land(t1, f, holds).value);
  }

  /** The first capability has taken the only row away; the second finds nothing. */
  lemma SwapOrigin(rows: map<string, Row>, caps: seq<Capability>, b: string)
    requires |caps| == 2 && rows.Keys == {b} && caps[1].uri == b && caps[0].uri != b && rows[b].cap.key == caps[0].key != caps[1].key
    requires !Pinned(rows[b].cap)
    ensures Origin(rows, caps, 1) == None
  {
    assert !Occupied(rows, caps, 0);
    assert Gone(rows, caps, 1, b);
    assert !Occupied(rows, caps, 1);
    forall v ensures !KeptFor(rows, caps, 1, v) {}
  }

  /** The second capability is exempt from quarantine: the address still shows its content. */
  lemma SwapHolds(w: World, caps: seq<Capability>, b: string)
    requires |caps| == 2 && Plain(caps[0]) && Plain(caps[1]) && caps[0].uri != b && caps[1].uri == b
    requires w.tables.rows.Keys == {b} && w.tables.rows[b].cap.hash == caps[1].hash && !Q.HasItem(w.desk.items, HoldKeyOf(caps[0]), Q.Quarantined)
    ensures QuarantineNew(w.desk, w.tables.rows, caps) == (w.desk.(items := w.desk.items + [Q.Item(HoldKeyOf(caps[0]), Q.Quarantined, "pending_scan")]), true)
  {
    var e, rest := caps[0], caps[1..];
    LoneFilled(e);
    var d := w.desk.(items := w.desk.items + [Q.Item(HoldKeyOf(e), Q.Quarantined, "pending_scan")]);
    assert Q.Place(w.desk, (e.tenant, e.uri, e.hash), "pending_scan") == Ok(d);
    assert QuarantineNew(d, w.tables.rows, rest) == QuarantineNew(d, w.tables.rows, rest[1..]);
    assert rest[1..] == [];
  }

  lemma NotSettled(items: seq<Q.Item>, key: HoldKey)
    requires forall i :: 0 <= i < |items| && items[i].key == key ==> items[i].status.Rejected?
    ensures !Settled(items, key)
  {
  }

  ghost predicate Stray(w: World, caps: seq<Capability>)
  {
    && |caps| == 2 && OrdinaryBatch(caps) && UriMerged(caps) == caps && Keyed(w.tables.rows, w.tables.nextId) && Commits(w, caps)
    && Origin(w.tables.rows, caps, 1) == None && Final(w.tables.rows, caps, 1)
    && !Safe(w.tables.rows, caps, 1, QuarantineNew(w.desk, w.tables.rows, caps).0.items)
  }

  /** A registry whose only row is rejected, with the first capability's key, at the second's address and with its content. */
  ghost predicate Ready(w: World, caps: seq<Capability>)
  {
    && LonePair(caps) && Plain(caps[0]) && Plain(caps[1]) && Less(caps[0].uri, caps[1].uri)
    && Keyed(w.tables.rows, w.tables.nextId) && w.tables.refs == NoRefs && w.tables.rows.Keys == {caps[1].uri}
    && w.tables.rows[caps[1].uri].cap.key == caps[0].key && RejectedAs(w.tables.rows[caps[1].uri].cap, caps[1].hash)
    && |w.desk.items| == 1 && w.desk.items[0].key == HoldKeyOf(caps[1]) && w.desk.items[0].status.Rejected?
  }

  lemma SwapReady(w: World, first: Capability, caps: seq<Capability>, signature: Q.Signature)
    requires |caps| == 2 && Swap(first, caps[0], caps[1]) && w == RejectedWorld(first, signature)
    ensures Ready(w, caps)
  {
  }

  lemma ReadyHolds(w: World, caps: seq<Capability>)
    requires Ready(w, caps)
    ensures QuarantineNew(w.desk, w.tables.rows, caps) == (w.desk.(items := w.desk.items + [Q.Item(HoldKeyOf(caps[0]), Q.Quarantined, "pending_scan")]), true)
  {
    SwapHolds(w, caps, caps[1].uri);
  }

  lemma ReadyCommits(w: World, caps: seq<Capability>)
    requires Ready(w, caps)
    ensures Commits(w, caps)
  {
    ReadyHolds(w, caps);
    OwnRecordOnly(caps[0]);
    OwnRecordOnly(caps[1]);
    PairCommits(w.tables, caps, caps[1].uri, ActiveKeys(QuarantineNew(w.desk, w.tables.rows, caps).0.items));
  }

  lemma ReadyUnsafe(w: World, caps: seq<Capability>)
    requires Ready(w, caps)
    ensures Origin(w.tables.rows, caps, 1) == None && Final(w.tables.rows, caps, 1)
    ensures !Safe(w.tables.rows, caps, 1, QuarantineNew(w.desk, w.tables.rows, caps).0.items)
  {
    SwapOrigin(w.tables.rows, caps, caps[1].uri);
    ReadyHolds(w, caps);
    NotSettled(QuarantineNew(w.desk, w.tables.rows, caps).0.items, HoldKeyOf(caps[1]));
  }

  /** On such a registry the batch commits and leaves the second capability unsafe. */
  lemma ReadyStray(w: World, caps: seq<Capability>)
    requires Ready(w, caps)
    ensures Stray(w, caps)
  {
    OrdinaryPair(caps);
    MergeOfTwo(caps);
    ReadyCommits(w, caps);
    ReadyUnsafe(w, caps);
  }

  lemma StrayUnsafe(w: World, caps: seq<Capability>)
    requires Stray(w, caps)
    ensures !SafeStep(w, Discover(caps))
  {
  }

  /** The second capability is indexed with the governance it brought, and nothing settles it. */
  lemma StrayStored(w: World, caps: seq<Capability>, trust: Trust)
    requires Inv(w, trust) && Stray(w, caps)
    ensures var w' := AfterIngest(w, caps);
      && caps[1].uri in w'.tables.rows && w'.tables.rows[caps[1].uri].cap.gov == caps[1].gov && w'.tables.rows[caps[1].uri].cap.hash == caps[1].hash
      && !Settled(w'.desk.items, HoldKeyOf(caps[1]))
  {
    StrayStoredAsGiven(w, caps, 1, trust);
  }

  // ---- the run ----

  function SwapRun(first: Capability, moved: Capability, taker: Capability, signature: Q.Signature): seq<Step>
  {
    [Discover([first]), Reject(0, first.tenant, true, signature), Discover([moved, taker])]
  }

  lemma SwapReaches(steps: seq<Step>, first: Capability, moved: Capability, taker: Capability, signature: Q.Signature, trust: Trust)
    requires steps == SwapRun(first, moved, taker, signature) && Plain(first)
    ensures Inv(Empty, trust) && Inv(Next(Empty, steps[0], trust), trust)
    ensures Next(Next(Empty, steps[0], trust), steps[1], trust) == RejectedWorld(first, signature) && Inv(RejectedWorld(first, signature), trust)
  {
    EmptyInv(trust);
    FirstIngest([first]);
    NextKeeps(Empty, steps[0], trust);
    ThenRejected(first, signature, trust);
    NextKeeps(HeldWorld(first), steps[1], trust);
  }

  lemma RunOfThree(w: World, steps: seq<Step>, trust: Trust)
    requires Inv(w, trust) && |steps| == 3 && Inv(Next(w, steps[0], trust), trust) && Inv(Next(Next(w, steps[0], trust), steps[1], trust), trust)
    ensures Run(w, steps, trust) == Next(Next(Next(w, steps[0], trust), steps[1], trust), steps[2], trust)
    ensures SafeRun(w, steps, trust) ==> SafeStep(Next(Next(w, steps[0], trust), steps[1], trust), steps[2])
  {
    var w1 := Next(w, steps[0], trust);
    var w2 := Next(w1, steps[1], trust);
    RunHead(w, steps, trust);
    RunHead(w1, steps[1..], trust);
    NextKeeps(w2, steps[2], trust);
    RunHead(w2, steps[1..][1..], trust);
    assert steps[1..][1..][1..] == [];
  }

  lemma RunHead(w: World, steps: seq<Step>, trust: Trust)
    requires Inv(w, trust) && steps != [] && Inv(Next(w, steps[0], trust), trust)
    ensures Run(w, steps, trust) == Run(Next(w, steps[0], trust), steps[1..], trust)
    ensures SafeRun(w, steps, trust) ==> SafeStep(w, steps[0]) && SafeRun(Next(w, steps[0], trust), steps[1..], trust)
  {
  }

  lemma SwapOrdinary(first: Capability, moved: Capability, taker: Capability, signature: Q.Signature)
    requires Swap(first, moved, taker)
    ensures OrdinarySteps(SwapRun(first, moved, taker, signature))
  {
    OrdinaryOne([first]);
    OrdinaryPair([moved, taker]);
  }

  /**
   From the empty registry: discover, reject, swap.  In the last state the taker
   is indexed with the governance it brought, and nothing accounts for it.
   */
  lemma SwapUncovers(first: Capability, moved: Capability, taker: Capability, signature: Q.Signature, trust: Trust)
    requires Swap(first, moved, taker)
    ensures Inv(Empty, trust) && OrdinarySteps(SwapRun(first, moved, taker, signature))
    ensures !AlwaysCovered(Empty, SwapRun(first, moved, taker, signature), trust)
    ensures var w := Run(Empty, SwapRun(first, moved, taker, signature), trust);
      && taker.uri in w.tables.rows && w.tables.rows[taker.uri].cap.gov == taker.gov && w.tables.rows[taker.uri].cap.hash == taker.hash
      && !Settled(w.desk.items, HoldKeyOf(taker))
  {
    var steps := SwapRun(first, moved, taker, signature);
    SwapOrdinary(first, moved, taker, signature);
    SwapReaches(steps, first, moved, taker, signature, trust);
    SwapReady(RejectedWorld(first, signature), first, [moved, taker], signature);
    ReadyStray(RejectedWorld(first, signature), [moved, taker]);
    StrayUnsafe(RejectedWorld(first, signature), [moved, taker]);
    StrayStored(RejectedWorld(first, signature), [moved, taker], trust);
    RunOfThree(Empty, steps, trust);
    RunCoveredIff(Empty, steps, trust);
  }

  /** The worst of these: a vault-placed capability with rejected content ends up approved and published. */
  lemma RejectedContentPublished(a: string, b: string, k: string, l: string, p: string, q: string, signature: Q.Signature, trust: Trust)
    requires Namespaced(a) && Namespaced(b) && Less(a, b) && k != l && p != q && p != "" && q != ""
    ensures Swap(VaultPlaced(Sample(b, k, p), a), Sample(a, k, p), VaultPlaced(Sample(b, l, q), a)) && Inv(Empty, trust)
    ensures var w := Run(Empty, SwapRun(VaultPlaced(Sample(b, k, p), a), Sample(a, k, p), VaultPlaced(Sample(b, l, q), a), signature), trust);
      && b in w.tables.rows && w.tables.rows[b].cap.hash == "h"
      && w.tables.rows[b].cap.gov.approvalState == "approved" && w.tables.rows[b].cap.gov.lifecycle == "published"
  {
    SampleLone(b, k, p, a);
    SampleLone(a, k, p, a);
    SampleLone(b, l, q, a);
    SwapUncovers(VaultPlaced(Sample(b, k, p), a), Sample(a, k, p), VaultPlaced(Sample(b, l, q), a), signature, trust);
  }
}
