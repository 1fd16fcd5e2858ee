/**
 Who owns a discovered path after an ingest.  A promoted capability is refreshed
 at its promoted address, so two capabilities of one batch can end up on one row.
 */
module PathOwnership {
  import opened Types
  import opened Text
  import opened Model
  import opened Merge
  import opened MergePipeline
  import opened Catalog
  import opened Ingest
  import opened Origins
  import opened Namespaces
  import opened Samples

  lemma SeparateDistinct(eff: seq<Capability>)
    requires Separate(UriMerged(eff))
    ensures Distinct(UriMerged(eff))
  {
    UriMergedShape(eff);
  }

  /** Every capability lands where the tables before the batch say. */
  lemma LandingsComputed(t: Tables, caps: seq<Capability>, holds: set<HoldKey>, i: nat)
    requires Keyed(t.rows, t.nextId) && LandAll(t, caps, holds).Ok? && Distinct(caps) && i < |caps|
    ensures Landings(t, caps, holds)[i] == Address(t.rows, caps, i)
  {
    var ts := RowTraceOf(t, caps, holds);
    OriginIsPrevious(ts, caps, Landings(t, caps, holds), holds, i);
  }

  /** Two capabilities are stored on one row exactly when the earlier is carried over to the address of the later. */
  lemma SharedAddressIff(rows: map<string, Row>, nextId: nat, caps: seq<Capability>, i: nat, j: nat)
    requires Keyed(rows, nextId) && Distinct(caps) && i < j < |caps|
    ensures Address(rows, caps, i) == Address(rows, caps, j) <==> CarriedOnto(rows, caps, i, j)
  {
    CarriedOntoIff(rows, nextId, caps, i, j);
    TakenNotKept(rows, caps, j, i);
    if CarriedOnto(rows, caps, i, j) {
      assert !Gone(rows, caps, j, caps[j].uri);
      assert Origin(rows, caps, j) == Some(caps[j].uri);
    }
  }

  /** A later capability lands on the row of `i`. */
  lemma RepeatedIff(t: Tables, caps: seq<Capability>, holds: set<HoldKey>, i: nat)
    requires Keyed(t.rows, t.nextId) && LandAll(t, caps, holds).Ok? && Distinct(caps) && i < |caps|
    ensures var ls := Landings(t, caps, holds);
      ls[i] in ls[i + 1..] <==> exists j :: i < j < |caps| && CarriedOnto(t.rows, caps, i, j)
  {
    var ls := Landings(t, caps, holds);
    LandingsComputed(t, caps, holds, i);
    forall j | i < j < |caps| ensures ls[j] == ls[i] <==> CarriedOnto(t.rows, caps, i, j) {
      LandingsComputed(t, caps, holds, j);
      SharedAddressIff(t.rows, t.nextId, caps, i, j);
    }
    InTailIff(ls, i);
  }

  lemma InTailIff(ls: seq<string>, i: nat)
    requires i < |ls|
    ensures ls[i] in ls[i + 1..] <==> exists j :: i < j < |ls| && ls[j] == ls[i]
  {
    if j :| i < j < |ls| && ls[j] == ls[i] {
      assert ls[i + 1..][j - i - 1] == ls[i];
    }
  }

  /** A capability carried over to a later one's address ends with its paths owned by nobody; any other owns them all at the row it is stored on. */
  lemma RecordsAfterIngest(t: Tables, eff: seq<Capability>, holds: set<HoldKey>, i: nat)
    requires Coherent(t) && IngestBatch(t, eff, holds).Ok? && Separate(UriMerged(eff)) && i < |UriMerged(eff)|
    ensures var caps, t' := UriMerged(eff), IngestBatch(t, eff, holds).value;
      if exists j :: i < j < |caps| && CarriedOnto(t.rows, caps, i, j)
      then forall s :: s in SourceRecords(caps[i]) ==> s.path !in t'.sources
      else OwnsRecords(t', Address(t.rows, caps, i), caps[i])
  {
    var caps := UriMerged(eff);
    var t1, ls := LandAll(t, caps, holds).value, Landings(t, caps, holds);
    SeparateDistinct(eff);
    LandAllCoherent(t, caps, holds);
    var ts := TraceOf(t, caps, holds);
    RecordsKeptIff(ts, caps, ls, i);
    RepeatedIff(t, caps, holds, i);
    LandingsComputed(t, caps, holds, i);
    RetireRows(t1);
    if OwnsRecords(t1, ls[i], caps[i]) {
      OwnerSurvives(t1, ls[i], caps[i]);
    }
  }

  lemma LostWhenCarried(t: Tables, eff: seq<Capability>, holds: set<HoldKey>, i: nat, j: nat, s: Source)
    requires Coherent(t) && IngestBatch(t, eff, holds).Ok? && Separate(UriMerged(eff)) && i < j < |UriMerged(eff)|
    requires CarriedOnto(t.rows, UriMerged(eff), i, j) && s in SourceRecords(UriMerged(eff)[i])
    ensures s.path !in IngestBatch(t, eff, holds).value.sources
  {
    RecordsAfterIngest(t, eff, holds, i);
  }

  lemma OwnerSurvives(t: Tables, u: string, e: Capability)
    requires Retire(t).Ok? && OwnsRecords(t, u, e)
    ensures OwnsRecords(Retire(t).value, u, e)
  {
    RetireRows(t);
    RecordsNonEmpty(e);
    var s :| s in SourceRecords(e);
    assert t.sources[s.path].uri == u;
    assert HasSource(t.sources, u);
  }

  /** The record of a discovered path is in the catalog, at a live row. */
  ghost predicate PathOwned(t': Tables, d: Capability)
  {
    d.sourcePath in t'.sources && var r := t'.sources[d.sourcePath];
    r.uri in t'.rows && r == SourceRow(r.uri, d.sourceKind, d.sourceSystem, d.hash)
  }

  ghost predicate Admitted(eff: seq<Capability>, d: Capability)
  {
    exists e :: e in eff && e.key == d.key
  }

  ghost predicate AllPathsOwned(t': Tables, disc: seq<Capability>, eff: seq<Capability>)
  {
    forall d :: d in disc && Admitted(eff, d) ==> PathOwned(t', d)
  }

  lemma PathOwnedIfKept(disc: seq<Capability>, eff: seq<Capability>, t: Tables, holds: set<HoldKey>, d: Capability)
    requires Discovered(disc) && DistinctPaths(disc) && Placed(disc, eff) && Coherent(t) && IngestBatch(t, eff, holds).Ok?
    requires d in disc && Admitted(eff, d) && Uncontested(t.rows, UriMerged(eff))
    ensures PathOwned(IngestBatch(t, eff, holds).value, d)
  {
    var e :| e in eff && e.key == d.key;
    ProvenanceConserved(disc, eff, d, e);
    MergedBatchSeparate(disc, eff);
    var i := MergedAt(eff, e.uri);
    RecordsAfterIngest(t, eff, holds, i);
    assert Own(d, d.sourcePath) in SourceRecords(UriMerged(eff)[i]);
  }

  lemma PathLostIfContested(disc: seq<Capability>, eff: seq<Capability>, t: Tables, holds: set<HoldKey>, i: nat, j: nat) returns (d: Capability)
    requires Discovered(disc) && DistinctPaths(disc) && Placed(disc, eff) && Coherent(t) && IngestBatch(t, eff, holds).Ok?
    requires i < j < |UriMerged(eff)| && CarriedOnto(t.rows, UriMerged(eff), i, j)
    ensures d in disc && Admitted(eff, d) && d.sourcePath !in IngestBatch(t, eff, holds).value.sources
  {
    MergedBatchSeparate(disc, eff);
    RecordsAfterIngest(t, eff, holds, i);
    var s;
    d, s := RecordOf(disc, eff, i);
  }

  /** A discovered capability behind the merged one. */
  lemma RecordOf(disc: seq<Capability>, eff: seq<Capability>, i: nat) returns (d: Capability, s: Source)
    requires Discovered(disc) && Placed(disc, eff) && i < |UriMerged(eff)|
    ensures s in SourceRecords(UriMerged(eff)[i]) && d in disc && Admitted(eff, d) && s == Own(d, d.sourcePath)
  {
    var uri := SortedSet(Tags(ByUri, eff))[i];
    UriMergedShape(eff);
    RecordsNonEmpty(UriMerged(eff)[i]);
    s :| s in SourceRecords(UriMerged(eff)[i]);
    ProvenanceExact(disc, eff, uri, s);
    d :| d in disc && EndsAt(eff, d, uri) && s == Own(d, d.sourcePath);
  }

  /**
   After an ingest that commits, every admitted discovered path is owned by a
   live row, with its kind, system and hash, if and only if no capability of the
   batch is carried over to the address of a later one.
   */
  lemma AdmittedPathsOwnedIff(disc: seq<Capability>, eff: seq<Capability>, t: Tables, holds: set<HoldKey>)
    requires Discovered(disc) && DistinctPaths(disc) && Placed(disc, eff) && Coherent(t) && IngestBatch(t, eff, holds).Ok?
    ensures AllPathsOwned(IngestBatch(t, eff, holds).value, disc, eff) <==> Uncontested(t.rows, UriMerged(eff))
  {
    var caps := UriMerged(eff);
    if Uncontested(t.rows, caps) {
      forall d | d in disc && Admitted(eff, d) ensures PathOwned(IngestBatch(t, eff, holds).value, d) {
        PathOwnedIfKept(disc, eff, t, holds, d);
      }
    } else {
      var i, j :| 0 <= i < j < |caps| && CarriedOnto(t.rows, caps, i, j);
      var d := PathLostIfContested(disc, eff, t, holds, i, j);
    }
  }

  // ---- a batch that loses a path ----

  /** The row of a sample promoted from `from` to `to`. */
  function PromotedRow(to: string, key: string, path: string, from: string): Capability
  {
    VaultPlaced(Sample(to, key, path), from)
  }

  /** Two capabilities refresh the only row, the first by carry-over, the second by its address. */
  lemma PairRefreshes(t: Tables, caps: seq<Capability>, u: string, holds: set<HoldKey>)
    requires |caps| == 2 && Less(caps[0].uri, caps[1].uri) && caps[1].uri == u
    requires !Conflicting(ListedProvenance(caps[0])) && !Conflicting(ListedProvenance(caps[1]))
    requires Keyed(t.rows, t.nextId) && t.rows.Keys == {u} && Pinned(t.rows[u].cap) && t.rows[u].cap.key == caps[0].key && t.refs == NoRefs
    ensures IngestBatch(t, caps, holds).Ok?
  {
    MergeOfTwo(caps);
    assert Landing(t, caps[0]) == u by { assert Owns(t.rows, u, caps[0].key); }
    RefreshKeepsOne(t, caps[0], u, holds);
    ThenRefreshes(t, caps, u, holds, Land(t, caps[0], holds).value);
    NoRefsAlwaysRetires(LandAll(t, caps, holds).value);
  }

  lemma ThenRefreshes(t: Tables, caps: seq<Capability>, u: string, holds: set<HoldKey>, t1: Tables)
    requires Keyed(t.rows, t.nextId) && |caps| == 2 && Land(t, caps[0], holds) == Ok(t1)
    requires Keyed(t1.rows, t1.nextId) && t1.rows.Keys == {u} && t1.refs == NoRefs && caps[1].uri == u && !Conflicting(ListedProvenance(caps[1]))
    ensures LandAll(t, caps, holds).Ok? && LandAll(t, caps, holds).value.refs == NoRefs
  {
    RefreshKeepsOne(t1, caps[1], u, holds);
    TwoTurns(t, caps, holds);
  }

  lemma RefreshKeepsOne(t: Tables, e: Capability, u: string, holds: set<HoldKey>)
    requires Keyed(t.rows, t.nextId) && t.rows.Keys == {u} && t.refs == NoRefs && Landing(t, e) == u && !Conflicting(ListedProvenance(e))
    ensures Land(t, e, holds).Ok?
    ensures var t1 := Land(t, e, holds).value;
      Keyed(t1.rows, t1.nextId) && t1.rows.Keys == {u} && t1.refs == NoRefs
  {
    RefreshesOnlyRow(t, e, u, holds);
    LandKeyed(t, e, holds);
    LandRefs(t, e, holds);
  }

  /**
   The source of a promoted capability is discovered again, together with a
   vault-placed capability at the promoted address, which sorts after it: the
   ingest commits and the first path is owned by nobody.
   */
  lemma CarriedOverPathLost(from: string, to: string, k: string, l: string, p: string, q: string)
    requires Namespaced(from) && Namespaced(to) && Less(from, to) && k != l && p != q && p != "" && q != ""
    ensures var t, batch := OneRow(PromotedRow(to, k, p, from)), [Sample(from, k, p), VaultPlaced(Sample(to, l, q), from)];
      IngestBatch(t, batch, {}).Ok? && p !in IngestBatch(t, batch, {}).value.sources
  {
    var t, batch := OneRow(PromotedRow(to, k, p, from)), [Sample(from, k, p), VaultPlaced(Sample(to, l, q), from)];
    SamplePair(from, to, k, l, p, q);
    PromotedAlone(t, from, to, k, p);
    assert batch[0].uri == from && batch[0].key == k && batch[0].sourcePath == p && batch[1].uri == to;
    FirstPathLost(t, batch);
  }

  lemma PromotedAlone(t: Tables, from: string, to: string, k: string, p: string)
    requires t == OneRow(PromotedRow(to, k, p, from)) && from != ""
    ensures t.rows.Keys == {to} && Pinned(t.rows[to].cap) && t.rows[to].cap.key == k
  {
  }

  /** The tables and the batch of that ingest are ones the registry can hold and discovery can hand over. */
  lemma CarriedOverInputs(from: string, to: string, k: string, l: string, p: string, q: string)
    requires k != l && p != q && p != "" && q != ""
    ensures Coherent(OneRow(PromotedRow(to, k, p, from)))
    ensures var batch := [Sample(from, k, p), VaultPlaced(Sample(to, l, q), from)];
      Discovered(batch) && DistinctPaths(batch) && Placed(batch, batch)
  {
    var batch := [Sample(from, k, p), VaultPlaced(Sample(to, l, q), from)];
    SamplePair(from, to, k, l, p, q);
    PairFilled(batch);
    PairPlaced(batch);
  }

  lemma SamplePair(from: string, to: string, k: string, l: string, p: string, q: string)
    requires k != l && p != q && p != "" && q != ""
    ensures LonePair([Sample(from, k, p), VaultPlaced(Sample(to, l, q), from)])
  {
    SampleLone(from, k, p, from);
    SampleLone(to, l, q, from);
  }

  /** The general case: the only row is an approved promotion of the first capability's key at the second's address. */
  lemma FirstPathLost(t: Tables, caps: seq<Capability>)
    requires LonePair(caps) && Less(caps[0].uri, caps[1].uri)
    requires Coherent(t) && t.rows.Keys == {caps[1].uri} && t.refs == NoRefs
    requires Pinned(t.rows[caps[1].uri].cap) && t.rows[caps[1].uri].cap.key == caps[0].key
    ensures IngestBatch(t, caps, {}).Ok? && caps[0].sourcePath !in IngestBatch(t, caps, {}).value.sources
  {
    OwnRecordOnly(caps[0]);
    OwnRecordOnly(caps[1]);
    PairRefreshes(t, caps, caps[1].uri, {});
    ContestedPair(t, caps);
  }

  lemma ContestedPair(t: Tables, caps: seq<Capability>)
    requires LonePair(caps) && Less(caps[0].uri, caps[1].uri)
    requires Coherent(t) && t.rows.Keys == {caps[1].uri} && IngestBatch(t, caps, {}).Ok?
    requires Pinned(t.rows[caps[1].uri].cap) && t.rows[caps[1].uri].cap.key == caps[0].key
    ensures caps[0].sourcePath !in IngestBatch(t, caps, {}).value.sources
  {
    PairApart(caps);
    MergeOfTwo(caps);
    assert CarriedOnto(t.rows, caps, 0, 1);
    OwnRecordOnly(caps[0]);
    LostWhenCarried(t, caps, {}, 0, 1, Own(caps[0], caps[0].sourcePath));
  }
}
