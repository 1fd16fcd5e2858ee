/**
 Whether every indexed capability is accounted for: under an active hold,
 released, or rejected.  Scans, releases and rejections keep this; an ingest
 keeps it under a condition on the tables and the batch, given here exactly.
 Vault placement may hand over capabilities that already claim to be promoted
 and approved, and rows may be approved promotions; nothing here excludes them.
 */
module Coverage {
  import opened Types
  import opened Model
  import opened MergePipeline
  import opened Catalog
  import opened Ingest
  import opened Origins
  import opened PathOwnership
  import opened Custody
  import Q = Quarantine

  /** An item for this tenant, URI and content hash is held or was released. */
  ghost predicate Settled(items: seq<Q.Item>, key: HoldKey)
  {
    Q.HasItem(items, key, Q.Quarantined) || Q.HasItem(items, key, Q.Released)
  }

  ghost predicate CoveredRow(c: Capability, items: seq<Q.Item>)
  {
    IsSystemOrDraft(c) || Settled(items, HoldKeyOf(c)) || c.gov.approvalState == "rejected"
  }

  ghost predicate Tenanted(rows: map<string, Row>)
  {
    forall u :: u in rows ==> rows[u].cap.tenant != ""
  }

  /** What placement hands to an ingest: each capability names its tenant and none is rejected, and merged keys and paths do not overlap. */
  ghost predicate OrdinaryBatch(batch: seq<Capability>)
  {
    (forall e :: e in batch ==> e.tenant != "" && e.gov.approvalState != "rejected") && Separate(UriMerged(batch))
  }

  ghost predicate OrdinaryStep(s: Step)
  {
    s.Discover? ==> OrdinaryBatch(s.batch)
  }

  ghost predicate Covered(w: World)
  {
    forall u :: u in w.tables.rows ==> CoveredRow(w.tables.rows[u].cap, w.desk.items)
  }

  /** What coverage means for one indexed capability: an active item, a release backed by a clean newest scan, or a rejection. */
  lemma AccountedFor(w: World, trust: Trust, u: string)
    requires Inv(w, trust) && Covered(w) && u in w.tables.rows && !IsSystemOrDraft(w.tables.rows[u].cap)
    ensures var c, items := w.tables.rows[u].cap, w.desk.items;
      || c.gov.approvalState == "rejected"
      || Q.HasItem(items, HoldKeyOf(c), Q.Quarantined)
      || exists i :: 0 <= i < |items| && items[i].key == HoldKeyOf(c) && items[i].status.Released? && Q.Backed(w.desk.attestations, i, items[i].key, trust)
  {
    var c, items := w.tables.rows[u].cap, w.desk.items;
    if Q.HasItem(items, HoldKeyOf(c), Q.Released) {
      var i :| 0 <= i < |items| && items[i].key == HoldKeyOf(c) && items[i].status == Q.Released;
      assert Q.ItemSound(w.desk.attestations, i, items[i], trust);
    }
  }

  // ---- scans, releases, rejections and further holds ----

  lemma SettledStays(items: seq<Q.Item>, items': seq<Q.Item>, key: HoldKey)
    requires items <= items' && Settled(items, key)
    ensures Settled(items', key)
  {
    if Q.HasItem(items, key, Q.Quarantined) {
      HasItemStays(items, items', key, Q.Quarantined);
    } else {
      HasItemStays(items, items', key, Q.Released);
    }
  }

  lemma GrownCovered(w: World, items: seq<Q.Item>)
    requires Covered(w) && w.desk.items <= items
    ensures forall u :: u in w.tables.rows ==> CoveredRow(w.tables.rows[u].cap, items)
  {
    forall u | u in w.tables.rows ensures CoveredRow(w.tables.rows[u].cap, items) {
      var c := w.tables.rows[u].cap;
      if Settled(w.desk.items, HoldKeyOf(c)) {
        SettledStays(w.desk.items, items, HoldKeyOf(c));
      }
    }
  }

  /** Changing item `id` matters only to its own key, and not even there unless it becomes rejected. */
  lemma SettledExcept(items: seq<Q.Item>, id: nat, item: Q.Item, key: HoldKey)
    requires id < |items| && item.key == items[id].key && Settled(items, key)
    requires key == item.key ==> !item.status.Rejected?
    ensures Settled(items[id := item], key)
  {
    var items' := items[id := item];
    var i :| 0 <= i < |items| && items[i].key == key && items[i].status in {Q.Quarantined, Q.Released};
    assert items'[i].key == key && items'[i].status in {Q.Quarantined, Q.Released};
  }

  lemma ReleaseCovered(w: World, id: nat, items: seq<Q.Item>)
    requires Covered(w) && Keyed(w.tables.rows, w.tables.nextId) && Tenanted(w.tables.rows) && id < |w.desk.items|
    requires items == w.desk.items[id := w.desk.items[id].(status := Q.Released)]
    ensures forall u :: u in w.tables.rows ==>
      CoveredRow(Flagged(w.tables.rows, items[id].key, "active", "published")[u].cap, items)
  {
    var key := items[id].key;
    var rows' := Flagged(w.tables.rows, key, "active", "published");
    assert Q.HasItem(items, key, Q.Released);
    forall u | u in w.tables.rows ensures CoveredRow(rows'[u].cap, items) {
      var c := w.tables.rows[u].cap;
      if Settled(w.desk.items, HoldKeyOf(c)) {
        SettledExcept(w.desk.items, id, items[id], HoldKeyOf(c));
      }
    }
  }

  lemma RejectCovered(w: World, id: nat, items: seq<Q.Item>)
    requires Covered(w) && Keyed(w.tables.rows, w.tables.nextId) && Tenanted(w.tables.rows) && id < |w.desk.items|
    requires items == w.desk.items[id := w.desk.items[id].(status := Q.Rejected)]
    ensures forall u :: u in w.tables.rows ==>
      CoveredRow(Flagged(w.tables.rows, items[id].key, "disabled", "rejected")[u].cap, items)
  {
    var key := items[id].key;
    var rows' := Flagged(w.tables.rows, key, "disabled", "rejected");
    forall u | u in w.tables.rows ensures CoveredRow(rows'[u].cap, items) {
      var c := w.tables.rows[u].cap;
      if HoldKeyOf(c) != key && Settled(w.desk.items, HoldKeyOf(c)) {
        SettledExcept(w.desk.items, id, items[id], HoldKeyOf(c));
      }
    }
  }

  lemma HoldCovered(w: World, key: HoldKey, reason: string)
    requires Covered(w) && Q.Place(w.desk, key, reason).Ok?
    ensures Covered(w.(desk := Q.Place(w.desk, key, reason).value))
  {
    GrownCovered(w, Q.Place(w.desk, key, reason).value.items);
  }

  lemma ScanCovered(w: World, s: Step)
    requires s.Scan? && Covered(w) && Q.Scanned(w.desk, s.id, s.tenant, s.scan, s.signature).Ok?
    ensures Covered(w.(desk := Q.Scanned(w.desk, s.id, s.tenant, s.scan, s.signature).value))
  {
    var items' := Q.Scanned(w.desk, s.id, s.tenant, s.scan, s.signature).value.items;
    assert items' == w.desk.items[s.id := items'[s.id]];
    forall u | u in w.tables.rows ensures CoveredRow(w.tables.rows[u].cap, items') {
      var c := w.tables.rows[u].cap;
      if Settled(w.desk.items, HoldKeyOf(c)) {
        SettledExcept(w.desk.items, s.id, items'[s.id], HoldKeyOf(c));
      }
    }
  }

  /** Every step but an ingest keeps coverage. */
  lemma DecisionCovered(w: World, s: Step, trust: Trust)
    requires Inv(w, trust) && Tenanted(w.tables.rows) && Covered(w) && !s.Discover?
    ensures Covered(Next(w, s, trust))
  {
    match s
    case Hold(key, reason) =>
      if Q.Place(w.desk, key, reason).Ok? { HoldCovered(w, key, reason); }
    case Scan(id, tenant, scan, signature) =>
      if Q.Scanned(w.desk, id, tenant, scan, signature).Ok? { ScanCovered(w, s); }
    case Release(id, tenant, policy, signature) =>
      var r := Q.ReleaseItem(w.desk, id, tenant, policy, signature, trust);
      if r.Ok? { ReleaseCovered(w, id, r.value.items); }
    case Reject(id, tenant, reasonGiven, signature) =>
      var r := Q.RejectItem(w.desk, id, tenant, reasonGiven, signature);
      if r.Ok? { RejectCovered(w, id, r.value.items); }
  }

  lemma FlaggedTenanted(rows: map<string, Row>, key: HoldKey, lifecycle: string, approval: string)
    requires Tenanted(rows)
    ensures Tenanted(Flagged(rows, key, lifecycle, approval))
  {
  }

  lemma DecisionTenanted(w: World, s: Step, trust: Trust)
    requires Inv(w, trust) && Tenanted(w.tables.rows) && !s.Discover?
    ensures Tenanted(Next(w, s, trust).tables.rows)
  {
    var key: HoldKey := if (s.Release? || s.Reject?) && s.id < |w.desk.items| then w.desk.items[s.id].key else ("", "", "");
    FlaggedTenanted(w.tables.rows, key, "active", "published");
    FlaggedTenanted(w.tables.rows, key, "disabled", "rejected");
  }

  // ---- ingest ----

  /** The key a hold on what is stored for capability `i` would have. */
  ghost function StoredKey(rows: map<string, Row>, caps: seq<Capability>, i: nat): HoldKey
    requires i < |caps|
  {
    (TenantOr(caps[i].tenant), Address(rows, caps, i), caps[i].hash)
  }

  /** Capability `i` ends up accounted for: settled where it is stored, or refreshing a row already rejected for the same content. */
  ghost predicate Safe(rows: map<string, Row>, caps: seq<Capability>, i: nat, items: seq<Q.Item>)
    requires i < |caps|
  {
    var origin := Origin(rows, caps, i);
    || IsSystemOrDraft(caps[i])
    || Settled(items, StoredKey(rows, caps, i))
    || (origin.Some? && RejectedAs(rows[origin.value].cap, caps[i].hash))
  }

  /** No later capability overwrites what is stored for `i`. */
  predicate Final(rows: map<string, Row>, caps: seq<Capability>, i: nat)
    requires i < |caps|
  {
    forall j :: i < j < |caps| ==> !CarriedOnto(rows, caps, i, j)
  }

  ghost predicate AllSafe(rows: map<string, Row>, caps: seq<Capability>, items: seq<Q.Item>)
  {
    forall i :: 0 <= i < |caps| && Final(rows, caps, i) ==> Safe(rows, caps, i, items)
  }

  /** The merged batch: distinct keys and URIs, tenants named, none rejected. */
  lemma MergedOrdinary(batch: seq<Capability>)
    requires OrdinaryBatch(batch)
    ensures Distinct(UriMerged(batch)) && NoneRejected(UriMerged(batch))
    ensures forall i :: 0 <= i < |UriMerged(batch)| ==> UriMerged(batch)[i].tenant != ""
  {
    SeparateDistinct(batch);
    var caps := UriMerged(batch);
    forall i | 0 <= i < |caps| ensures caps[i].tenant != "" && caps[i].gov.approvalState != "rejected" {
      var m := MergedMember(batch, i);
    }
  }

  lemma FinalIsLast(t: Tables, caps: seq<Capability>, holds: set<HoldKey>, i: nat)
    requires Keyed(t.rows, t.nextId) && LandAll(t, caps, holds).Ok? && Distinct(caps) && i < |caps|
    ensures Final(t.rows, caps, i) <==> LastAt(Landings(t, caps, holds), i)
  {
    RepeatedIff(t, caps, holds, i);
    LastIffNotRepeated(Landings(t, caps, holds), i);
  }

  lemma LastIffNotRepeated(ls: seq<string>, i: nat)
    requires i < |ls|
    ensures LastAt(ls, i) <==> ls[i] !in ls[i + 1..]
  {
    if !LastAt(ls, i) {
      var k :| i < k < |ls| && ls[k] == ls[i];
      assert ls[i + 1..][k - i - 1] == ls[i];
    }
  }

  lemma BatchRowCoveredIff(ts: seq<Tables>, caps: seq<Capability>, ls: seq<string>, holds: set<HoldKey>, i: nat, items: seq<Q.Item>)
    requires RowTrace(ts, caps, ls, holds) && Distinct(caps) && NoneRejected(caps) && i < |caps| && LastAt(ls, i)
    requires Keyed(ts[|caps|].rows, ts[|caps|].nextId)
    ensures ls[i] == Address(ts[0].rows, caps, i) && ls[i] in ts[|caps|].rows && ts[|caps|].rows[ls[i]].cap.tenant == caps[i].tenant
    ensures CoveredRow(ts[|caps|].rows[ls[i]].cap, items) <==> Safe(ts[0].rows, caps, i, items)
  {
    BatchRow(ts, caps, ls, holds, i);
  }

  /** The loop's states for a batch that commits, and that retirement changes no row it keeps. */
  lemma IngestRows(t: Tables, batch: seq<Capability>, holds: set<HoldKey>) returns (ts: seq<Tables>)
    requires Coherent(t) && IngestBatch(t, batch, holds).Ok?
    ensures RowTrace(ts, UriMerged(batch), Landings(t, UriMerged(batch), holds), holds) && ts[0] == t
    ensures ts[|UriMerged(batch)|] == LandAll(t, UriMerged(batch), holds).value && Coherent(ts[|UriMerged(batch)|])
    ensures forall u :: u in IngestBatch(t, batch, holds).value.rows ==>
      u in ts[|UriMerged(batch)|].rows && IngestBatch(t, batch, holds).value.rows[u] == ts[|UriMerged(batch)|].rows[u]
  {
    ts := RowTraceOf(t, UriMerged(batch), holds);
    LandAllCoherent(t, UriMerged(batch), holds);
    RetireRows(LandAll(t, UriMerged(batch), holds).value);
  }

  /** What a batch stores last at an address is in the catalog afterwards, and covered exactly when safe. */
  lemma FinalRow(t: Tables, batch: seq<Capability>, holds: set<HoldKey>, i: nat, items: seq<Q.Item>)
    requires Coherent(t) && OrdinaryBatch(batch) && IngestBatch(t, batch, holds).Ok? && i < |UriMerged(batch)| && Final(t.rows, UriMerged(batch), i)
    ensures var caps, rows' := UriMerged(batch), IngestBatch(t, batch, holds).value.rows;
      var u := Address(t.rows, caps, i);
      u in rows' && rows'[u].cap.tenant == caps[i].tenant && (CoveredRow(rows'[u].cap, items) <==> Safe(t.rows, caps, i, items))
  {
    var caps := UriMerged(batch);
    MergedOrdinary(batch);
    var ts := IngestRows(t, batch, holds);
    FinalIsLast(t, caps, holds, i);
    BatchRowCoveredIff(ts, caps, Landings(t, caps, holds), holds, i, items);
    RecordsAfterIngest(t, batch, holds, i);
  }

  /** Every other row is one from before. */
  lemma OtherRowIsOld(t: Tables, batch: seq<Capability>, holds: set<HoldKey>, u: string)
    requires Coherent(t) && OrdinaryBatch(batch) && IngestBatch(t, batch, holds).Ok? && u in IngestBatch(t, batch, holds).value.rows
    requires forall i :: 0 <= i < |UriMerged(batch)| && Final(t.rows, UriMerged(batch), i) ==> Address(t.rows, UriMerged(batch), i) != u
    ensures u in t.rows && IngestBatch(t, batch, holds).value.rows[u] == t.rows[u]
  {
    var caps := UriMerged(batch);
    var ls := Landings(t, caps, holds);
    MergedOrdinary(batch);
    var ts := IngestRows(t, batch, holds);
    forall i | 0 <= i < |caps| ensures ls[i] == Address(t.rows, caps, i) {
      LandingsComputed(t, caps, holds, i);
    }
    if TakenBefore(t.rows, caps, |caps|, u) {
      var j := LastLander(t.rows, caps, ls, |caps|, u);
      FinalIsLast(t, caps, holds, j);
      assert false;
    }
    UntakenAsBefore(ts, caps, ls, holds, u);
  }

  /** An ingest that commits leaves everything accounted for exactly when each capability it stores last is safe. */
  lemma IngestCoveredIff(w: World, batch: seq<Capability>, d: Q.Desk, trust: Trust)
    requires Inv(w, trust) && Covered(w) && OrdinaryBatch(batch) && w.desk.items <= d.items
    requires IngestBatch(w.tables, batch, ActiveKeys(d.items)).Ok?
    ensures Covered(World(IngestBatch(w.tables, batch, ActiveKeys(d.items)).value, d)) <==> AllSafe(w.tables.rows, UriMerged(batch), d.items)
  {
    var t, caps, holds := w.tables, UriMerged(batch), ActiveKeys(d.items);
    var rows' := IngestBatch(t, batch, holds).value.rows;
    forall i | 0 <= i < |caps| && Final(t.rows, caps, i)
      ensures Address(t.rows, caps, i) in rows'
      ensures CoveredRow(rows'[Address(t.rows, caps, i)].cap, d.items) <==> Safe(t.rows, caps, i, d.items)
    {
      FinalRow(t, batch, holds, i, d.items);
    }
    GrownCovered(w, d.items);
    if AllSafe(t.rows, caps, d.items) {
      forall u | u in rows' ensures CoveredRow(rows'[u].cap, d.items) {
        CoveredAfter(w, batch, d, u);
      }
    }
  }

  lemma CoveredAfter(w: World, batch: seq<Capability>, d: Q.Desk, u: string)
    requires Coherent(w.tables) && OrdinaryBatch(batch) && IngestBatch(w.tables, batch, ActiveKeys(d.items)).Ok?
    requires AllSafe(w.tables.rows, UriMerged(batch), d.items) && u in IngestBatch(w.tables, batch, ActiveKeys(d.items)).value.rows
    requires forall v :: v in w.tables.rows ==> CoveredRow(w.tables.rows[v].cap, d.items)
    ensures CoveredRow(IngestBatch(w.tables, batch, ActiveKeys(d.items)).value.rows[u].cap, d.items)
  {
    var t, caps, holds := w.tables, UriMerged(batch), ActiveKeys(d.items);
    if i :| 0 <= i < |caps| && Final(t.rows, caps, i) && Address(t.rows, caps, i) == u {
      FinalRow(t, batch, holds, i, d.items);
    } else {
      OtherRowIsOld(t, batch, holds, u);
    }
  }

  lemma IngestTenanted(t: Tables, batch: seq<Capability>, holds: set<HoldKey>)
    requires Coherent(t) && Tenanted(t.rows) && OrdinaryBatch(batch) && IngestBatch(t, batch, holds).Ok?
    ensures Tenanted(IngestBatch(t, batch, holds).value.rows)
  {
    var caps, rows' := UriMerged(batch), IngestBatch(t, batch, holds).value.rows;
    MergedOrdinary(batch);
    forall u | u in rows' ensures rows'[u].cap.tenant != "" {
      if i :| 0 <= i < |caps| && Final(t.rows, caps, i) && Address(t.rows, caps, i) == u {
        FinalRow(t, batch, holds, i, []);
      } else {
        OtherRowIsOld(t, batch, holds, u);
      }
    }
  }

  /** The ingest reaches the catalog and commits. */
  predicate Commits(w: World, batch: seq<Capability>)
    requires Keyed(w.tables.rows, w.tables.nextId)
  {
    var (d, ok) := QuarantineNew(w.desk, w.tables.rows, batch);
    ok && IngestBatch(w.tables, batch, ActiveKeys(d.items)).Ok?
  }

  /** What keeps coverage: nothing to check but for an ingest that commits. */
  ghost predicate SafeStep(w: World, s: Step)
    requires Keyed(w.tables.rows, w.tables.nextId)
  {
    s.Discover? && Commits(w, s.batch) ==> AllSafe(w.tables.rows, UriMerged(s.batch), QuarantineNew(w.desk, w.tables.rows, s.batch).0.items)
  }

  /** A step keeps coverage if and only if it is safe. */
  lemma NextCoveredIff(w: World, s: Step, trust: Trust)
    requires Inv(w, trust) && Tenanted(w.tables.rows) && Covered(w) && OrdinaryStep(s)
    ensures Covered(Next(w, s, trust)) <==> SafeStep(w, s)
    ensures Tenanted(Next(w, s, trust).tables.rows)
  {
    if s.Discover? {
      var d := QuarantineNew(w.desk, w.tables.rows, s.batch).0;
      QuarantineNewSound(w.desk, w.tables.rows, s.batch, trust);
      GrownCovered(w, d.items);
      if Commits(w, s.batch) {
        IngestCoveredIff(w, s.batch, d, trust);
        IngestTenanted(w.tables, s.batch, ActiveKeys(d.items));
      }
    } else {
      DecisionCovered(w, s, trust);
      DecisionTenanted(w, s, trust);
    }
  }

  /**
   The only ways to be unsafe: the capability is carried over to a promoted
   address, while the quarantine looked at its own; or its content is unchanged
   at its address, so exempt from quarantine, while the row there has just been
   moved away by the same batch, or was a system or draft row, or belonged to
   another tenant.
   */
  lemma UnsafeOnlyIf(w: World, batch: seq<Capability>, i: nat, trust: Trust)
    requires Inv(w, trust) && Covered(w) && QuarantineNew(w.desk, w.tables.rows, batch).1 && OrdinaryBatch(batch) && i < |UriMerged(batch)|
    ensures var rows, caps := w.tables.rows, UriMerged(batch);
      !Safe(rows, caps, i, QuarantineNew(w.desk, rows, batch).0.items) && Address(rows, caps, i) == caps[i].uri ==>
        && caps[i].uri in rows && rows[caps[i].uri].cap.hash == caps[i].hash
        && (Gone(rows, caps, i, caps[i].uri) || IsSystemOrDraft(rows[caps[i].uri].cap) || rows[caps[i].uri].cap.tenant != caps[i].tenant)
  {
    var rows, e := w.tables.rows, UriMerged(batch)[i];
    var items := QuarantineNew(w.desk, rows, batch).0.items;
    var m := MergedMember(batch, i);
    QuarantineNewSound(w.desk, rows, batch, trust);
    if !Exempt(rows, m) {
      QuarantinedBeforeIndexing(w.desk, rows, batch, trust, m);
    } else if !IsSystemOrDraft(e) && rows[e.uri].cap.tenant == e.tenant {
      if Settled(w.desk.items, HoldKeyOf(rows[e.uri].cap)) {
        SettledStays(w.desk.items, items, HoldKeyOf(e));
      }
    }
  }

  /**
   What such a capability becomes when its row was moved away and no other row
   had its key: it is stored with the governance it brings, approved and
   published if it was vault-placed, with no item for it held or released.
   */
  lemma StrayStoredAsGiven(w: World, batch: seq<Capability>, i: nat, trust: Trust)
    requires Inv(w, trust) && OrdinaryBatch(batch) && Commits(w, batch) && i < |UriMerged(batch)|
    requires Final(w.tables.rows, UriMerged(batch), i) && Origin(w.tables.rows, UriMerged(batch), i) == None
    requires !Safe(w.tables.rows, UriMerged(batch), i, QuarantineNew(w.desk, w.tables.rows, batch).0.items)
    ensures var e, w' := UriMerged(batch)[i], AfterIngest(w, batch);
      && e.uri in w'.tables.rows && w'.tables.rows[e.uri].cap.gov == e.gov && w'.tables.rows[e.uri].cap.hash == e.hash
      && !Settled(w'.desk.items, HoldKeyOf(e))
  {
    var caps, d := UriMerged(batch), QuarantineNew(w.desk, w.tables.rows, batch).0;
    var holds := ActiveKeys(d.items);
    MergedOrdinary(batch);
    NotSettledNotHeld(d.items, HoldKeyOf(caps[i]));
    var ts := IngestRows(w.tables, batch, holds);
    FinalIsLast(w.tables, caps, holds, i);
    BatchRow(ts, caps, Landings(w.tables, caps, holds), holds, i);
    FinalRow(w.tables, batch, holds, i, d.items);
  }

  lemma NotSettledNotHeld(items: seq<Q.Item>, key: HoldKey)
    requires !Settled(items, key)
    ensures key !in ActiveKeys(items)
  {
  }

  /** Unchanged rejected content at its address stays rejected through an ingest that does not move its row away. */
  lemma RejectionSurvives(t: Tables, batch: seq<Capability>, holds: set<HoldKey>, u: string)
    requires Coherent(t) && OrdinaryBatch(batch) && IngestBatch(t, batch, holds).Ok?
    requires u in t.rows && t.rows[u].cap.gov.approvalState == "rejected"
    requires u in IngestBatch(t, batch, holds).value.rows && IngestBatch(t, batch, holds).value.rows[u].cap.hash == t.rows[u].cap.hash
    requires forall i :: 0 <= i < |UriMerged(batch)| && UriMerged(batch)[i].uri == u ==> !Gone(t.rows, UriMerged(batch), i, u)
    ensures IngestBatch(t, batch, holds).value.rows[u].cap.gov.approvalState == "rejected"
  {
    var caps := UriMerged(batch);
    if j :| 0 <= j < |caps| && Final(t.rows, caps, j) && Address(t.rows, caps, j) == u {
      assert caps[j].uri == u;
      RejectedFinal(t, batch, holds, j);
    } else {
      OtherRowIsOld(t, batch, holds, u);
    }
  }

  /** A row stored last by the batch is rejected exactly when its origin was, for the same content. */
  lemma RejectedFinal(t: Tables, batch: seq<Capability>, holds: set<HoldKey>, j: nat)
    requires Coherent(t) && OrdinaryBatch(batch) && IngestBatch(t, batch, holds).Ok? && j < |UriMerged(batch)| && Final(t.rows, UriMerged(batch), j)
    ensures var caps, rows' := UriMerged(batch), IngestBatch(t, batch, holds).value.rows;
      var u, origin := Address(t.rows, caps, j), Origin(t.rows, caps, j);
      && u in rows' && rows'[u].cap.hash == caps[j].hash
      && (rows'[u].cap.gov.approvalState == "rejected" <==> origin.Some? && RejectedAs(t.rows[origin.value].cap, caps[j].hash))
  {
    var caps := UriMerged(batch);
    MergedOrdinary(batch);
    var ts := IngestRows(t, batch, holds);
    FinalIsLast(t, caps, holds, j);
    BatchRow(ts, caps, Landings(t, caps, holds), holds, j);
    RecordsAfterIngest(t, batch, holds, j);
  }

  // ---- whole runs ----

  ghost predicate OrdinarySteps(steps: seq<Step>)
  {
    forall s :: s in steps ==> OrdinaryStep(s)
  }

  ghost predicate SafeRun(w: World, steps: seq<Step>, trust: Trust)
    requires Inv(w, trust)
    decreases |steps|
  {
    steps == [] || (NextKeeps(w, steps[0], trust); SafeStep(w, steps[0]) && SafeRun(Next(w, steps[0], trust), steps[1..], trust))
  }

  /** Everything is accounted for in the state after each prefix of the run. */
  ghost predicate AlwaysCovered(w: World, steps: seq<Step>, trust: Trust)
    requires Inv(w, trust)
  {
    forall n :: 0 <= n <= |steps| ==> Covered(Run(w, steps[..n], trust))
  }

  lemma RunPrefix(w: World, steps: seq<Step>, trust: Trust, n: nat)
    requires Inv(w, trust) && n < |steps| && Inv(Next(w, steps[0], trust), trust)
    ensures Run(w, steps[..n + 1], trust) == Run(Next(w, steps[0], trust), steps[1..][..n], trust)
  {
    assert steps[..n + 1][0] == steps[0] && steps[..n + 1][1..] == steps[1..][..n];
  }

  lemma AlwaysCoveredStep(w: World, steps: seq<Step>, trust: Trust)
    requires Inv(w, trust) && steps != [] && Inv(Next(w, steps[0], trust), trust)
    ensures AlwaysCovered(w, steps, trust) <==> Covered(w) && AlwaysCovered(Next(w, steps[0], trust), steps[1..], trust)
  {
    var w1 := Next(w, steps[0], trust);
    assert steps[..0] == [] && Run(w, [], trust) == w;
    forall n | 0 <= n < |steps| ensures Run(w, steps[..n + 1], trust) == Run(w1, steps[1..][..n], trust) {
      RunPrefix(w, steps, trust, n);
    }
    if Covered(w) && AlwaysCovered(w1, steps[1..], trust) {
      forall m | 0 <= m <= |steps| ensures Covered(Run(w, steps[..m], trust)) {
        if m > 0 {
          assert Covered(Run(w1, steps[1..][..m - 1], trust));
        }
      }
    }
    if AlwaysCovered(w, steps, trust) {
      forall n | 0 <= n <= |steps[1..]| ensures Covered(Run(w1, steps[1..][..n], trust)) {
        assert Covered(Run(w, steps[..n + 1], trust));
      }
    }
  }

  /** Every indexed capability is accounted for in every state of a run if and only if each of its ingests is safe. */
  lemma {:induction false} RunCoveredIff(w: World, steps: seq<Step>, trust: Trust)
    requires Inv(w, trust) && Tenanted(w.tables.rows) && Covered(w) && OrdinarySteps(steps)
    ensures SafeRun(w, steps, trust) <==> AlwaysCovered(w, steps, trust)
    decreases |steps|
  {
    if steps == [] {
      assert steps[..0] == [] && Run(w, [], trust) == w;
    } else {
      var w1 := Next(w, steps[0], trust);
      NextKeeps(w, steps[0], trust);
      assert OrdinaryStep(steps[0]) && OrdinarySteps(steps[1..]);
      NextCoveredIff(w, steps[0], trust);
      AlwaysCoveredStep(w, steps, trust);
      if Covered(w1) {
        RunCoveredIff(w1, steps[1..], trust);
      } else {
        assert steps[1..][..0] == [] && Run(w1, [], trust) == w1;
      }
    }
  }
}
