/**
 What an ingest comes to as a whole (capmesh/index.py): when a turn of its loop
 raises, how the size of the catalog follows from the counters it reports, and
 what the retirement of source-less rows never touches.
 */
module IngestOutcome {
  import opened Types
  import opened Model
  import opened Namespaces
  import opened MergePipeline
  import opened Catalog
  import opened Ingest
  import opened CatalogStore

  // ---- when a turn raises ----

  /** The capability's own address is taken by one row and its canonical key by another. */
  ghost predicate KeyElsewhere(rows: map<string, Row>, e: Capability)
  {
    e.uri in rows && exists u :: u in rows && u != e.uri && rows[u].cap.key == e.key
  }

  /** Its row has to move, and one of the tuples that would move with it already exists at the new address. */
  ghost predicate TupleInTheWay(t: Tables, e: Capability)
  {
    && e.uri !in t.rows
    && exists u, x :: u in t.rows && t.rows[u].cap.key == e.key && !Pinned(t.rows[u].cap)
                      && x in t.refs.relations && x.resource == u && x.(resource := e.uri) in t.refs.relations
  }

  lemma MoveFailsIff(t: Tables, e: Capability)
    requires Keyed(t.rows, t.nextId)
    ensures Moved(t, e).Err? <==> TupleInTheWay(t, e)
  {
    var prev := Previous(t, e);
    if e.uri !in t.rows && prev.Some? {
      var u := prev.value;
      assert Owns(t.rows, u, e.key);
      assert forall v :: v in t.rows && t.rows[v].cap.key == e.key ==> v == u;
    } else if e.uri !in t.rows {
      assert forall v :: v in t.rows ==> !Owns(t.rows, v, e.key);
    }
  }

  lemma KeyTakenIff(t: Tables, e: Capability, c: Capability)
    requires Keyed(t.rows, t.nextId) && Moved(t, e).Ok? && c.uri == Landing(t, e) && c.key == e.key
    ensures KeyTaken(Moved(t, e).value, c) <==> KeyElsewhere(t.rows, e)
  {
    var t1 := Moved(t, e).value;
    MovedEffect(t, e);
    forall u ensures u != c.uri && Owns(t1.rows, u, c.key) <==> e.uri in t.rows && u in t.rows && u != e.uri && t.rows[u].cap.key == e.key {
      if e.uri !in t.rows && u in t.rows && u != c.uri {
        assert Previous(t, e).Some? ==> Owns(t.rows, Previous(t, e).value, e.key);
        assert Previous(t, e).None? ==> !Owns(t.rows, u, e.key);
      }
    }
  }

  /** A turn of the loop raises for three reasons only; whether the capability is held is none of them. */
  lemma TurnFailsIff(t: Tables, e: Capability, holds: set<HoldKey>)
    requires Keyed(t.rows, t.nextId)
    ensures Land(t, e, holds).Err? <==> TupleInTheWay(t, e) || KeyElsewhere(t.rows, e) || Conflicting(ListedProvenance(e))
  {
    MoveFailsIff(t, e);
    if Moved(t, e).Ok? {
      MovedKeyed(t, e);
      HeldRecords(Prepared(t, e), holds);
      KeyTakenIff(t, e, Held(Prepared(t, e), holds));
    }
  }

  // ---- the counters account for every row ----

  lemma RenamedSize(rows: map<string, Row>, old_: string, new_: string, row: Row)
    requires old_ in rows && new_ !in rows
    ensures |(rows - {old_})[new_ := row]| == |rows|
  {
    var renamed := (rows - {old_})[new_ := row];
    assert renamed.Keys == rows.Keys - {old_} + {new_};
    assert |renamed| == |renamed.Keys| && |rows| == |rows.Keys|;
  }

  lemma StoredSize(rows: map<string, Row>, u: string, row: Row)
    ensures |rows[u := row]| == |rows| + if u in rows then 0 else 1
  {
    var stored := rows[u := row];
    assert stored.Keys == rows.Keys + {u};
    assert |stored| == |stored.Keys| && |rows| == |rows.Keys|;
    if u in rows {
      assert stored.Keys == rows.Keys;
    }
  }

  lemma MovedSize(t: Tables, e: Capability)
    requires Keyed(t.rows, t.nextId) && Moved(t, e).Ok?
    ensures |Moved(t, e).value.rows| == |t.rows| && (Landing(t, e) in Moved(t, e).value.rows <==> Previous(t, e).Some?)
  {
    var prev := Previous(t, e);
    if prev.Some? && prev.value != Landing(t, e) {
      var row := t.rows[prev.value];
      RenamedSize(t.rows, prev.value, e.uri, row.(cap := row.cap.(uri := e.uri)));
    }
  }

  lemma UpsertSize(t: Tables, c: Capability)
    requires Keyed(t.rows, t.nextId) && Upsert(t, c).Ok?
    ensures |Upsert(t, c).value.rows| == |t.rows| + if c.uri in t.rows then 0 else 1
    ensures c.uri in Upsert(t, c).value.rows && Upsert(t, c).value.rows[c.uri].cap.hash == c.hash
  {
    StoredSize(t.rows, c.uri, StoredRow(t, c));
  }

  lemma TurnSize(t: Tables, e: Capability, holds: set<HoldKey>)
    requires Keyed(t.rows, t.nextId) && Land(t, e, holds).Ok?
    ensures |Land(t, e, holds).value.rows| == |t.rows| + if OutcomeOf(t, e) == Added then 1 else 0
    ensures Landing(t, e) in Land(t, e, holds).value.rows && Land(t, e, holds).value.rows[Landing(t, e)].cap.hash == e.hash
  {
    MovedKeyed(t, e);
    MovedSize(t, e);
    UpsertSize(Moved(t, e).value, Held(Prepared(t, e), holds));
  }

  lemma NewIff(t: Tables, e: Capability)
    requires Keyed(t.rows, t.nextId)
    ensures Previous(t, e).None? <==> e.uri !in t.rows && forall u :: u in t.rows ==> t.rows[u].cap.key != e.key
    ensures Previous(t, e).Some? ==> Refreshes(t, e, Previous(t, e).value)
  {
    var prev := Previous(t, e);
    if prev.None? {
      assert forall u :: u in t.rows ==> !Owns(t.rows, u, e.key);
    } else {
      assert prev.value == e.uri || Owns(t.rows, prev.value, e.key);
    }
  }

  /** `u` is the row the capability is found again at: its address, else its key's. */
  ghost predicate Refreshes(t: Tables, e: Capability, u: string)
  {
    u in t.rows && (u == e.uri || (e.uri !in t.rows && t.rows[u].cap.key == e.key))
  }

  /** What a turn reports: "added" for a capability known neither by address nor by key, else whether the stored content changed. */
  lemma TurnReports(t: Tables, e: Capability, holds: set<HoldKey>)
    requires Keyed(t.rows, t.nextId) && Land(t, e, holds).Ok?
    ensures OutcomeOf(t, e) == Added <==> e.uri !in t.rows && forall u :: u in t.rows ==> t.rows[u].cap.key != e.key
    ensures Landing(t, e) in Land(t, e, holds).value.rows
    ensures OutcomeOf(t, e) != Added ==>
      exists u :: Refreshes(t, e, u) && (OutcomeOf(t, e) == Unchanged <==> t.rows[u].cap.hash == Land(t, e, holds).value.rows[Landing(t, e)].cap.hash)
  {
    NewIff(t, e);
    TurnSize(t, e, holds);
  }

  lemma {:induction false} BatchSize(t: Tables, caps: seq<Capability>, holds: set<HoldKey>)
    requires Keyed(t.rows, t.nextId) && LandAll(t, caps, holds).Ok?
    ensures |LandAll(t, caps, holds).value.rows| == |t.rows| + TallyOf(t, caps, holds).added
    decreases |caps|
  {
    if caps != [] {
      var t1 := Land(t, caps[0], holds).value;
      LandKeyed(t, caps[0], holds);
      TurnSize(t, caps[0], holds);
      BatchSize(t1, caps[1..], holds);
    }
  }

  lemma RetiredSize(t: Tables)
    requires Retire(t).Ok?
    ensures |Retire(t).value.rows| + |Orphans(t)| == |t.rows|
  {
    var kept, gone := Retire(t).value.rows, Orphans(t);
    assert kept == t.rows - gone;
    assert gone <= t.rows.Keys && kept.Keys == t.rows.Keys - gone;
    assert |kept| == |kept.Keys| && |t.rows| == |t.rows.Keys|;
  }

  /** The report of an ingest adds up: rows afterwards are the rows before, plus those added, less those removed. */
  lemma CountersBalance(t: Tables, batch: seq<Capability>, holds: set<HoldKey>)
    requires Keyed(t.rows, t.nextId) && IngestBatch(t, batch, holds).Ok?
    ensures var landed := LandAll(t, UriMerged(batch), holds).value;
      |IngestBatch(t, batch, holds).value.rows| == |t.rows| + TallyOf(t, UriMerged(batch), holds).added - |Orphans(landed)|
  {
    var landed := LandAll(t, UriMerged(batch), holds).value;
    BatchSize(t, UriMerged(batch), holds);
    RetiredSize(landed);
  }

  // ---- retirement ----

  /** Found by no source, and neither built in nor a draft. */
  ghost predicate Sourceless(t: Tables, u: string)
  {
    && u in t.rows && t.rows[u].cap.sourceKind != "system_capability" && t.rows[u].cap.sourceKind != "capmesh_draft"
    && forall p :: p in t.sources ==> t.sources[p].uri != u
  }

  /** Somebody still relies on it: it is shared, waiting for promotion, named by a tuple or the scope of a role. */
  ghost predicate ReliedOn(r: Refs, u: string)
  {
    u in r.shares || (u, true) in r.promotions || (exists x :: x in r.relations && x.resource == u) || u in r.roles
  }

  lemma OrphanIff(t: Tables, u: string)
    ensures Orphan(t, u) <==> Sourceless(t, u)
  {
  }

  /** Retirement refuses exactly when it would remove something that is relied on; otherwise it removes exactly the source-less rows with their index entries. */
  lemma RetirementExact(t: Tables)
    ensures Retire(t).Err? <==> exists u :: Sourceless(t, u) && ReliedOn(t.refs, u)
    ensures Retire(t).Ok? ==> Retire(t).value.refs == t.refs && Retire(t).value.sources == t.sources && Retire(t).value.nextId == t.nextId
    ensures Retire(t).Ok? ==> forall u :: u in Retire(t).value.rows <==> u in t.rows && !Sourceless(t, u)
    ensures Retire(t).Ok? ==> forall u :: u in t.rows && ReliedOn(t.refs, u) ==> u in Retire(t).value.rows && Retire(t).value.rows[u] == t.rows[u]
  {
    forall u ensures Orphan(t, u) <==> Sourceless(t, u) ensures Governed(t.refs, u) <==> ReliedOn(t.refs, u) {
      OrphanIff(t, u);
    }
    if u :| Sourceless(t, u) && ReliedOn(t.refs, u) {
      assert u in (set v | v in t.rows && Orphan(t, v));
    }
  }

  // ---- default placement ----

  /** Hidden, protected, the default user's own, and neither approved nor live. */
  ghost predicate PrivateDraft(d: Defaults, c: Capability)
  {
    && c.details.visibility == "protected" && c.details.discoveryMode == "hidden" && c.details.owner == d.subject
    && c.details.createdBy == Some(d.subject) && c.details.storeId == Some(d.storeId(c.tenant)) && c.details.namespaceId == Some(d.namespaceId(c.tenant))
    && c.gov.approvalState !in {"approved", "published"} && c.gov.lifecycle !in {"active", "published"}
  }

  /** What has no namespace of its own becomes a private draft of the default user; what has one, and what is built in, keeps its governance and placement. */
  lemma PlacedPrivately(d: Defaults, c: Capability)
    ensures var p := ApplyDefaultUserNamespace(d, c);
      && p.key == c.key && p.hash == c.hash && p.sourcePath == c.sourcePath && p.sourceKind == c.sourceKind && p.sourceSystem == c.sourceSystem
      && p.details.name == c.details.name && p.details.title == c.details.title && p.details.description == c.details.description
      && p.metadata.sourceProvenance == c.metadata.sourceProvenance
      && (if System(c) || Namespaced(c.uri) then p.uri == c.uri && p.gov == c.gov && p.details == c.details else PrivateDraft(d, p))
  {
  }
}
