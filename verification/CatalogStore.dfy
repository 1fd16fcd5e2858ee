/**
 The ingest writers of capmesh/index.py as they update the tables in place.
 An error leaves what was written before it; only `Transact`, which owns the
 transaction, rolls back.
 */
module CatalogStore {
  import opened Types
  import opened Text
  import opened Model
  import opened Merge
  import opened MergePipeline
  import opened Catalog
  import opened Ingest
  import opened Namespaces

  /** Nothing in `sources` disagrees with `expected`, and nothing else belongs to `uri`. */
  predicate SourcesMatch(sources: map<string, SourceRow>, uri: string, expected: map<string, SourceRow>)
  {
    (map p | p in sources && sources[p].uri == uri :: sources[p]) == expected
  }

  lemma MatchingSyncIsNoOp(sources: map<string, SourceRow>, uri: string, expected: map<string, SourceRow>)
    requires SourcesMatch(sources, uri, expected)
    ensures Sync(sources, uri, expected) == sources
  {
    var mine := map p | p in sources && sources[p].uri == uri :: sources[p];
    assert expected == mine;
  }

  /** The rows built so far come from the records seen so far. */
  ghost predicate Collected(c: Capability, m: map<string, SourceRow>, seen: set<Source>)
  {
    && (forall s :: s in seen ==> s.path in m && m[s.path] == SourceRow(c.uri, s.kind, s.system, s.hash))
    && (forall p :: p in m ==> exists s :: s in seen && s.path == p)
  }

  lemma CollectedConflict(c: Capability, m: map<string, SourceRow>, seen: set<Source>, s: Source)
    requires Collected(c, m, seen) && s.path in m && m[s.path] != SourceRow(c.uri, s.kind, s.system, s.hash) && s !in seen
    ensures Conflicting(seen + {s})
  {
    var r :| r in seen && r.path == s.path;
    assert r in seen + {s} && s in seen + {s};
  }

  lemma CollectedIsExpected(c: Capability, m: map<string, SourceRow>)
    requires !Conflicting(ListedProvenance(c)) && Collected(c, m, SourceRecords(c))
    ensures m == Expected(c)
  {
    var x := Expected(c);
    forall p ensures p in m <==> p in x {}
    forall p | p in m ensures m[p] == x[p] {
      var s :| s in SourceRecords(c) && s.path == p;
    }
  }

  /** `_capability_source_rows`: raises exactly on conflicting provenance. */
  method CapabilitySourceRows(c: Capability) returns (r: Result<map<string, SourceRow>, Error>)
    ensures r.Err? <==> Conflicting(ListedProvenance(c))
    ensures r.Ok? ==> r.value == Expected(c)
  {
    r := ListedRows(c);
    if r.Ok? {
      var m, paths := r.value, ListedPaths(c) + {c.sourcePath};
      var all := m + map p | p in paths && p !in m :: SourceRow(c.uri, c.sourceKind, c.sourceSystem, c.hash);
      OwnPathsCollected(c, all, m.Keys);
      CollectedIsExpected(c, all);
      r := Ok(all);
    }
  }

  /** The loop over the provenance records. */
  method ListedRows(c: Capability) returns (r: Result<map<string, SourceRow>, Error>)
    ensures r.Err? <==> Conflicting(ListedProvenance(c))
    ensures r.Ok? ==> Collected(c, r.value, ListedProvenance(c)) && r.value.Keys == Paths(ListedProvenance(c))
  {
    var m: map<string, SourceRow> := map[];
    var todo := ListedProvenance(c);
    ghost var seen: set<Source> := {};
    while todo != {}
      invariant todo + seen == ListedProvenance(c) && todo !! seen
      invariant Collected(c, m, seen) && !Conflicting(seen)
      decreases todo
    {
      var s :| s in todo;
      var record := SourceRow(c.uri, s.kind, s.system, s.hash);
      if s.path in m && m[s.path] != record {
        CollectedConflict(c, m, seen, s);
        assert seen + {s} <= ListedProvenance(c);
        return Err(ProvenanceConflict);
      }
      NoConflictAdded(c, m, seen, s);
      m := m[s.path := record];
      todo := todo - {s};
      seen := seen + {s};
    }
    assert seen == ListedProvenance(c);
    CollectedPaths(c, m, seen);
    r := Ok(m);
  }

  lemma CollectedPaths(c: Capability, m: map<string, SourceRow>, seen: set<Source>)
    requires Collected(c, m, seen)
    ensures m.Keys == Paths(seen)
  {
    forall p | p in m ensures p in Paths(seen) {
      var s :| s in seen && s.path == p;
    }
  }

  lemma NoConflictAdded(c: Capability, m: map<string, SourceRow>, seen: set<Source>, s: Source)
    requires Collected(c, m, seen) && !Conflicting(seen) && (s.path in m ==> m[s.path] == SourceRow(c.uri, s.kind, s.system, s.hash))
    ensures Collected(c, m[s.path := SourceRow(c.uri, s.kind, s.system, s.hash)], seen + {s}) && !Conflicting(seen + {s})
  {
    assert forall a, b :: a in seen && b in seen && a.path == b.path ==> a == b;
    forall p | p in m ensures exists x :: x in seen + {s} && x.path == p {
      var x :| x in seen && x.path == p;
      assert x in seen + {s};
    }
    assert s in seen + {s};
  }

  lemma OwnPathsCollected(c: Capability, m: map<string, SourceRow>, listed: set<string>)
    requires listed == Paths(ListedProvenance(c)) && m.Keys == listed + ListedPaths(c) + {c.sourcePath}
    requires forall s :: s in ListedProvenance(c) ==> m[s.path] == SourceRow(c.uri, s.kind, s.system, s.hash)
    requires forall p :: p in m && p !in listed ==> m[p] == SourceRow(c.uri, c.sourceKind, c.sourceSystem, c.hash)
    ensures Collected(c, m, SourceRecords(c))
  {
    forall p | p in m ensures exists s :: s in SourceRecords(c) && s.path == p {
      if p in listed {
        var s :| s in ListedProvenance(c) && s.path == p;
        assert s in SourceRecords(c);
      } else {
        assert Own(c, p) in SourceRecords(c);
      }
    }
  }

  datatype Tally = Tally(added: nat, updated: nat, same: nat)

  datatype Counts = Counts(tally: Tally, removed: nat)

  class Store {
    var rows: map<string, Row>
    var sources: map<string, SourceRow>
    var fts: map<nat, Fts>
    var nextId: nat
    var refs: Refs

    ghost function View(): Tables
      reads this
    {
      Tables(rows, sources, fts, nextId, refs)
    }

    constructor (t: Tables)
      ensures View() == t
    {
      rows, sources, fts, nextId, refs := t.rows, t.sources, t.fts, t.nextId, t.refs;
    }

    /** The source rows of one capability, written one path at a time and then trimmed. */
    method SyncSources(uri: string, expected: map<string, SourceRow>)
      requires forall p :: p in expected ==> expected[p].uri == uri
      modifies this`sources
      ensures sources == Sync(old(sources), uri, expected)
    {
      WriteSources(SortedSet(expected.Keys), expected);
      TrimmedOverlay(old(sources), uri, expected);
      sources := Trimmed(sources, uri, expected);
    }

    method WriteSources(paths: seq<string>, expected: map<string, SourceRow>)
      requires Elements(paths) == expected.Keys
      modifies this`sources
      ensures sources == Overlaid(old(sources), expected, expected.Keys)
    {
      for i := 0 to |paths|
        invariant sources == Overlaid(old(sources), expected, Elements(paths[..i]))
      {
        var p := paths[i];
        assert p in Elements(paths);
        OverlayOne(old(sources), expected, Elements(paths[..i]), p);
        assert Elements(paths[..i + 1]) == Elements(paths[..i]) + {p};
        if p !in sources || sources[p] != expected[p] {
          sources := sources[p := expected[p]];
        }
      }
      assert paths[..|paths|] == paths;
    }

    /** Source rows and index row after the capability row: written only where they differ from what they should be. */
    method SyncDerived(id: nat, c: Capability, changed: bool) returns (r: Result<nat, Error>)
      modifies this`sources, this`fts
      ensures Conflicting(ListedProvenance(c)) ==> r == Err(ProvenanceConflict)
      ensures !Conflicting(ListedProvenance(c)) ==> r == Ok(id)
      ensures r.Err? ==> sources == old(sources) && fts == old(fts)
      ensures r.Ok? ==> sources == Sync(old(sources), c.uri, Expected(c)) && fts == old(fts)[id := FtsOf(c)]
    {
      var expected := CapabilitySourceRows(c);
      if expected.Err? {
        return Err(ProvenanceConflict);
      }
      var ftsMatches := id in fts && fts[id] == FtsOf(c);
      var sourcesMatch := SourcesMatch(sources, c.uri, expected.value);
      if sourcesMatch {
        MatchingSyncIsNoOp(sources, c.uri, expected.value);
      }
      if !changed && ftsMatches && sourcesMatch {
        return Ok(id);
      }
      if !sourcesMatch {
        SyncSources(c.uri, expected.value);
      }
      if !ftsMatches {
        fts := fts[id := FtsOf(c)];
      }
      r := Ok(id);
    }

    /** `upsert_capability`: default placement first, then the writes. */
    method UpsertCapability(d: Defaults, c: Capability) returns (r: Result<nat, Error>)
      requires Keyed(rows, nextId)
      modifies this
      ensures var placed := ApplyDefaultUserNamespace(d, c);
        && (r.Err? ==> Upsert(old(View()), placed) == Err(r.error) && View() == UpsertFailed(old(View()), placed))
        && (r.Ok? ==> Upsert(old(View()), placed) == Ok(View()) && placed.uri in rows && r.value == rows[placed.uri].id)
    {
      r := UpsertPlaced(ApplyDefaultUserNamespace(d, c));
    }

    /** The writes alone; a capability that ingest hands over is placed already. */
    method UpsertPlaced(c: Capability) returns (r: Result<nat, Error>)
      requires Keyed(rows, nextId)
      modifies this
      ensures r.Err? ==> Upsert(old(View()), c) == Err(r.error) && View() == UpsertFailed(old(View()), c)
      ensures r.Ok? ==> Upsert(old(View()), c) == Ok(View()) && c.uri in rows && r.value == rows[c.uri].id
    {
      if exists u :: u in rows && u != c.uri && Owns(rows, u, c.key) {
        return Err(KeyConflict);
      }
      r := WriteAll(c);
    }

    method WriteAll(c: Capability) returns (r: Result<nat, Error>)
      requires Keyed(rows, nextId)
      modifies this
      ensures var row := StoredRow(old(View()), c);
        if Conflicting(ListedProvenance(c)) then r == Err(ProvenanceConflict) && View() == RowWritten(old(View()), c, row)
        else r == Ok(row.id) && View() == Put(old(View()), c, row)
    {
      ghost var t := View();
      var id, changed := WriteRow(c);
      r := SyncAfterRow(id, c, changed, t, rows[c.uri]);
    }

    /** The rest of the upsert once `row` has been stored for `c`. */
    method SyncAfterRow(id: nat, c: Capability, changed: bool, ghost t: Tables, ghost row: Row) returns (r: Result<nat, Error>)
      requires View() == RowWritten(t, c, row) && id == row.id
      modifies this`sources, this`fts
      ensures if Conflicting(ListedProvenance(c)) then r == Err(ProvenanceConflict) && View() == RowWritten(t, c, row)
              else r == Ok(id) && View() == Put(t, c, row)
    {
      r := SyncDerived(id, c, changed);
    }

    /** The lifecycle clamp and the INSERT ... ON CONFLICT DO UPDATE ... WHERE. */
    method WriteRow(c: Capability) returns (id: nat, changed: bool)
      requires Keyed(rows, nextId)
      modifies this`rows, this`nextId
      ensures rows == old(rows)[c.uri := StoredRow(old(View()), c)] && id == rows[c.uri].id
      ensures nextId == if c.uri in old(rows) then old(nextId) else old(nextId) + 1
      ensures changed <==> rows != old(rows)
    {
      if c.uri !in rows {
        id, changed := nextId, true;
        rows := rows[c.uri := Row(id, c)];
        nextId := nextId + 1;
      } else {
        var o := rows[c.uri];
        var n := Clamp(o.cap, c);
        NoOpSuppressionExact(o.cap, n);
        id, changed := o.id, WouldChange(o.cap, n);
        if changed {
          rows := rows[c.uri := Row(id, SetColumns(o.cap, n))];
        }
      }
    }

    method MigrateCanonicalUri(old_: string, new_: string) returns (r: Result<(), Error>)
      modifies this
      ensures old_ == new_ || old_ !in old(rows) ==> r.Ok? && View() == old(View())
      ensures old_ != new_ && old_ in old(rows) && new_ in old(rows) ==> r == Err(UriConflict)
      ensures old_ in old(rows) && new_ !in old(rows) ==>
        match Migrate(old(View()), old_, new_) case Err(x) => r == Err(x) case Ok(t) => r.Ok? && View() == t
    {
      if old_ == new_ || old_ !in rows {
        return Ok(());
      }
      sources := WithoutUri(sources, old_);
      if new_ in rows {
        return Err(UriConflict);
      }
      var row := rows[old_];
      rows := (rows - {old_})[new_ := row.(cap := row.cap.(uri := new_))];
      refs := refs.(shares := Renamed(refs.shares, old_, new_));
      refs := refs.(promotions := RenamedRequests(refs.promotions, old_, new_));
      if TupleWouldClash(refs, old_, new_) {
        return Err(TupleConflict);
      }
      refs := refs.(relations := (set x | x in refs.relations :: if x.resource == old_ then x.(resource := new_) else x));
      refs := refs.(decisions := Renamed(refs.decisions, old_, new_));
      r := Ok(());
    }

    /** `_delete_source_orphaned_capabilities` */
    method DeleteSourceOrphans() returns (r: Result<nat, Error>)
      requires Keyed(rows, nextId)
      modifies this
      ensures r.Err? ==> Retire(old(View())) == Err(r.error)
      ensures r.Ok? ==> Retire(old(View())) == Ok(View()) && r.value == |Orphans(old(View()))|
    {
      ghost var t := View();
      var orphans := set u | u in rows && !IsSystemOrDraft(rows[u].cap) && !HasSource(sources, u);
      OrphansSelected(t, orphans);
      var uris := SortedSet(orphans);
      SortedSetSorted(orphans);
      assert forall j :: 0 <= j < |uris| ==> uris[j] in Elements(uris);
      r := DeleteRows(uris);
      RetireIsDrop(t);
    }

    method DeleteRows(uris: seq<string>) returns (r: Result<nat, Error>)
      requires Keyed(rows, nextId) && NoDuplicates(uris) && forall j :: 0 <= j < |uris| ==> uris[j] in rows
      modifies this`rows, this`fts
      ensures r.Err? ==> r.error == Stranded && exists j :: 0 <= j < |uris| && Governed(refs, uris[j])
      ensures r.Ok? ==> r.value == |uris| && View() == Dropped(old(View()), Elements(uris))
      ensures r.Ok? ==> forall j :: 0 <= j < |uris| ==> !Governed(refs, uris[j])
    {
      for i := 0 to |uris|
        invariant forall j :: 0 <= j < i ==> !Governed(refs, uris[j])
        invariant rows == Dropped(old(View()), Elements(uris[..i])).rows && fts == Dropped(old(View()), Elements(uris[..i])).fts
      {
        var u := uris[i];
        if Governed(refs, u) {
          return Err(Stranded);
        }
        DropNext(old(View()), uris, i);
        DeleteRow(u);
      }
      assert uris[..|uris|] == uris;
      r := Ok(|uris|);
    }

    method DeleteRow(u: string)
      requires u in rows
      modifies this`rows, this`fts
      ensures rows == old(rows) - {u} && fts == old(fts) - {old(rows)[u].id}
    {
      fts := fts - {rows[u].id};
      rows := rows - {u};
    }

    /** The loop of `_upsert_discovered` and the retirement after it. */
    method UpsertDiscovered(batch: seq<Capability>, holds: set<HoldKey>) returns (r: Result<Counts, Error>)
      requires Keyed(rows, nextId)
      modifies this
      ensures r.Err? ==> IngestBatch(old(View()), batch, holds).Err?
      ensures r.Ok? ==> IngestBatch(old(View()), batch, holds) == Ok(View())
      ensures r.Ok? ==> r.value.tally == TallyOf(old(View()), UriMerged(batch), holds)
      ensures r.Ok? ==> r.value.removed == |Orphans(LandAll(old(View()), UriMerged(batch), holds).value)|
    {
      var merged := MergeByEffectiveUri(batch, false);
      var tally := LandEach(merged.value, holds);
      if tally.Err? {
        return Err(tally.error);
      }
      var removed := DeleteSourceOrphans();
      r := if removed.Err? then Err(removed.error) else Ok(Counts(tally.value, removed.value));
    }

    method LandEach(caps: seq<Capability>, holds: set<HoldKey>) returns (r: Result<Tally, Error>)
      requires Keyed(rows, nextId)
      modifies this
      ensures r.Err? ==> LandAll(old(View()), caps, holds).Err?
      ensures r.Ok? ==> LandAll(old(View()), caps, holds) == Ok(View()) && r.value == TallyOf(old(View()), caps, holds)
      ensures r.Ok? ==> Keyed(rows, nextId)
    {
      ghost var target, total := LandAll(View(), caps, holds), TallyOf(View(), caps, holds);
      var rest, tally := caps, Tally(0, 0, 0);
      while rest != []
        invariant Keyed(rows, nextId)
        invariant target == LandAll(View(), rest, holds) && total == Plus(tally, TallyOf(View(), rest, holds))
        decreases |rest|
      {
        var next := LandNext(rest, holds, tally);
        if next.Err? {
          return next;
        }
        rest, tally := rest[1..], next.value;
      }
      r := Ok(tally);
    }

    method LandNext(caps: seq<Capability>, holds: set<HoldKey>, tally: Tally) returns (r: Result<Tally, Error>)
      requires Keyed(rows, nextId) && caps != []
      modifies this
      ensures r.Err? ==> LandAll(old(View()), caps, holds).Err?
      ensures r.Ok? ==> Keyed(rows, nextId) && LandAll(old(View()), caps, holds) == LandAll(View(), caps[1..], holds)
      ensures r.Ok? ==> Plus(tally, TallyOf(old(View()), caps, holds)) == Plus(r.value, TallyOf(View(), caps[1..], holds))
    {
      ghost var before := View();
      var kind := LandOne(caps[0], holds);
      if kind.Err? {
        return Err(kind.error);
      }
      TurnTaken(before, caps, holds, View());
      TallyUnrolled(before, caps, holds, View(), kind.value);
      PlusShift(TallyOf(before, caps, holds), tally, One(kind.value), TallyOf(View(), caps[1..], holds));
      r := Ok(Plus(tally, One(kind.value)));
    }

    /** One turn of that loop. */
    method LandOne(e: Capability, holds: set<HoldKey>) returns (r: Result<Outcome, Error>)
      requires Keyed(rows, nextId)
      modifies this
      ensures r.Err? ==> Land(old(View()), e, holds).Err?
      ensures r.Ok? ==> Land(old(View()), e, holds) == Ok(View()) && r.value == OutcomeOf(old(View()), e)
    {
      ghost var t := View();
      var prev := if e.uri in rows then Some(e.uri) else KeyOwner(rows, nextId, e.key);
      var c := e;
      var kind := Added;
      if prev.Some? {
        var p := rows[prev.value].cap;
        if Pinned(p) {
          c := e.(uri := p.uri, submittedBy := p.submittedBy, promotedFrom := p.promotedFrom,
                  details := e.details.(storeId := p.details.storeId, namespaceId := p.details.namespaceId, visibility := p.details.visibility,
                                        discoveryMode := p.details.discoveryMode, owner := p.details.owner));
        }
        kind := if p.hash == c.hash then Unchanged else Updated;
        if prev.value != c.uri {
          var moved := MigrateCanonicalUri(prev.value, c.uri);
          if moved.Err? {
            return Err(moved.error);
          }
        }
      }
      assert c == Prepared(t, e) && Moved(t, e) == Ok(View());
      MovedKeyed(t, e);
      if HoldKeyOf(c) in holds {
        c := c.(gov := c.gov.(lifecycle := "draft", approvalState := "pending"));
      }
      var id := UpsertPlaced(c);
      r := if id.Err? then Err(id.error) else Ok(kind);
    }

    /** A whole ingest keeps the catalog coherent, whether it commits or rolls back. */
    method Ingest(batch: seq<Capability>, holds: set<HoldKey>) returns (r: Result<Counts, Error>)
      requires Coherent(View())
      modifies this
      ensures Coherent(View()) && (r.Ok? ==> AllSourced(View()))
    {
      ghost var before := View();
      r := Transact(batch, holds);
      if r.Ok? {
        IngestCoherent(before, batch, holds);
      }
    }

    /** `BEGIN IMMEDIATE` ... `commit`, or `rollback` when anything raised. */
    method Transact(batch: seq<Capability>, holds: set<HoldKey>) returns (r: Result<Counts, Error>)
      requires Keyed(rows, nextId)
      modifies this
      ensures r.Err? ==> IngestBatch(old(View()), batch, holds).Err? && View() == old(View())
      ensures r.Ok? ==> IngestBatch(old(View()), batch, holds) == Ok(View())
    {
      var saved := Tables(rows, sources, fts, nextId, refs);
      r := UpsertDiscovered(batch, holds);
      if r.Err? {
        Restore(saved);
      }
    }

    method Restore(t: Tables)
      modifies this
      ensures View() == t
    {
      rows, sources, fts, nextId, refs := t.rows, t.sources, t.fts, t.nextId, t.refs;
    }
  }

  datatype Outcome = Added | Updated | Unchanged

  function OutcomeOf(t: Tables, e: Capability): Outcome
    requires Keyed(t.rows, t.nextId)
  {
    var prev := Previous(t, e);
    if prev.None? then Added else if t.rows[prev.value].cap.hash == e.hash then Unchanged else Updated
  }

  /** The capability row is written before the provenance error is raised; a key conflict stops the row itself. */
  function RowWritten(t: Tables, c: Capability, row: Row): Tables
  {
    Tables(t.rows[c.uri := row], t.sources, t.fts, if c.uri in t.rows then t.nextId else t.nextId + 1, t.refs)
  }

  function UpsertFailed(t: Tables, c: Capability): Tables
    requires Keyed(t.rows, t.nextId)
  {
    if KeyTaken(t, c) then t else RowWritten(t, c, StoredRow(t, c))
  }

  function One(o: Outcome): Tally
  {
    match o
    case Added => Tally(1, 0, 0)
    case Updated => Tally(0, 1, 0)
    case Unchanged => Tally(0, 0, 1)
  }

  function Plus(a: Tally, b: Tally): Tally
  {
    Tally(a.added + b.added, a.updated + b.updated, a.same + b.same)
  }

  /** How many capabilities of the batch are new, changed and unchanged, each judged when its turn comes. */
  function TallyOf(t: Tables, caps: seq<Capability>, holds: set<HoldKey>): Tally
    requires Keyed(t.rows, t.nextId)
    decreases |caps|
  {
    if caps == [] then Tally(0, 0, 0)
    else match Land(t, caps[0], holds)
      case Err(_) => Tally(0, 0, 0)
      case Ok(t1) =>
        LandKeyed(t, caps[0], holds);
        Plus(One(OutcomeOf(t, caps[0])), TallyOf(t1, caps[1..], holds))
  }

  lemma TurnTaken(t: Tables, caps: seq<Capability>, holds: set<HoldKey>, t1: Tables)
    requires Keyed(t.rows, t.nextId) && caps != [] && Land(t, caps[0], holds) == Ok(t1)
    ensures Keyed(t1.rows, t1.nextId) && LandAll(t, caps, holds) == LandAll(t1, caps[1..], holds)
  {
    LandKeyed(t, caps[0], holds);
  }

  lemma PlusShift(whole: Tally, a: Tally, b: Tally, c: Tally)
    requires whole == Plus(b, c)
    ensures Plus(a, whole) == Plus(Plus(a, b), c)
  {
  }

  lemma TallyUnrolled(t: Tables, caps: seq<Capability>, holds: set<HoldKey>, t1: Tables, kind: Outcome)
    requires Keyed(t.rows, t.nextId) && caps != [] && Land(t, caps[0], holds) == Ok(t1) && kind == OutcomeOf(t, caps[0])
    requires Keyed(t1.rows, t1.nextId)
    ensures TallyOf(t, caps, holds) == Plus(One(kind), TallyOf(t1, caps[1..], holds))
  {
  }

  lemma {:induction false} TallyComplete(t: Tables, caps: seq<Capability>, holds: set<HoldKey>)
    requires Keyed(t.rows, t.nextId) && LandAll(t, caps, holds).Ok?
    ensures var n := TallyOf(t, caps, holds); n.added + n.updated + n.same == |caps|
    decreases |caps|
  {
    if caps != [] {
      LandKeyed(t, caps[0], holds);
      TallyComplete(Land(t, caps[0], holds).value, caps[1..], holds);
    }
  }

  ghost function Orphans(t: Tables): set<string>
  {
    set u | u in t.rows && Orphan(t, u)
  }

  lemma OrphansSelected(t: Tables, orphans: set<string>)
    requires orphans == set u | u in t.rows && !IsSystemOrDraft(t.rows[u].cap) && !HasSource(t.sources, u)
    ensures orphans == Orphans(t)
  {
  }

  lemma RetireIsDrop(t: Tables)
    ensures Retire(t) == if exists u :: u in Orphans(t) && Governed(t.refs, u) then Err(Stranded) else Ok(Dropped(t, Orphans(t)))
  {
    assert (set u | u in Orphans(t) && u in t.rows :: t.rows[u].id) == (set u | u in Orphans(t) :: t.rows[u].id);
  }

  /** The source table with the expected rows of the paths in `done` written over it. */
  ghost function Overlaid(sources: map<string, SourceRow>, expected: map<string, SourceRow>, done: set<string>): map<string, SourceRow>
  {
    sources + map p | p in expected && p in done :: expected[p]
  }

  lemma OverlayOne(sources: map<string, SourceRow>, expected: map<string, SourceRow>, done: set<string>, p: string)
    requires p in expected
    ensures Overlaid(sources, expected, done + {p}) == Overlaid(sources, expected, done)[p := expected[p]]
  {
  }

  /** `DELETE ... WHERE uri = ? AND source_path NOT IN (...)` */
  function Trimmed(sources: map<string, SourceRow>, uri: string, expected: map<string, SourceRow>): map<string, SourceRow>
  {
    map p | p in sources && !(sources[p].uri == uri && p !in expected) :: sources[p]
  }

  lemma TrimmedOverlay(sources: map<string, SourceRow>, uri: string, expected: map<string, SourceRow>)
    requires forall p :: p in expected ==> expected[p].uri == uri
    ensures Trimmed(Overlaid(sources, expected, expected.Keys), uri, expected) == Sync(sources, uri, expected)
  {
  }

  /** The tables without the rows in `gone` and their index entries. */
  ghost function Dropped(t: Tables, gone: set<string>): Tables
  {
    t.(rows := t.rows - gone, fts := t.fts - (set u | u in gone && u in t.rows :: t.rows[u].id))
  }

  lemma DropNext(t: Tables, uris: seq<string>, i: nat)
    requires Keyed(t.rows, t.nextId) && NoDuplicates(uris) && i < |uris| && uris[i] in t.rows
    ensures var d := Dropped(t, Elements(uris[..i]));
      && uris[i] in d.rows && d.rows[uris[i]] == t.rows[uris[i]]
      && Dropped(t, Elements(uris[..i + 1])) == d.(rows := d.rows - {uris[i]}, fts := d.fts - {t.rows[uris[i]].id})
  {
    assert uris[i] !in Elements(uris[..i]);
    assert Elements(uris[..i + 1]) == Elements(uris[..i]) + {uris[i]};
    DropOneMore(t, Elements(uris[..i]), uris[i]);
  }

  lemma DropOneMore(t: Tables, gone: set<string>, u: string)
    requires Keyed(t.rows, t.nextId) && u in t.rows && u !in gone
    ensures Dropped(t, gone + {u}) ==
      Dropped(t, gone).(rows := Dropped(t, gone).rows - {u}, fts := Dropped(t, gone).fts - {t.rows[u].id})
  {
    assert (t.rows - gone) - {u} == t.rows - (gone + {u});
    var ids := set v | v in gone && v in t.rows :: t.rows[v].id;
    assert (set v | v in gone + {u} && v in t.rows :: t.rows[v].id) == ids + {t.rows[u].id};
  }
}
