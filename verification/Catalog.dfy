/**
 The catalog tables and one ingest step on them (capmesh/index.py):
 `capabilities` keyed by URI, `capability_sources` keyed by path,
 `capability_fts` keyed by row id, and the URIs held by governance tables.
 */
module Catalog {
  import opened Types
  import opened Model

  datatype Row = Row(id: nat, cap: Capability)

  datatype SourceRow = SourceRow(uri: string, kind: string, system: string, hash: string)

  /** Governance rows by the URI they name: shares, promotion requests (with pending flag), tuples, policy decisions, capability-scoped role assignments not revoked. */
  datatype Refs = Refs(shares: seq<string>, promotions: seq<(string, bool)>, relations: set<Relation>, decisions: seq<string>, roles: seq<string>)

  datatype Tables = Tables(rows: map<string, Row>, sources: map<string, SourceRow>, fts: map<nat, Fts>, nextId: nat, refs: Refs)

  datatype Error = KeyConflict | UriConflict | ProvenanceConflict | TupleConflict | Stranded

  /** PRIMARY KEY and UNIQUE constraints of `capabilities`. */
  ghost predicate Keyed(rows: map<string, Row>, nextId: nat)
  {
    && (forall u :: u in rows ==> rows[u].cap.uri == u && rows[u].id < nextId)
    && (forall u, v :: u in rows && v in rows && (rows[u].id == rows[v].id || rows[u].cap.key == rows[v].cap.key) ==> u == v)
  }

  /** Every source row points at a live capability. */
  ghost predicate SourcesLive(rows: map<string, Row>, sources: map<string, SourceRow>)
  {
    forall p :: p in sources ==> sources[p].uri in rows
  }

  /** The row with id `n`. */
  ghost predicate HasId(rows: map<string, Row>, u: string, n: nat)
  {
    u in rows && rows[u].id == n
  }

  /** The index holds one row per capability, equal to its current fields; `stale` may lag behind. */
  ghost predicate IndexedExcept(rows: map<string, Row>, fts: map<nat, Fts>, stale: set<string>)
  {
    && (forall u :: u in rows && u !in stale ==> rows[u].id in fts && fts[rows[u].id] == FtsOf(rows[u].cap))
    && (forall n :: n in fts ==> exists u :: HasId(rows, u, n))
  }

  ghost predicate Coherent(t: Tables)
  {
    Keyed(t.rows, t.nextId) && SourcesLive(t.rows, t.sources) && IndexedExcept(t.rows, t.fts, {})
  }

  // ---- lookups ----

  predicate Owns(rows: map<string, Row>, u: string, key: string)
  {
    u in rows && rows[u].cap.key == key
  }

  /** `SELECT ... WHERE canonical_key = ?` */
  function KeyOwner(rows: map<string, Row>, ghost nextId: nat, key: string): (r: Option<string>)
    requires Keyed(rows, nextId)
    ensures r.Some? ==> Owns(rows, r.value, key)
    ensures r.None? ==> forall u :: !Owns(rows, u, key)
  {
    if exists u :: u in rows && Owns(rows, u, key) then
      var u :| u in rows && Owns(rows, u, key);
      Some(u)
    else None
  }

  /** The row an ingested capability refreshes: same URI, else same canonical key. */
  function Previous(t: Tables, e: Capability): Option<string>
    requires Keyed(t.rows, t.nextId)
  {
    if e.uri in t.rows then Some(e.uri) else KeyOwner(t.rows, t.nextId, e.key)
  }

  /** An approved promotion keeps its address and governance placement. */
  predicate Pinned(c: Capability)
  {
    Truthy(c.promotedFrom).Some? && c.gov.approvalState == "approved"
  }

  predicate CarriesOver(t: Tables, e: Capability)
    requires Keyed(t.rows, t.nextId)
  {
    var prev := Previous(t, e);
    prev.Some? && Pinned(t.rows[prev.value].cap)
  }

  function Landing(t: Tables, e: Capability): string
    requires Keyed(t.rows, t.nextId)
  {
    if CarriesOver(t, e) then Previous(t, e).value else e.uri
  }

  function Prepared(t: Tables, e: Capability): (c: Capability)
    requires Keyed(t.rows, t.nextId)
    ensures c.uri == Landing(t, e) && c.key == e.key && c.hash == e.hash && c.tenant == e.tenant && SourceRecords(c) == SourceRecords(e)
    ensures ListedProvenance(c) == ListedProvenance(e) && c.sourceKind == e.sourceKind && c.gov == e.gov
    ensures !CarriesOver(t, e) ==> c == e
  {
    if !CarriesOver(t, e) then e
    else
      var p := t.rows[Previous(t, e).value].cap;
      var c := e.(uri := p.uri, submittedBy := p.submittedBy, promotedFrom := p.promotedFrom,
                  details := e.details.(storeId := p.details.storeId, namespaceId := p.details.namespaceId, visibility := p.details.visibility,
                                        discoveryMode := p.details.discoveryMode, owner := p.details.owner));
      assert forall s :: Completed(c, s) == Completed(e, s);
      assert forall q :: Own(c, q) == Own(e, q);
      assert ListedProvenance(c) == ListedProvenance(e);
      assert SourceRecords(c) == SourceRecords(e);
      c
  }

  // ---- _migrate_canonical_uri ----

  function Renamed(s: seq<string>, old_: string, new_: string): seq<string>
  {
    seq(|s|, i requires 0 <= i < |s| => if s[i] == old_ then new_ else s[i])
  }

  function RenamedRequests(s: seq<(string, bool)>, old_: string, new_: string): seq<(string, bool)>
  {
    seq(|s|, i requires 0 <= i < |s| => if s[i].0 == old_ then (new_, s[i].1) else s[i])
  }

  function RenamedRefs(r: Refs, old_: string, new_: string): Refs
  {
    r.(shares := Renamed(r.shares, old_, new_),
       promotions := RenamedRequests(r.promotions, old_, new_),
       relations := (set x | x in r.relations :: if x.resource == old_ then x.(resource := new_) else x),
       decisions := Renamed(r.decisions, old_, new_))
  }

  predicate TupleWouldClash(r: Refs, old_: string, new_: string)
  {
    exists x :: x in r.relations && x.resource == old_ && x.(resource := new_) in r.relations
  }

  function WithoutUri(sources: map<string, SourceRow>, uri: string): map<string, SourceRow>
  {
    map p | p in sources && sources[p].uri != uri :: sources[p]
  }

  function Migrate(t: Tables, old_: string, new_: string): Result<Tables, Error>
    requires old_ in t.rows && new_ !in t.rows
  {
    if TupleWouldClash(t.refs, old_, new_) then Err(TupleConflict)
    else
      var row := t.rows[old_];
      Ok(t.(rows := (t.rows - {old_})[new_ := row.(cap := row.cap.(uri := new_))],
            sources := WithoutUri(t.sources, old_),
            refs := RenamedRefs(t.refs, old_, new_)))
  }

  // ---- upsert_capability ----

  lemma RecordsConsistent(c: Capability)
    requires !Conflicting(ListedProvenance(c))
    ensures !Conflicting(SourceRecords(c))
  {
    var listed := ListedProvenance(c);
    var covered := set s | s in listed :: s.path;
    assert forall s :: s in SourceRecords(c) ==> (s in listed <==> s.path in covered);
  }

  function RecordAt(records: set<Source>, path: string): (s: Source)
    requires !Conflicting(records) && exists s :: s in records && s.path == path
    ensures s in records && s.path == path
  {
    var s :| s in records && s.path == path;
    s
  }

  /** The rows `_capability_source_rows` returns, by path. */
  function Expected(c: Capability): (m: map<string, SourceRow>)
    requires !Conflicting(ListedProvenance(c))
    ensures forall s :: s in SourceRecords(c) ==> s.path in m && m[s.path] == SourceRow(c.uri, s.kind, s.system, s.hash)
    ensures forall p :: p in m ==> m[p].uri == c.uri && exists s :: s in SourceRecords(c) && s.path == p
    ensures m != map[]
  {
    RecordsConsistent(c);
    var records := SourceRecords(c);
    var m := map p | p in (set s | s in records :: s.path) :: (var s := RecordAt(records, p); SourceRow(c.uri, s.kind, s.system, s.hash));
    assert c.sourcePath in m by {
      var listed := ListedProvenance(c);
      if c.sourcePath !in (set s | s in listed :: s.path) {
        assert Own(c, c.sourcePath) in records;
      }
    }
    m
  }

  /** The source table after synchronising one capability: its rows are exactly the expected ones. */
  function Sync(sources: map<string, SourceRow>, uri: string, expected: map<string, SourceRow>): map<string, SourceRow>
  {
    WithoutUri(sources, uri) + expected
  }

  /** The stored row after the upsert: inserted, or updated where the WHERE clause lets the SET clause through. */
  function StoredRow(t: Tables, c: Capability): (r: Row)
    requires Keyed(t.rows, t.nextId)
    ensures r.cap.uri == c.uri && r.cap.key == c.key && r.cap.hash == c.hash && r.cap.tenant == c.tenant
    ensures FtsOf(r.cap) == FtsOf(c) && r.cap.sourceKind == c.sourceKind
    ensures r.id == if c.uri in t.rows then t.rows[c.uri].id else t.nextId
  {
    if c.uri in t.rows then
      var o := t.rows[c.uri].cap;
      NoOpSuppressionExact(o, Clamp(o, c));
      Row(t.rows[c.uri].id, Refreshed(o, c))
    else Row(t.nextId, c)
  }

  predicate KeyTaken(t: Tables, c: Capability)
  {
    exists u :: u in t.rows && u != c.uri && Owns(t.rows, u, c.key)
  }

  function Upsert(t: Tables, c: Capability): Result<Tables, Error>
    requires Keyed(t.rows, t.nextId)
  {
    if KeyTaken(t, c) then Err(KeyConflict)
    else if Conflicting(ListedProvenance(c)) then Err(ProvenanceConflict)
    else Ok(Put(t, c, StoredRow(t, c)))
  }

  /** The tables with `row` stored for `c`, and its source and index rows synchronised. */
  function Put(t: Tables, c: Capability, row: Row): Tables
    requires !Conflicting(ListedProvenance(c))
  {
    Tables(t.rows[c.uri := row], Sync(t.sources, c.uri, Expected(c)), t.fts[row.id := FtsOf(c)],
           if c.uri in t.rows then t.nextId else t.nextId + 1, t.refs)
  }

  // ---- one turn of the loop in _upsert_discovered ----

  type HoldKey = (string, string, string)   // tenant, URI, content hash

  function HoldKeyOf(c: Capability): HoldKey
  {
    (TenantOr(c.tenant), c.uri, c.hash)
  }

  /** A capability under an active quarantine hold is indexed as a pending draft. */
  function Held(c: Capability, holds: set<HoldKey>): Capability
  {
    if HoldKeyOf(c) in holds then c.(gov := c.gov.(lifecycle := "draft", approvalState := "pending")) else c
  }

  function Moved(t: Tables, e: Capability): Result<Tables, Error>
    requires Keyed(t.rows, t.nextId)
  {
    var prev := Previous(t, e);
    if prev.Some? && prev.value != Landing(t, e) then Migrate(t, prev.value, e.uri) else Ok(t)
  }

  lemma MovedKeyed(t: Tables, e: Capability)
    requires Keyed(t.rows, t.nextId) && Moved(t, e).Ok?
    ensures Keyed(Moved(t, e).value.rows, t.nextId) && Moved(t, e).value.nextId == t.nextId
  {
  }

  function Land(t: Tables, e: Capability, holds: set<HoldKey>): Result<Tables, Error>
    requires Keyed(t.rows, t.nextId)
  {
    match Moved(t, e)
    case Err(x) => Err(x)
    case Ok(t1) =>
      MovedKeyed(t, e);
      Upsert(t1, Held(Prepared(t, e), holds))
  }

  // ---- coherence ----

  lemma MigrateIndexed(t: Tables, old_: string, new_: string)
    requires Keyed(t.rows, t.nextId) && IndexedExcept(t.rows, t.fts, {}) && old_ in t.rows && new_ !in t.rows && Migrate(t, old_, new_).Ok?
    ensures IndexedExcept(Migrate(t, old_, new_).value.rows, Migrate(t, old_, new_).value.fts, {new_})
  {
    var t1 := Migrate(t, old_, new_).value;
    forall n | n in t1.fts ensures exists u :: HasId(t1.rows, u, n) {
      var u :| HasId(t.rows, u, n);
      assert HasId(t1.rows, if u == old_ then new_ else u, n);
    }
  }

  /** Migration alone leaves the moved row's index entry behind; everything else stays coherent. */
  lemma MigrateAlmostCoherent(t: Tables, old_: string, new_: string)
    requires Coherent(t) && old_ in t.rows && new_ !in t.rows && Migrate(t, old_, new_).Ok?
    ensures var t1 := Migrate(t, old_, new_).value;
      Keyed(t1.rows, t1.nextId) && SourcesLive(t1.rows, t1.sources) && IndexedExcept(t1.rows, t1.fts, {new_}) && t1.fts[t1.rows[new_].id] != FtsOf(t1.rows[new_].cap)
  {
    MigrateIndexed(t, old_, new_);
  }

  /** The id under which an upsert stores its row: the old one, or a fresh one. */
  ghost predicate FitsAt(t: Tables, u: string, row: Row)
  {
    && row.cap.uri == u
    && (if u in t.rows then row.id == t.rows[u].id else row.id == t.nextId)
    && forall v :: v in t.rows && v != u ==> t.rows[v].cap.key != row.cap.key
  }

  lemma PutKeyed(t: Tables, u: string, row: Row)
    requires Keyed(t.rows, t.nextId) && FitsAt(t, u, row)
    ensures Keyed(t.rows[u := row], if u in t.rows then t.nextId else t.nextId + 1)
    ensures forall v :: v in t.rows && v != u ==> t.rows[v].id != row.id
  {
  }

  lemma PutIndexed(t: Tables, u: string, row: Row)
    requires Keyed(t.rows, t.nextId) && FitsAt(t, u, row) && IndexedExcept(t.rows, t.fts, {u})
    ensures IndexedExcept(t.rows[u := row], t.fts[row.id := FtsOf(row.cap)], {})
  {
    PutKeyed(t, u, row);
    var rows, fts := t.rows[u := row], t.fts[row.id := FtsOf(row.cap)];
    forall n | n in fts ensures exists v :: HasId(rows, v, n) {
      if n == row.id {
        assert HasId(rows, u, n);
      } else {
        var v :| HasId(t.rows, v, n);
        assert HasId(rows, v, n);
      }
    }
  }

  lemma StoredRowFits(t: Tables, c: Capability)
    requires Keyed(t.rows, t.nextId) && !KeyTaken(t, c)
    ensures FitsAt(t, c.uri, StoredRow(t, c))
  {
    forall v | v in t.rows && v != c.uri ensures t.rows[v].cap.key != c.key {
      assert !Owns(t.rows, v, c.key);
    }
  }

  lemma UpsertKeyed(t: Tables, c: Capability)
    requires Keyed(t.rows, t.nextId) && Upsert(t, c).Ok?
    ensures Keyed(Upsert(t, c).value.rows, Upsert(t, c).value.nextId)
  {
    StoredRowFits(t, c);
    PutKeyed(t, c.uri, StoredRow(t, c));
  }

  lemma UpsertCoherent(t: Tables, c: Capability)
    requires Keyed(t.rows, t.nextId) && SourcesLive(t.rows, t.sources) && IndexedExcept(t.rows, t.fts, {c.uri}) && Upsert(t, c).Ok?
    ensures Coherent(Upsert(t, c).value)
  {
    UpsertKeyed(t, c);
    StoredRowFits(t, c);
    PutIndexed(t, c.uri, StoredRow(t, c));
    UpsertSourcesLive(t, c);
  }

  lemma UpsertSourcesLive(t: Tables, c: Capability)
    requires Keyed(t.rows, t.nextId) && SourcesLive(t.rows, t.sources) && Upsert(t, c).Ok?
    ensures SourcesLive(Upsert(t, c).value.rows, Upsert(t, c).value.sources)
  {
  }

  /** Whatever the capability, a turn of the loop that succeeds leaves keys, sources and index coherent. */
  lemma LandCoherent(t: Tables, e: Capability, holds: set<HoldKey>)
    requires Coherent(t) && Land(t, e, holds).Ok?
    ensures Coherent(Land(t, e, holds).value)
  {
    var t1 := Moved(t, e).value;
    MovedKeyed(t, e);
    var prev := Previous(t, e);
    if prev.Some? && prev.value != Landing(t, e) {
      MigrateAlmostCoherent(t, prev.value, e.uri);
    }
    UpsertCoherent(t1, Held(Prepared(t, e), holds));
  }
}
