/**
 A whole ingest on the catalog tables: `_upsert_discovered` over the merged
 batch, then `_delete_source_orphaned_capabilities`.
 */
module Ingest {
  import opened Types
  import opened Text
  import opened Model
  import opened Merge
  import opened MergePipeline
  import opened Catalog

  lemma LandKeyed(t: Tables, e: Capability, holds: set<HoldKey>)
    requires Keyed(t.rows, t.nextId) && Land(t, e, holds).Ok?
    ensures Keyed(Land(t, e, holds).value.rows, Land(t, e, holds).value.nextId)
  {
    MovedKeyed(t, e);
    UpsertKeyed(Moved(t, e).value, Held(Prepared(t, e), holds));
  }

  /** The loop of `_upsert_discovered`. */
  function LandAll(t: Tables, caps: seq<Capability>, holds: set<HoldKey>): Result<Tables, Error>
    requires Keyed(t.rows, t.nextId)
    decreases |caps|
  {
    if caps == [] then Ok(t)
    else match Land(t, caps[0], holds)
      case Err(x) => Err(x)
      case Ok(t1) =>
        LandKeyed(t, caps[0], holds);
        LandAll(t1, caps[1..], holds)
  }

  /** The URIs at which the capabilities of the batch end up, in order. */
  function Landings(t: Tables, caps: seq<Capability>, holds: set<HoldKey>): (r: seq<string>)
    requires Keyed(t.rows, t.nextId) && LandAll(t, caps, holds).Ok?
    ensures |r| == |caps|
    decreases |caps|
  {
    if caps == [] then []
    else
      LandKeyed(t, caps[0], holds);
      [Landing(t, caps[0])] + Landings(Land(t, caps[0], holds).value, caps[1..], holds)
  }

  // ---- one turn, row by row and path by path ----

  /** The URI that loses its row to the landing, if any. */
  function MigratedFrom(t: Tables, e: Capability): Option<string>
    requires Keyed(t.rows, t.nextId)
  {
    var prev := Previous(t, e);
    if prev.Some? && prev.value != Landing(t, e) then prev else None
  }

  lemma MovedEffect(t: Tables, e: Capability)
    requires Keyed(t.rows, t.nextId) && Moved(t, e).Ok?
    ensures var t1, from := Moved(t, e).value, MigratedFrom(t, e);
      && (from.Some? ==> from.value in t.rows && t.rows[from.value].cap.key == e.key && Landing(t, e) == e.uri && e.uri !in t.rows)
      && (forall u :: u != Landing(t, e) ==> (u in t1.rows <==> u in t.rows && from != Some(u)))
      && (forall u :: u != Landing(t, e) && u in t1.rows ==> t1.rows[u] == t.rows[u])
      && (forall p :: p in t1.sources <==> p in t.sources && from != Some(t.sources[p].uri))
      && (forall p :: p in t1.sources ==> t1.sources[p] == t.sources[p])
  {
  }

  /** Rows after a turn: the landing carries the new key, the migrated row is gone, every other row is untouched. */
  lemma LandRows(t: Tables, e: Capability, holds: set<HoldKey>, u: string)
    requires Keyed(t.rows, t.nextId) && Land(t, e, holds).Ok?
    ensures var t', l := Land(t, e, holds).value, Landing(t, e);
      && l in t'.rows && t'.rows[l].cap.key == e.key
      && (u != l ==> (u in t'.rows <==> u in t.rows && MigratedFrom(t, e) != Some(u)))
      && (u != l && u in t'.rows ==> t'.rows[u] == t.rows[u])
  {
    MovedEffect(t, e);
    MovedKeyed(t, e);
  }

  /** Paths after a turn: the capability's records sit at its landing; others stay unless their row was refreshed or moved. */
  lemma LandSources(t: Tables, e: Capability, holds: set<HoldKey>, p: string)
    requires Keyed(t.rows, t.nextId) && Land(t, e, holds).Ok?
    ensures var t', l := Land(t, e, holds).value, Landing(t, e);
      && (forall s :: s in SourceRecords(e) && s.path == p ==> p in t'.sources && t'.sources[p] == SourceRow(l, s.kind, s.system, s.hash))
      && (p !in Paths(SourceRecords(e)) ==>
            (p in t'.sources <==> p in t.sources && t.sources[p].uri != l && MigratedFrom(t, e) != Some(t.sources[p].uri)))
      && (p !in Paths(SourceRecords(e)) && p in t'.sources ==> t'.sources[p] == t.sources[p])
  {
    MovedEffect(t, e);
    MovedKeyed(t, e);
    var c := Held(Prepared(t, e), holds);
    HeldRecords(Prepared(t, e), holds);
    var expected := Expected(c);
    if p !in Paths(SourceRecords(e)) {
      assert p !in expected;
    }
  }

  lemma HeldRecords(c: Capability, holds: set<HoldKey>)
    ensures SourceRecords(Held(c, holds)) == SourceRecords(c) && ListedProvenance(Held(c, holds)) == ListedProvenance(c)
  {
    var h := Held(c, holds);
    assert forall s :: Completed(h, s) == Completed(c, s);
    assert forall q :: Own(h, q) == Own(c, q);
    assert ListedProvenance(h) == ListedProvenance(c);
  }

  // ---- path ownership over the loop ----

  /** A live row other than the landing, with another key than the landing capability. */
  ghost predicate OtherRow(t: Tables, e: Capability, l: string, u: string)
  {
    u in t.rows && u != l && t.rows[u].cap.key != e.key
  }

  /** What one turn does to the rows and paths: `e` lands at `l`. */
  ghost predicate Turn(t: Tables, e: Capability, t': Tables, l: string)
  {
    && l in t'.rows && t'.rows[l].cap.key == e.key
    && (e.uri in t.rows ==> l == e.uri)
    && (l != e.uri ==> l in t.rows && t.rows[l].cap.key == e.key)
    && (forall u :: OtherRow(t, e, l, u) ==> u in t'.rows && t'.rows[u] == t.rows[u])
    && (forall s :: s in SourceRecords(e) ==> s.path in t'.sources && t'.sources[s.path] == SourceRow(l, s.kind, s.system, s.hash))
    && (forall p :: p !in Paths(SourceRecords(e)) && (p in t.sources ==> t.sources[p].uri == l) ==> p !in t'.sources)
    && (forall p :: p !in Paths(SourceRecords(e)) && p in t.sources && OtherRow(t, e, l, t.sources[p].uri) ==>
          p in t'.sources && t'.sources[p] == t.sources[p])
  }

  lemma LandTurn(t: Tables, e: Capability, holds: set<HoldKey>)
    requires Keyed(t.rows, t.nextId) && Land(t, e, holds).Ok?
    ensures Turn(t, e, Land(t, e, holds).value, Landing(t, e))
  {
    var t', l := Land(t, e, holds).value, Landing(t, e);
    MovedEffect(t, e);
    LandRows(t, e, holds, l);
    forall u | OtherRow(t, e, l, u) ensures u in t'.rows && t'.rows[u] == t.rows[u] {
      LandRows(t, e, holds, u);
    }
    forall s | s in SourceRecords(e) ensures s.path in t'.sources && t'.sources[s.path] == SourceRow(l, s.kind, s.system, s.hash) {
      LandSources(t, e, holds, s.path);
    }
    forall p | p !in Paths(SourceRecords(e))
      ensures (p in t.sources ==> t.sources[p].uri == l) ==> p !in t'.sources
      ensures p in t.sources && OtherRow(t, e, l, t.sources[p].uri) ==> p in t'.sources && t'.sources[p] == t.sources[p]
    {
      LandSources(t, e, holds, p);
    }
  }

  /** The states a batch runs through, one turn after another. */
  ghost predicate Trace(ts: seq<Tables>, caps: seq<Capability>, ls: seq<string>)
  {
    |ts| == |caps| + 1 && |ls| == |caps| && forall i :: 0 <= i < |caps| ==> Turn(ts[i], caps[i], ts[i + 1], ls[i])
  }

  lemma {:induction false} TraceOf(t: Tables, caps: seq<Capability>, holds: set<HoldKey>) returns (ts: seq<Tables>)
    requires Keyed(t.rows, t.nextId) && LandAll(t, caps, holds).Ok?
    ensures Trace(ts, caps, Landings(t, caps, holds)) && ts[0] == t && ts[|caps|] == LandAll(t, caps, holds).value
    decreases |caps|
  {
    if caps == [] {
      ts := [t];
    } else {
      var t1, l := FirstTurn(t, caps, holds);
      var rest := TraceOf(t1, caps[1..], holds);
      ts := Preceded(t, caps, l, rest, Landings(t1, caps[1..], holds), t1);
      assert ts[|caps|] == rest[|caps| - 1];
    }
  }

  lemma FirstTurn(t: Tables, caps: seq<Capability>, holds: set<HoldKey>) returns (t1: Tables, l: string)
    requires Keyed(t.rows, t.nextId) && LandAll(t, caps, holds).Ok? && caps != []
    ensures Turn(t, caps[0], t1, l) && Keyed(t1.rows, t1.nextId)
    ensures LandAll(t1, caps[1..], holds) == LandAll(t, caps, holds)
    ensures Landings(t, caps, holds) == [l] + Landings(t1, caps[1..], holds)
  {
    t1, l := Land(t, caps[0], holds).value, Landing(t, caps[0]);
    LandKeyed(t, caps[0], holds);
    LandTurn(t, caps[0], holds);
  }

  lemma Preceded(t: Tables, caps: seq<Capability>, l: string, rest: seq<Tables>, ls: seq<string>, t1: Tables) returns (ts: seq<Tables>)
    requires caps != [] && Trace(rest, caps[1..], ls) && t1 == rest[0] && Turn(t, caps[0], t1, l)
    ensures ts == [t] + rest && Trace(ts, caps, [l] + ls)
  {
    ts := [t] + rest;
    forall i | 0 <= i < |caps| ensures Turn(ts[i], caps[i], ts[i + 1], ([l] + ls)[i]) {
      if i > 0 {
        assert caps[i] == caps[1..][i - 1];
        assert Turn(rest[i - 1], caps[1..][i - 1], rest[i], ls[i - 1]);
      }
    }
  }

  /** No two capabilities of the batch share a canonical key or a source path. */
  ghost predicate Separate(caps: seq<Capability>)
  {
    forall i, j :: 0 <= i < j < |caps| ==> caps[i].key != caps[j].key && Paths(SourceRecords(caps[i])) !! Paths(SourceRecords(caps[j]))
  }

  /** From position `i` on, the batch mentions neither the key nor the path. */
  ghost predicate ForeignFrom(caps: seq<Capability>, i: nat, key: string, p: string)
  {
    forall k :: i <= k < |caps| ==> caps[k].key != key && p !in Paths(SourceRecords(caps[k]))
  }

  lemma {:induction false} PathStaysAbsent(ts: seq<Tables>, caps: seq<Capability>, ls: seq<string>, i: nat, key: string, p: string)
    requires Trace(ts, caps, ls) && i <= |caps| && p !in ts[i].sources && ForeignFrom(caps, i, key, p)
    ensures p !in ts[|caps|].sources
    decreases |caps| - i
  {
    if i < |caps| {
      assert Turn(ts[i], caps[i], ts[i + 1], ls[i]);
      PathStaysAbsent(ts, caps, ls, i + 1, key, p);
    }
  }

  /** A path the rest of the batch does not mention keeps its owner exactly when nothing later lands on that owner. */
  lemma {:induction false} OwnerKeptIff(ts: seq<Tables>, caps: seq<Capability>, ls: seq<string>, i: nat, u: string, p: string)
    requires Trace(ts, caps, ls) && i <= |caps|
    requires u in ts[i].rows && p in ts[i].sources && ts[i].sources[p].uri == u && ForeignFrom(caps, i, ts[i].rows[u].cap.key, p)
    ensures u !in ls[i..] ==> u in ts[|caps|].rows && p in ts[|caps|].sources && ts[|caps|].sources[p] == ts[i].sources[p]
    ensures u in ls[i..] ==> p !in ts[|caps|].sources
    decreases |caps| - i
  {
    if i < |caps| {
      assert Turn(ts[i], caps[i], ts[i + 1], ls[i]);
      assert ls[i..] == [ls[i]] + ls[i + 1..];
      if ls[i] == u {
        PathStaysAbsent(ts, caps, ls, i + 1, ts[i].rows[u].cap.key, p);
      } else {
        OwnerKeptIff(ts, caps, ls, i + 1, u, p);
      }
    }
  }

  /** The capability has a live row at `landing` that owns all its records. */
  ghost predicate OwnsRecords(t': Tables, landing: string, e: Capability)
  {
    landing in t'.rows &&
    forall s :: s in SourceRecords(e) ==> s.path in t'.sources && t'.sources[s.path] == SourceRow(landing, s.kind, s.system, s.hash)
  }

  /** The records of a capability survive the loop exactly when no later capability lands on its row. */
  lemma RecordsKeptIff(ts: seq<Tables>, caps: seq<Capability>, ls: seq<string>, j: nat)
    requires Trace(ts, caps, ls) && Separate(caps) && j < |caps|
    ensures OwnsRecords(ts[|caps|], ls[j], caps[j]) <==> ls[j] !in ls[j + 1..]
    ensures ls[j] in ls[j + 1..] ==> forall s :: s in SourceRecords(caps[j]) ==> s.path !in ts[|caps|].sources
  {
    var e, l := caps[j], ls[j];
    assert Turn(ts[j], e, ts[j + 1], l);
    forall s | s in SourceRecords(e)
      ensures s.path in ts[j + 1].sources && ts[j + 1].sources[s.path] == SourceRow(l, s.kind, s.system, s.hash)
      ensures l !in ls[j + 1..] ==> l in ts[|caps|].rows && s.path in ts[|caps|].sources && ts[|caps|].sources[s.path] == ts[j + 1].sources[s.path]
      ensures l in ls[j + 1..] ==> s.path !in ts[|caps|].sources
    {
      assert s.path in Paths(SourceRecords(e));
      OwnerKeptIff(ts, caps, ls, j + 1, l, s.path);
    }
    RecordsNonEmpty(e);
    var s0 :| s0 in SourceRecords(e);
  }

  lemma RecordsNonEmpty(c: Capability)
    ensures exists s :: s in SourceRecords(c)
  {
    var listed := ListedProvenance(c);
    if c.sourcePath in (set s | s in listed :: s.path) {
      var s :| s in listed && s.path == c.sourcePath;
      assert s in SourceRecords(c);
    } else {
      assert Own(c, c.sourcePath) in SourceRecords(c);
    }
  }

  lemma {:induction false} LandAllCoherent(t: Tables, caps: seq<Capability>, holds: set<HoldKey>)
    requires Coherent(t) && LandAll(t, caps, holds).Ok?
    ensures Coherent(LandAll(t, caps, holds).value)
    decreases |caps|
  {
    if caps != [] {
      LandCoherent(t, caps[0], holds);
      LandAllCoherent(Land(t, caps[0], holds).value, caps[1..], holds);
    }
  }

  // ---- _delete_source_orphaned_capabilities ----

  predicate HasSource(sources: map<string, SourceRow>, u: string)
  {
    exists p :: p in sources && sources[p].uri == u
  }

  predicate Orphan(t: Tables, u: string)
  {
    u in t.rows && !IsSystemOrDraft(t.rows[u].cap) && !HasSource(t.sources, u)
  }

  predicate Related(r: Refs, u: string)
  {
    exists x :: x in r.relations && x.resource == u
  }

  /** A share, pending promotion, tuple or scoped role names the URI. */
  predicate Governed(r: Refs, u: string)
  {
    u in r.shares || (u, true) in r.promotions || Related(r, u) || u in r.roles
  }

  function Retire(t: Tables): Result<Tables, Error>
  {
    var orphans := set u | u in t.rows && Orphan(t, u);
    if exists u :: u in orphans && Governed(t.refs, u) then Err(Stranded)
    else Ok(t.(rows := t.rows - orphans, fts := t.fts - (set u | u in orphans :: t.rows[u].id)))
  }

  /** Every live row that is neither system nor draft owns a path. */
  ghost predicate AllSourced(t: Tables)
  {
    forall u :: u in t.rows && !IsSystemOrDraft(t.rows[u].cap) ==> HasSource(t.sources, u)
  }

  lemma RetireRows(t: Tables)
    requires Retire(t).Ok?
    ensures forall u :: u in Retire(t).value.rows <==> u in t.rows && !Orphan(t, u)
    ensures forall u :: u in Retire(t).value.rows ==> Retire(t).value.rows[u] == t.rows[u]
    ensures Retire(t).value.sources == t.sources
  {
  }

  lemma DropIndexed(rows: map<string, Row>, fts: map<nat, Fts>, nextId: nat, gone: set<string>)
    requires Keyed(rows, nextId) && IndexedExcept(rows, fts, {}) && gone <= rows.Keys
    ensures IndexedExcept(rows - gone, fts - (set u | u in gone :: rows[u].id), {})
  {
    var ids := set u | u in gone :: rows[u].id;
    forall u | u in rows - gone ensures rows[u].id !in ids {}
    forall n | n in fts - ids ensures exists u :: HasId(rows - gone, u, n) {
      var u :| HasId(rows, u, n);
      assert HasId(rows - gone, u, n);
    }
  }

  /** Retiring orphans leaves exactly the sourced, system and draft rows, and a coherent catalog. */
  lemma RetireCoherent(t: Tables)
    requires Coherent(t) && Retire(t).Ok?
    ensures Coherent(Retire(t).value) && AllSourced(Retire(t).value)
    ensures forall u :: u in Retire(t).value.rows <==> u in t.rows && !Orphan(t, u)
    ensures Retire(t).value.sources == t.sources
  {
    RetireRows(t);
    DropIndexed(t.rows, t.fts, t.nextId, set u | u in t.rows && Orphan(t, u));
    forall p | p in t.sources ensures t.sources[p].uri in Retire(t).value.rows {
      assert HasSource(t.sources, t.sources[p].uri);
    }
  }

  // ---- the whole ingest ----

  function IngestBatch(t: Tables, batch: seq<Capability>, holds: set<HoldKey>): Result<Tables, Error>
    requires Keyed(t.rows, t.nextId)
  {
    match LandAll(t, UriMerged(batch), holds)
    case Err(x) => Err(x)
    case Ok(t1) => Retire(t1)
  }

  /** After every ingest that commits: unique keys, sources of live rows only, one matching index row per capability, no unsourced row. */
  lemma IngestCoherent(t: Tables, batch: seq<Capability>, holds: set<HoldKey>)
    requires Coherent(t) && IngestBatch(t, batch, holds).Ok?
    ensures Coherent(IngestBatch(t, batch, holds).value) && AllSourced(IngestBatch(t, batch, holds).value)
  {
    LandAllCoherent(t, UriMerged(batch), holds);
    RetireCoherent(LandAll(t, UriMerged(batch), holds).value);
  }

  lemma MergedBatchSeparate(disc: seq<Capability>, eff: seq<Capability>)
    requires Discovered(disc) && DistinctPaths(disc) && Placed(disc, eff)
    ensures Separate(UriMerged(eff))
  {
    var caps, uris := UriMerged(eff), SortedSet(Tags(ByUri, eff));
    UriMergedShape(eff);
    forall i, j | 0 <= i < j < |caps|
      ensures caps[i].key != caps[j].key && Paths(SourceRecords(caps[i])) !! Paths(SourceRecords(caps[j]))
    {
      assert caps[i] == Merged(ByUri, eff, uris[i]) && caps[j] == Merged(ByUri, eff, uris[j]) && uris[i] != uris[j];
      PairSeparate(disc, eff, uris[i], uris[j]);
    }
  }

  lemma PairSeparate(disc: seq<Capability>, eff: seq<Capability>, u: string, v: string)
    requires Discovered(disc) && DistinctPaths(disc) && Placed(disc, eff)
    requires u in Tags(ByUri, eff) && v in Tags(ByUri, eff) && u != v
    ensures var a, b := Merged(ByUri, eff, u), Merged(ByUri, eff, v);
      a.key != b.key && Paths(SourceRecords(a)) !! Paths(SourceRecords(b))
  {
    KeysApart(eff, u, v);
    forall p | p in Paths(SourceRecords(Merged(ByUri, eff, u))) ensures p !in Paths(SourceRecords(Merged(ByUri, eff, v))) {
      PathInOne(disc, eff, u, v, p);
    }
  }

  lemma KeysApart(eff: seq<Capability>, u: string, v: string)
    requires u in Tags(ByUri, eff) && v in Tags(ByUri, eff) && u != v
    requires forall e, f :: e in eff && f in eff && e.key == f.key ==> e == f
    ensures Merged(ByUri, eff, u).key != Merged(ByUri, eff, v).key
  {
    var e := MergedFrom(eff, u);
    var f := MergedFrom(eff, v);
  }

  lemma MergedFrom(eff: seq<Capability>, u: string) returns (e: Capability)
    requires u in Tags(ByUri, eff)
    ensures e in eff && e.uri == u && Merged(ByUri, eff, u).key == e.key
  {
    GroupNonEmpty(ByUri, eff, u);
    var g := Group(ByUri, eff, u);
    e := if |g| == 1 then g[0] else Winner(ByUri, g);
    assert e in g;
  }

  lemma PathInOne(disc: seq<Capability>, eff: seq<Capability>, u: string, v: string, p: string)
    requires Discovered(disc) && DistinctPaths(disc) && Placed(disc, eff)
    requires u in Tags(ByUri, eff) && v in Tags(ByUri, eff) && u != v && p in Paths(SourceRecords(Merged(ByUri, eff, u)))
    ensures p !in Paths(SourceRecords(Merged(ByUri, eff, v)))
  {
    var s :| s in SourceRecords(Merged(ByUri, eff, u)) && s.path == p;
    ProvenanceExact(disc, eff, u, s);
    var d :| d in disc && EndsAt(eff, d, u) && s == Own(d, d.sourcePath);
    var e :| e in eff && e.key == d.key && e.uri == u;
    ProvenanceConserved(disc, eff, d, e);
  }

  lemma NoneRepeatedLater(l: seq<string>)
    ensures NoDuplicates(l) <==> forall j :: 0 <= j < |l| ==> l[j] !in l[j + 1..]
  {
    if forall j :: 0 <= j < |l| ==> l[j] !in l[j + 1..] {
      forall i, j | 0 <= i < j < |l| ensures l[i] != l[j] {
        assert l[j] == l[i + 1..][j - i - 1];
      }
    }
  }

  lemma MergedAt(eff: seq<Capability>, uri: string) returns (j: nat)
    requires uri in Tags(ByUri, eff)
    ensures j < |UriMerged(eff)| && UriMerged(eff)[j] == Merged(ByUri, eff, uri)
  {
    var uris := SortedSet(Tags(ByUri, eff));
    UriMergedShape(eff);
    assert uri in Elements(uris);
    j :| 0 <= j < |uris| && uris[j] == uri;
  }

  /** A merged capability is one of its batch, but for the metadata. */
  lemma MergedMember(eff: seq<Capability>, i: nat) returns (w: Capability)
    requires i < |UriMerged(eff)|
    ensures w in eff && UriMerged(eff)[i] == w.(metadata := UriMerged(eff)[i].metadata)
  {
    UriMergedShape(eff);
    var uri := SortedSet(Tags(ByUri, eff))[i];
    GroupNonEmpty(ByUri, eff, uri);
    var g := Group(ByUri, eff, uri);
    w := if |g| == 1 then g[0] else Winner(ByUri, g);
    assert w in g;
  }

  // ---- what a migration leaves behind ----

  /** By which governance rows a URI is named: a share, a pending or decided promotion, a tuple, a policy decision, a scoped role. */
  datatype Mention = Mention(share: bool, pending: bool, decided: bool, tuple: bool, decision: bool, role: bool)

  ghost function Mentions(r: Refs, u: string): Mention
  {
    Mention(u in r.shares, (u, true) in r.promotions, (u, false) in r.promotions, Related(r, u), u in r.decisions, u in r.roles)
  }

  /** The mentions `u` has after every mention of `old_` but its roles became one of `new_`. */
  ghost function MovedMentions(r: Refs, old_: string, new_: string, u: string): Mention
  {
    var m, o := Mentions(r, u), Mentions(r, old_);
    if u == old_ then Mention(false, false, false, false, false, m.role)
    else if u == new_ then
      Mention(m.share || o.share, m.pending || o.pending, m.decided || o.decided, m.tuple || o.tuple, m.decision || o.decision, m.role)
    else m
  }

  /**
   A migration moves every share, promotion request, tuple and decision to the
   new address and nothing else; role assignments stay, so the old address is
   governed afterwards exactly when a role is scoped to it.
   */
  lemma MigrationStrandsRolesOnly(t: Tables, old_: string, new_: string, u: string)
    requires old_ in t.rows && new_ !in t.rows && Migrate(t, old_, new_).Ok?
    ensures Mentions(Migrate(t, old_, new_).value.refs, u) == MovedMentions(t.refs, old_, new_, u)
    ensures Governed(Migrate(t, old_, new_).value.refs, old_) <==> old_ in t.refs.roles
  {
    MentionsRenamed(t.refs, old_, new_, u);
    MentionsRenamed(t.refs, old_, new_, old_);
  }

  lemma MentionsRenamed(q: Refs, old_: string, new_: string, u: string)
    requires old_ != new_
    ensures Mentions(RenamedRefs(q, old_, new_), u) == MovedMentions(q, old_, new_, u)
  {
    RenamedHolds(q.shares, old_, new_, u);
    RenamedHolds(q.decisions, old_, new_, u);
    RenamedRequestsHold(q.promotions, old_, new_, u, true);
    RenamedRequestsHold(q.promotions, old_, new_, u, false);
    RenamedRelationsHold(q, old_, new_, u);
  }

  lemma RenamedHolds(s: seq<string>, old_: string, new_: string, u: string)
    requires old_ != new_
    ensures u in Renamed(s, old_, new_) <==> (u != old_ && u in s) || (u == new_ && old_ in s)
  {
    var r := Renamed(s, old_, new_);
    if u != old_ && u in s {
      var i :| 0 <= i < |s| && s[i] == u;
      assert r[i] == u;
    }
    if u == new_ && old_ in s {
      var i :| 0 <= i < |s| && s[i] == old_;
      assert r[i] == u;
    }
  }

  lemma RenamedRequestsHold(s: seq<(string, bool)>, old_: string, new_: string, u: string, pending: bool)
    requires old_ != new_
    ensures (u, pending) in RenamedRequests(s, old_, new_) <==> (u != old_ && (u, pending) in s) || (u == new_ && (old_, pending) in s)
  {
    var r := RenamedRequests(s, old_, new_);
    if u != old_ && (u, pending) in s {
      var i :| 0 <= i < |s| && s[i] == (u, pending);
      assert r[i] == (u, pending);
    }
    if u == new_ && (old_, pending) in s {
      var i :| 0 <= i < |s| && s[i] == (old_, pending);
      assert r[i] == (u, pending);
    }
  }

  lemma RenamedRelationsHold(q: Refs, old_: string, new_: string, u: string)
    requires old_ != new_
    ensures Related(RenamedRefs(q, old_, new_), u) <==> (u != old_ && Related(q, u)) || (u == new_ && Related(q, old_))
  {
    var r := RenamedRefs(q, old_, new_);
    if u == new_ && Related(q, old_) {
      var x :| x in q.relations && x.resource == old_;
      assert x.(resource := new_) in r.relations;
    }
  }
}
