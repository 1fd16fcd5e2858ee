/**
 Small inputs for the runs and batches that show a property failing: one or two
 capabilities as discovery and placement hand them over, and what ingest makes
 of so few.
 */
module Samples {
  import opened Types
  import opened Text
  import opened Model
  import opened Merge
  import opened MergePipeline
  import opened Catalog
  import opened Ingest

  function SampleSource(path: string): Source
  {
    Source(path, "skill", "codex.skills", "h")
  }

  /** A discovered skill in a user namespace, alone under its key. */
  function Sample(uri: string, key: string, path: string): Capability
  {
    Capability(uri, key, "asg", "h", path, "skill", "codex.skills",
      Details(None, None, "skill", "n", "1", "t", "d", "p", "e", "protected", "hidden", "o", None, None, [], [], [], [], "low", false, None, None, None),
      Metadata(Some({path}), Some({SampleSource(path)}), None, None, false, false, None, ""),
      Governance("draft", "draft", "not_shared", "unchecked", "unchecked", "pending"), None, None)
  }

  /** The same capability as vault placement files it: promoted, approved, published, shared. */
  function VaultPlaced(c: Capability, from: string): Capability
  {
    c.(details := c.details.(visibility := "internal", discoveryMode := "public", owner := "asg-platform"), promotedFrom := Some(from),
       gov := c.gov.(approvalState := "approved", lifecycle := "published", shareState := "shared"))
  }

  /** A capability that lists its own path as its only record, as the key merge leaves a capability alone under its key. */
  ghost predicate Lone(c: Capability)
  {
    Lists(c, {Own(c, c.sourcePath)})
  }

  lemma SampleLone(uri: string, key: string, path: string, from: string)
    requires path != ""
    ensures Lone(Sample(uri, key, path)) && Lone(VaultPlaced(Sample(uri, key, path), from))
  {
    assert Paths({SampleSource(path)}) == {path};
  }

  lemma OwnRecordOnly(c: Capability)
    requires Lone(c)
    ensures SourceRecords(c) == ListedProvenance(c) == {Own(c, c.sourcePath)} && Paths(SourceRecords(c)) == {c.sourcePath}
    ensures !Conflicting(ListedProvenance(c))
  {
    ListedRecords(c, {Own(c, c.sourcePath)});
  }

  // ---- merges of one or two ----

  lemma MergeOfOne(caps: seq<Capability>)
    requires |caps| == 1
    ensures UriMerged(caps) == caps
  {
    var e := caps[0];
    forall u ensures u in Tags(ByUri, caps) <==> u == e.uri {
      assert e in caps && Tag(ByUri, e) == e.uri;
    }
    SortedSetSorted(Tags(ByUri, caps));
    assert Elements([e.uri]) == Tags(ByUri, caps);
    StrictlySortedUnique(SortedSet(Tags(ByUri, caps)), [e.uri]);
    GroupEmpty(ByUri, caps[1..], e.uri);
    assert Group(ByUri, caps, e.uri) == [e];
    UriMergedUnique(caps, caps);
  }

  lemma TagsOfTwo(caps: seq<Capability>)
    requires |caps| == 2 && Less(caps[0].uri, caps[1].uri)
    ensures SortedSet(Tags(ByUri, caps)) == [caps[0].uri, caps[1].uri]
  {
    var tags, uris := Tags(ByUri, caps), [caps[0].uri, caps[1].uri];
    forall u ensures u in tags <==> u in Elements(uris) {
      assert u in tags ==> exists c :: c in caps && Tag(ByUri, c) == u;
      assert caps[0] in caps && caps[1] in caps;
      assert u in uris <==> u == caps[0].uri || u == caps[1].uri;
    }
    assert tags == Elements(uris);
    SortedSetSorted(tags);
    StrictlySortedUnique(SortedSet(tags), uris);
  }

  lemma GroupsOfTwo(stage: Stage, caps: seq<Capability>)
    requires |caps| == 2 && Tag(stage, caps[0]) != Tag(stage, caps[1])
    ensures Group(stage, caps, Tag(stage, caps[0])) == [caps[0]] && Group(stage, caps, Tag(stage, caps[1])) == [caps[1]]
  {
    var rest := caps[1..];
    GroupEmpty(stage, rest, Tag(stage, caps[0]));
    GroupEmpty(stage, rest[1..], Tag(stage, caps[1]));
    assert Group(stage, rest, Tag(stage, caps[1])) == [caps[1]];
  }

  lemma LoneMerged(caps: seq<Capability>, e: Capability)
    requires e in caps && Group(ByUri, caps, e.uri) == [e]
    ensures e.uri in Tags(ByUri, caps) && Merged(ByUri, caps, e.uri) == e
  {
    assert Tag(ByUri, e) in Tags(ByUri, caps);
  }

  lemma InOrderOfTwo(caps: seq<Capability>, uris: seq<string>)
    requires |caps| == 2 && caps[0].uri != caps[1].uri && uris == [caps[0].uri, caps[1].uri]
    ensures MergedInOrder(ByUri, caps, uris, caps)
  {
    GroupsOfTwo(ByUri, caps);
    forall j | 0 <= j < 2 ensures uris[j] in Tags(ByUri, caps) && caps[j] == Merged(ByUri, caps, uris[j]) {
      assert uris[j] == caps[j].uri;
      LoneMerged(caps, caps[j]);
    }
  }

  lemma MergeOfTwo(caps: seq<Capability>)
    requires |caps| == 2 && Less(caps[0].uri, caps[1].uri)
    ensures UriMerged(caps) == caps
  {
    TagsOfTwo(caps);
    InOrderOfTwo(caps, [caps[0].uri, caps[1].uri]);
    UriMergedUnique(caps, caps);
  }

  // ---- what discovery promises of them ----

  lemma LoneKept(disc: seq<Capability>, c: Capability)
    requires Lone(c) && c in disc && Group(ByKey, disc, c.key) == [c]
    ensures c.key in Tags(ByKey, disc) && Kept(Merged(ByKey, disc, c.key), c)
  {
    assert Tag(ByKey, c) in Tags(ByKey, disc);
    SingleMerged([c]);
  }

  lemma SingleMerged(g: seq<Capability>)
    requires |g| == 1
    ensures MergeGroup(ByKey, g) == g[0].(metadata := MergeMetadata(ByKey, g))
    ensures MergeGroup(ByKey, g).metadata.sourceProvenance == Some({Own(g[0], g[0].sourcePath)})
    ensures MergeGroup(ByKey, g).metadata.sourcePaths == Some(Paths({Own(g[0], g[0].sourcePath)}))
  {
    MergeGroupMetadata(ByKey, g);
    forall d | d in g ensures d == g[0] {}
    assert g[0] in g;
    assert KeyProvenance(g) == {Own(g[0], g[0].sourcePath)};
  }

  ghost predicate LonePair(caps: seq<Capability>)
  {
    |caps| == 2 && Lone(caps[0]) && Lone(caps[1]) && caps[0].key != caps[1].key && caps[0].sourcePath != caps[1].sourcePath
  }

  lemma LoneFilled(c: Capability)
    requires Lone(c)
    ensures c.sourcePath != "" && c.sourceKind != "" && c.sourceSystem != "" && c.hash != ""
  {
    assert Own(c, c.sourcePath) in {Own(c, c.sourcePath)};
  }

  lemma PairPlaced(caps: seq<Capability>)
    requires LonePair(caps)
    ensures Placed(caps, caps)
  {
    GroupsOfTwo(ByKey, caps);
    forall e | e in caps ensures e.key in Tags(ByKey, caps) && Kept(Merged(ByKey, caps, e.key), e) {
      assert e == caps[0] || e == caps[1];
      LoneKept(caps, e);
    }
  }

  lemma PairFilled(caps: seq<Capability>)
    requires LonePair(caps)
    ensures Discovered(caps) && DistinctPaths(caps)
  {
    LoneFilled(caps[0]);
    LoneFilled(caps[1]);
    forall c | c in caps ensures c == caps[0] || c == caps[1] {}
  }

  lemma PairApart(caps: seq<Capability>)
    requires LonePair(caps)
    ensures Separate(caps)
  {
    OwnRecordOnly(caps[0]);
    OwnRecordOnly(caps[1]);
    forall i, j | 0 <= i < j < |caps| ensures caps[i].key != caps[j].key && Paths(SourceRecords(caps[i])) !! Paths(SourceRecords(caps[j])) {
      assert i == 0 && j == 1;
    }
  }

  // ---- few rows ----

  lemma LastTurn(t: Tables, caps: seq<Capability>, holds: set<HoldKey>)
    requires Keyed(t.rows, t.nextId) && |caps| == 1
    ensures LandAll(t, caps, holds) == Land(t, caps[0], holds)
  {
    if Land(t, caps[0], holds).Ok? {
      LandKeyed(t, caps[0], holds);
      assert LandAll(Land(t, caps[0], holds).value, caps[1..], holds) == Ok(Land(t, caps[0], holds).value);
    }
  }

  lemma TwoTurns(t: Tables, caps: seq<Capability>, holds: set<HoldKey>)
    requires Keyed(t.rows, t.nextId) && |caps| == 2 && Land(t, caps[0], holds).Ok?
    requires Keyed(Land(t, caps[0], holds).value.rows, Land(t, caps[0], holds).value.nextId)
    ensures LandAll(t, caps, holds) == Land(Land(t, caps[0], holds).value, caps[1], holds)
  {
    LastTurn(Land(t, caps[0], holds).value, caps[1..], holds);
  }

  const NoRefs := Refs([], [], {}, [], [])

  lemma NoRefsAlwaysRetires(t: Tables)
    requires t.refs == NoRefs
    ensures Retire(t).Ok?
  {
  }

  lemma LandRefs(t: Tables, e: Capability, holds: set<HoldKey>)
    requires Keyed(t.rows, t.nextId) && Land(t, e, holds).Ok? && t.refs == NoRefs
    ensures Land(t, e, holds).value.refs == NoRefs
  {
    forall u, v ensures RenamedRefs(NoRefs, u, v) == NoRefs {
      assert Renamed([], u, v) == [] && RenamedRequests([], u, v) == [];
    }
  }

  /** With one row in the table, a capability that refreshes it in place cannot fail. */
  lemma RefreshesOnlyRow(t: Tables, e: Capability, u: string, holds: set<HoldKey>)
    requires Keyed(t.rows, t.nextId) && t.rows.Keys == {u} && Landing(t, e) == u && !Conflicting(ListedProvenance(e))
    ensures Land(t, e, holds).Ok? && Land(t, e, holds).value.rows.Keys == {u}
  {
    assert Previous(t, e).Some? ==> Previous(t, e).value == u;
    HeldRecords(Prepared(t, e), holds);
  }

  /** The only row moves to the URI of a capability with its key. */
  lemma OnlyRowMoves(t: Tables, e: Capability, b: string, holds: set<HoldKey>)
    requires Keyed(t.rows, t.nextId) && t.rows.Keys == {b} && t.rows[b].cap.key == e.key && e.uri != b && !Pinned(t.rows[b].cap)
    requires t.refs == NoRefs && !Conflicting(ListedProvenance(e))
    ensures Land(t, e, holds).Ok? && Land(t, e, holds).value.rows.Keys == {e.uri}
  {
    assert Owns(t.rows, b, e.key);
    assert Previous(t, e) == Some(b);
    assert !TupleWouldClash(t.refs, b, e.uri);
    MovedKeyed(t, e);
    HeldRecords(e, holds);
    assert Moved(t, e).value.rows.Keys == {e.uri};
  }

  lemma LandsBeside(t: Tables, a: string, e: Capability, holds: set<HoldKey>)
    requires Keyed(t.rows, t.nextId) && t.rows.Keys == {a} && t.rows[a].cap.key != e.key && e.uri != a && !Conflicting(ListedProvenance(e))
    ensures Land(t, e, holds).Ok?
  {
    assert Previous(t, e).None?;
    HeldRecords(e, holds);
  }

  /** Tables with one capability, its path and its index row. */
  function OneRow(c: Capability): (t: Tables)
    ensures Coherent(t) && t.rows == map[c.uri := Row(0, c)] && t.refs == NoRefs
  {
    var rows := map[c.uri := Row(0, c)];
    assert HasId(rows, c.uri, 0);
    Tables(rows, map[c.sourcePath := SourceRow(c.uri, c.sourceKind, c.sourceSystem, c.hash)], map[0 := FtsOf(c)], 1, NoRefs)
  }
}
