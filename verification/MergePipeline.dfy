/**
 The merges as the program runs them, and what they conserve when composed:
 discovery, merge by canonical key, admission and placement, merge by URI.
 */
module MergePipeline {
  import opened Types
  import opened Text
  import opened Model
  import opened Merge

  // ---- merge_duplicate_capabilities ----

  /** `out` lists the merged capability of every tag once, and nothing else. */
  ghost predicate Enumerates(stage: Stage, out: seq<Capability>, caps: seq<Capability>)
  {
    forall c :: multiset(out)[c] == if Tag(stage, c) in Tags(stage, caps) && Merged(stage, caps, Tag(stage, c)) == c then 1 else 0
  }

  ghost predicate UriSorted(s: seq<Capability>)
  {
    forall i, j :: 0 <= i < j < |s| ==> Leq(s[i].uri, s[j].uri)
  }

  /** Insertion to the right of equal URIs: the step of a stable sort. */
  function InsertByUri(s: seq<Capability>, c: Capability): (r: seq<Capability>)
    ensures multiset(r) == multiset(s) + multiset{c}
  {
    if s == [] || Leq(s[|s| - 1].uri, c.uri) then s + [c]
    else
      assert s == s[..|s| - 1] + [s[|s| - 1]];
      InsertByUri(s[..|s| - 1], c) + [s[|s| - 1]]
  }

  /** `sorted(merged, key=lambda cap: cap.uri)` */
  function SortByUri(s: seq<Capability>): (r: seq<Capability>)
    ensures multiset(r) == multiset(s)
  {
    if s == [] then []
    else
      assert s == s[..|s| - 1] + [s[|s| - 1]];
      InsertByUri(SortByUri(s[..|s| - 1]), s[|s| - 1])
  }

  lemma {:induction false} InsertKeepsSorted(s: seq<Capability>, c: Capability)
    requires UriSorted(s)
    ensures UriSorted(InsertByUri(s, c))
  {
    if s == [] {
    } else if Leq(s[|s| - 1].uri, c.uri) {
      forall i | 0 <= i < |s| ensures Leq(s[i].uri, c.uri) {
        if i < |s| - 1 { LeqTransitive(s[i].uri, s[|s| - 1].uri, c.uri); }
      }
    } else {
      var last := s[|s| - 1];
      LeqTotal(last.uri, c.uri);
      InsertKeepsSorted(s[..|s| - 1], c);
      var rest := InsertByUri(s[..|s| - 1], c);
      forall i | 0 <= i < |rest| ensures Leq(rest[i].uri, last.uri) {
        assert rest[i] in multiset(rest);
        assert rest[i] == c || rest[i] in s[..|s| - 1];
      }
    }
  }

  lemma {:induction false} SortByUriSorted(s: seq<Capability>)
    ensures UriSorted(SortByUri(s))
  {
    if s != [] {
      SortByUriSorted(s[..|s| - 1]);
      InsertKeepsSorted(SortByUri(s[..|s| - 1]), s[|s| - 1]);
    }
  }

  /** `merged` holds the merged capability of each listed tag, in order. */
  ghost predicate MergedInOrder(stage: Stage, caps: seq<Capability>, tags: seq<string>, merged: seq<Capability>)
  {
    |merged| == |tags| && forall j :: 0 <= j < |tags| ==> tags[j] in Tags(stage, caps) && merged[j] == Merged(stage, caps, tags[j])
  }

  lemma {:induction false} CountDistinct<T>(s: seq<T>, x: T)
    requires NoDuplicates(s)
    ensures multiset(s)[x] == if x in s then 1 else 0
  {
    if s != [] {
      CountDistinct(s[1..], x);
      assert s == [s[0]] + s[1..];
    }
  }

  lemma MergedEnumerates(stage: Stage, caps: seq<Capability>, tags: seq<string>, merged: seq<Capability>)
    requires MergedInOrder(stage, caps, tags, merged) && NoDuplicates(tags) && forall t :: t in tags <==> t in Tags(stage, caps)
    ensures Enumerates(stage, merged, caps)
  {
    forall i | 0 <= i < |tags| ensures Tag(stage, merged[i]) == tags[i] {}
    assert NoDuplicates(merged);
    forall c ensures multiset(merged)[c] == if Tag(stage, c) in Tags(stage, caps) && Merged(stage, caps, Tag(stage, c)) == c then 1 else 0 {
      CountDistinct(merged, c);
      if Tag(stage, c) in Tags(stage, caps) && Merged(stage, caps, Tag(stage, c)) == c {
        var i :| 0 <= i < |tags| && tags[i] == Tag(stage, c);
        assert merged[i] == c;
      }
    }
  }

  /** The per-group loop shared by the two merges: merge each group in `order`, or stop at the first ambiguous one in strict mode. */
  method MergeGroups(stage: Stage, groups: map<string, seq<Capability>>, order: seq<string>, strict: bool)
    returns (r: Result<seq<Capability>, string>)
    requires forall j :: 0 <= j < |order| ==> order[j] in groups && groups[order[j]] != []
    ensures r.Err? <==> strict && exists j :: 0 <= j < |order| && Ambiguous(stage, groups[order[j]])
    ensures r.Ok? ==> |r.value| == |order| && forall j :: 0 <= j < |order| ==> r.value[j] == MergeGroup(stage, groups[order[j]])
  {
    var merged: seq<Capability> := [];
    for i := 0 to |order|
      invariant |merged| == i && forall j :: 0 <= j < i ==> merged[j] == MergeGroup(stage, groups[order[j]])
      invariant strict ==> forall j :: 0 <= j < i ==> !Ambiguous(stage, groups[order[j]])
    {
      var group := groups[order[i]];
      if strict && Ambiguous(stage, group) {
        return Err("ambiguous collision for " + order[i]);
      }
      merged := merged + [MergeGroup(stage, group)];
    }
    r := Ok(merged);
  }

  lemma GroupsMerge(stage: Stage, caps: seq<Capability>, groups: map<string, seq<Capability>>, order: seq<string>)
    requires groups.Keys == Tags(stage, caps) && forall t :: t in groups ==> groups[t] == Group(stage, caps, t) && groups[t] != []
    requires forall t :: t in order <==> t in groups
    ensures forall j :: 0 <= j < |order| ==>
      order[j] in Tags(stage, caps) && MergeGroup(stage, groups[order[j]]) == Merged(stage, caps, order[j])
    ensures (exists j :: 0 <= j < |order| && Ambiguous(stage, groups[order[j]])) <==> exists t :: t in Tags(stage, caps) && AmbiguousTag(stage, caps, t)
  {
    forall j | 0 <= j < |order| ensures order[j] in Tags(stage, caps) {
      assert order[j] in order;
    }
    if t :| t in Tags(stage, caps) && AmbiguousTag(stage, caps, t) {
      assert t in order;
      var j :| 0 <= j < |order| && order[j] == t;
      assert Ambiguous(stage, groups[order[j]]);
    }
    if j :| 0 <= j < |order| && Ambiguous(stage, groups[order[j]]) {
      assert AmbiguousTag(stage, caps, order[j]);
    }
  }

  /**
   `merge_duplicate_capabilities`: one capability per canonical key, in URI
   order; in strict mode it raises exactly when some key is ambiguous.
   */
  method MergeDuplicateCapabilities(caps: seq<Capability>, strict: bool) returns (r: Result<seq<Capability>, string>)
    ensures r.Err? <==> strict && exists t :: t in Tags(ByKey, caps) && AmbiguousTag(ByKey, caps, t)
    ensures r.Ok? ==> Enumerates(ByKey, r.value, caps) && UriSorted(r.value)
  {
    var groups, order := GroupBy(ByKey, caps);
    GroupsMerge(ByKey, caps, groups, order);
    r := MergeGroups(ByKey, groups, order, strict);
    if r.Ok? {
      MergedEnumerates(ByKey, caps, order, r.value);
      SortByUriSorted(r.value);
      r := Ok(SortByUri(r.value));
    }
  }

  // ---- _merge_by_effective_uri ----

  /** The merged capabilities in URI order. */
  function UriMerged(caps: seq<Capability>): (out: seq<Capability>)
    ensures |out| == |SortedSet(Tags(ByUri, caps))|
  {
    var uris := SortedSet(Tags(ByUri, caps));
    seq(|uris|, i requires 0 <= i < |uris| => (assert uris[i] in Elements(uris); Merged(ByUri, caps, uris[i])))
  }

  lemma UriMergedShape(caps: seq<Capability>)
    ensures MergedInOrder(ByUri, caps, SortedSet(Tags(ByUri, caps)), UriMerged(caps))
    ensures forall i, j :: 0 <= i < j < |UriMerged(caps)| ==> Less(UriMerged(caps)[i].uri, UriMerged(caps)[j].uri)
  {
    var uris, merged := SortedSet(Tags(ByUri, caps)), UriMerged(caps);
    SortedSetSorted(Tags(ByUri, caps));
    forall i | 0 <= i < |uris| ensures uris[i] in Tags(ByUri, caps) && merged[i] == Merged(ByUri, caps, uris[i]) {
      assert uris[i] in Elements(uris);
    }
    InUriOrder(caps, uris, merged);
  }

  lemma InUriOrder(caps: seq<Capability>, uris: seq<string>, merged: seq<Capability>)
    requires MergedInOrder(ByUri, caps, uris, merged) && StrictlySorted(uris)
    ensures forall i, j :: 0 <= i < j < |merged| ==> Less(merged[i].uri, merged[j].uri)
  {
    forall i | 0 <= i < |merged| ensures merged[i].uri == uris[i] {
      assert Tag(ByUri, Merged(ByUri, caps, uris[i])) == uris[i];
    }
  }

  lemma UriMergedUnique(caps: seq<Capability>, out: seq<Capability>)
    requires MergedInOrder(ByUri, caps, SortedSet(Tags(ByUri, caps)), out)
    ensures out == UriMerged(caps)
  {
    UriMergedShape(caps);
    var merged := UriMerged(caps);
    forall i | 0 <= i < |out| ensures out[i] == merged[i] {}
  }

  lemma SortedSetHolds(s: set<string>, sorted: seq<string>)
    requires sorted == SortedSet(s)
    ensures forall t :: t in sorted <==> t in s
  {
    assert forall t :: t in sorted <==> t in Elements(sorted);
  }

  /** `_merge_by_effective_uri`: `UriMerged`, or in strict mode a collision error exactly when some URI is ambiguous. */
  method MergeByEffectiveUri(caps: seq<Capability>, strict: bool) returns (r: Result<seq<Capability>, string>)
    ensures r.Err? <==> strict && exists t :: t in Tags(ByUri, caps) && AmbiguousTag(ByUri, caps, t)
    ensures r.Ok? ==> r.value == UriMerged(caps)
  {
    var groups, _ := GroupBy(ByUri, caps);
    var uris := SortedSet(groups.Keys);
    SortedSetHolds(groups.Keys, uris);
    GroupsMerge(ByUri, caps, groups, uris);
    r := MergeGroups(ByUri, groups, uris, strict);
    if r.Ok? {
      assert MergedInOrder(ByUri, caps, uris, r.value);
      UriMergedUnique(caps, r.value);
    }
  }

  /** The list itself, not only the map, is the same for every order of the input. */
  lemma UriMergeOrderIrrelevant(a: seq<Capability>, b: seq<Capability>)
    requires multiset(a) == multiset(b) && DistinctPaths(a)
    ensures UriMerged(a) == UriMerged(b)
  {
    SameTags(ByUri, a, b);
    var uris := SortedSet(Tags(ByUri, a));
    UriMergedShape(a);
    UriMergedShape(b);
    forall i | 0 <= i < |uris| ensures UriMerged(a)[i] == UriMerged(b)[i] {
      MergeOrderIrrelevant(ByUri, a, b, uris[i]);
    }
  }

  // ---- conservation ----

  /** What discovery guarantees of every record (capmesh/manifest.py): its four source fields are filled in. */
  ghost predicate Discovered(disc: seq<Capability>)
  {
    forall d :: d in disc ==> d.sourcePath != "" && d.sourceKind != "" && d.sourceSystem != "" && d.hash != ""
  }

  ghost predicate Filled(records: set<Source>)
  {
    forall s :: s in records ==> s.path != "" && s.kind != "" && s.system != "" && s.hash != ""
  }

  /** The capability's metadata lists exactly `records`, its own path among them. */
  ghost predicate Lists(c: Capability, records: set<Source>)
  {
    && c.metadata.sourceProvenance == Some(records)
    && c.metadata.sourcePaths == Some(Paths(records))
    && c.sourcePath in Paths(records)
    && Filled(records)
  }

  /** Then those records are its provenance, its contribution to a merge and its source rows. */
  lemma ListedRecords(c: Capability, records: set<Source>)
    requires Lists(c, records)
    ensures ListedProvenance(c) == records
    ensures Contributed(c) == records
    ensures SourceRecords(c) == records
  {
    assert forall s :: s in records ==> Completed(c, s) == s;
    assert ListedProvenance(c) == records;
    assert (set s | s in records :: s.path) == Paths(records);
    assert ListedPaths(c) == Paths(records);
  }

  /** Placement may move a capability but keeps its key, content and provenance. */
  ghost predicate Kept(m: Capability, e: Capability)
  {
    && e.key == m.key && e.hash == m.hash && e.sourcePath == m.sourcePath && e.sourceKind == m.sourceKind
    && e.sourceSystem == m.sourceSystem && e.metadata.sourcePaths == m.metadata.sourcePaths
    && e.metadata.sourceProvenance == m.metadata.sourceProvenance
  }

  /** `eff` are placed capabilities of the key merge of `disc`, at most one per key; admission may have dropped others. */
  ghost predicate Placed(disc: seq<Capability>, eff: seq<Capability>)
  {
    && (forall e :: e in eff ==> e.key in Tags(ByKey, disc) && Kept(Merged(ByKey, disc, e.key), e))
    && (forall e, f :: e in eff && f in eff && e.key == f.key ==> e == f)
  }

  lemma MergeGroupMetadata(stage: Stage, g: seq<Capability>)
    requires g != [] && (stage == ByKey || |g| > 1)
    ensures MergeGroup(stage, g).metadata.sourceProvenance == Some(Provenance(stage, g))
    ensures MergeGroup(stage, g).metadata.sourcePaths == Some(Paths(Provenance(stage, g)))
    ensures MergeGroup(stage, g).sourcePath == Winner(stage, g).sourcePath
  {
  }

  /** What the key merge of `disc` lists for `key`. */
  function KeyRecords(disc: seq<Capability>, key: string): set<Source>
  {
    KeyProvenance(Group(ByKey, disc, key))
  }

  lemma KeyMergeLists(disc: seq<Capability>, key: string)
    requires Discovered(disc) && key in Tags(ByKey, disc)
    ensures Lists(Merged(ByKey, disc, key), KeyRecords(disc, key))
  {
    var g := Group(ByKey, disc, key);
    GroupNonEmpty(ByKey, disc, key);
    MergeGroupMetadata(ByKey, g);
    var w := Winner(ByKey, g);
    assert Own(w, w.sourcePath) in KeyProvenance(g);
  }

  lemma PlacedLists(disc: seq<Capability>, eff: seq<Capability>, e: Capability)
    requires Discovered(disc) && Placed(disc, eff) && e in eff
    ensures Lists(e, KeyRecords(disc, e.key))
  {
    KeyMergeLists(disc, e.key);
  }

  /** What the URI merge lists for `uri`: the union over the group. */
  lemma UriGroupRecords(disc: seq<Capability>, eff: seq<Capability>, uri: string, s: Source)
    requires Discovered(disc) && Placed(disc, eff)
    ensures s in UriProvenance(Group(ByUri, eff, uri)) <==> exists e :: e in eff && e.uri == uri && s in KeyRecords(disc, e.key)
  {
    var g := Group(ByUri, eff, uri);
    forall e | e in g ensures Contributed(e) == KeyRecords(disc, e.key) {
      PlacedLists(disc, eff, e);
      ListedRecords(e, KeyRecords(disc, e.key));
    }
  }

  lemma UriRecordsFilled(disc: seq<Capability>, eff: seq<Capability>, uri: string)
    requires Discovered(disc) && Placed(disc, eff)
    ensures Filled(UriProvenance(Group(ByUri, eff, uri)))
  {
    forall s | s in UriProvenance(Group(ByUri, eff, uri)) ensures s.path != "" && s.kind != "" && s.system != "" && s.hash != "" {
      UriGroupRecords(disc, eff, uri, s);
      var e :| e in eff && e.uri == uri && s in KeyRecords(disc, e.key);
      PlacedLists(disc, eff, e);
    }
  }

  lemma WinnerPathListed(disc: seq<Capability>, eff: seq<Capability>, uri: string, w: Capability)
    requires Discovered(disc) && Placed(disc, eff) && w in Group(ByUri, eff, uri)
    ensures w.sourcePath in Paths(UriProvenance(Group(ByUri, eff, uri)))
  {
    PlacedLists(disc, eff, w);
    var s :| s in KeyRecords(disc, w.key) && s.path == w.sourcePath;
    UriGroupRecords(disc, eff, uri, s);
  }

  lemma LoneRecords(g: seq<Capability>)
    requires |g| == 1
    ensures g[0] in g && UriProvenance(g) == Contributed(g[0]) && MergeGroup(ByUri, g) == g[0]
  {
    assert forall c :: c in g ==> c == g[0];
  }

  lemma UriMergeLists(disc: seq<Capability>, eff: seq<Capability>, uri: string)
    requires Discovered(disc) && Placed(disc, eff) && uri in Tags(ByUri, eff)
    ensures Lists(Merged(ByUri, eff, uri), UriProvenance(Group(ByUri, eff, uri)))
  {
    var g := Group(ByUri, eff, uri);
    GroupNonEmpty(ByUri, eff, uri);
    if |g| == 1 {
      LoneRecords(g);
      PlacedLists(disc, eff, g[0]);
      ListedRecords(g[0], KeyRecords(disc, g[0].key));
    } else {
      UriRecordsFilled(disc, eff, uri);
      WinnerPathListed(disc, eff, uri, Winner(ByUri, g));
      MergeGroupMetadata(ByUri, g);
    }
  }

  /** `d` ends up at `uri`: the merged capability of its key was admitted and placed there. */
  ghost predicate EndsAt(eff: seq<Capability>, d: Capability, uri: string)
  {
    exists e :: e in eff && e.key == d.key && e.uri == uri
  }

  lemma KeyRecordsExact(disc: seq<Capability>, key: string, s: Source)
    ensures s in KeyRecords(disc, key) <==> exists d :: d in disc && d.key == key && s == Own(d, d.sourcePath)
  {
    var g := Group(ByKey, disc, key);
    assert forall d :: d in g <==> d in disc && d.key == key;
  }

  /**
   Exact provenance: the source rows of the capability merged at `uri` are the
   records of the discovered capabilities that end there, no more and no fewer.
   */
  lemma ProvenanceExact(disc: seq<Capability>, eff: seq<Capability>, uri: string, s: Source)
    requires Discovered(disc) && Placed(disc, eff) && uri in Tags(ByUri, eff)
    ensures s in SourceRecords(Merged(ByUri, eff, uri)) <==> exists d :: d in disc && EndsAt(eff, d, uri) && s == Own(d, d.sourcePath)
    ensures SourceRecords(Merged(ByUri, eff, uri)) == ListedProvenance(Merged(ByUri, eff, uri))
  {
    UriMergeLists(disc, eff, uri);
    ListedRecords(Merged(ByUri, eff, uri), UriProvenance(Group(ByUri, eff, uri)));
    UriGroupRecords(disc, eff, uri, s);
    if e :| e in eff && e.uri == uri && s in KeyRecords(disc, e.key) {
      KeyRecordsExact(disc, e.key, s);
      var d :| d in disc && d.key == e.key && s == Own(d, d.sourcePath);
      assert EndsAt(eff, d, uri);
    }
    if d :| d in disc && EndsAt(eff, d, uri) && s == Own(d, d.sourcePath) {
      var e :| e in eff && e.key == d.key && e.uri == uri;
      KeyRecordsExact(disc, e.key, s);
    }
  }

  /** Two discovered records that end at one URI share a path and differ. */
  ghost predicate Clash(eff: seq<Capability>, c: Capability, d: Capability, uri: string)
  {
    EndsAt(eff, c, uri) && EndsAt(eff, d, uri) && c.sourcePath == d.sourcePath && Own(c, c.sourcePath) != Own(d, d.sourcePath)
  }

  /** The conflicting-provenance error fires on a merged capability exactly when two discovered records clash there. */
  lemma ConflictIff(disc: seq<Capability>, eff: seq<Capability>, uri: string)
    requires Discovered(disc) && Placed(disc, eff) && uri in Tags(ByUri, eff)
    ensures Conflicting(ListedProvenance(Merged(ByUri, eff, uri))) <==> exists c, d :: c in disc && d in disc && Clash(eff, c, d, uri)
  {
    var records := ListedProvenance(Merged(ByUri, eff, uri));
    if a, b :| a in records && b in records && a.path == b.path && a != b {
      ProvenanceExact(disc, eff, uri, a);
      ProvenanceExact(disc, eff, uri, b);
      var c :| c in disc && EndsAt(eff, c, uri) && a == Own(c, c.sourcePath);
      var d :| d in disc && EndsAt(eff, d, uri) && b == Own(d, d.sourcePath);
      assert Clash(eff, c, d, uri);
    }
    if c, d :| c in disc && d in disc && Clash(eff, c, d, uri) {
      ProvenanceExact(disc, eff, uri, Own(c, c.sourcePath));
      ProvenanceExact(disc, eff, uri, Own(d, d.sourcePath));
    }
  }

  /**
   Discovery visits each normalized path once.  Then every record whose key was
   admitted lands in exactly one merged capability, and no merged capability can
   raise the conflicting-provenance error.
   */
  lemma ProvenanceConserved(disc: seq<Capability>, eff: seq<Capability>, d: Capability, e: Capability)
    requires Discovered(disc) && DistinctPaths(disc) && Placed(disc, eff)
    requires d in disc && e in eff && e.key == d.key
    ensures e.uri in Tags(ByUri, eff) && Own(d, d.sourcePath) in SourceRecords(Merged(ByUri, eff, e.uri))
    ensures forall u :: u in Tags(ByUri, eff) && d.sourcePath in Paths(SourceRecords(Merged(ByUri, eff, u))) ==> u == e.uri
    ensures !Conflicting(ListedProvenance(Merged(ByUri, eff, e.uri)))
  {
    assert Tag(ByUri, e) in Tags(ByUri, eff);
    assert EndsAt(eff, d, e.uri);
    ProvenanceExact(disc, eff, e.uri, Own(d, d.sourcePath));
    ConflictIff(disc, eff, e.uri);
    forall u | u in Tags(ByUri, eff) && d.sourcePath in Paths(SourceRecords(Merged(ByUri, eff, u))) ensures u == e.uri {
      var s :| s in SourceRecords(Merged(ByUri, eff, u)) && s.path == d.sourcePath;
      ProvenanceExact(disc, eff, u, s);
      var c :| c in disc && EndsAt(eff, c, u) && s == Own(c, c.sourcePath);
      assert c == d;
    }
  }
}
