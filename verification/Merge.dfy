/**
 The two authority merges: `merge_duplicate_capabilities` (capmesh/manifest.py)
 by canonical key, and `_merge_by_effective_uri` (capmesh/index.py) by the URI
 placement assigned.  `Stage` says which of the two is meant where they agree.
 */
module Merge {
  import opened Types
  import opened Text
  import opened Model

  datatype Stage = ByKey | ByUri

  /** `source_authority_rank` */
  function AuthorityRank(system: string, path: string): int
  {
    if system == "asg-os.plugins" then
      if Contains(path, "/.codex/") || Contains(path, "/.cursor/") then 250 else 500
    else if system == "codex.skills" && Contains(path, "/.codex/skills/.system/") then 450
    else if system == "agents.skill-registry" then 400
    else if system == "codex.skills" then 300
    else if system == "codex.plugin-cache" then
      if Contains(path, "/.codex/plugins/cache/openai-curated-remote/") then 260
      else if Contains(path, "/.codex/plugins/cache/openai-bundled/") then 250
      else if Contains(path, "/.codex/plugins/cache/openai-curated/") then 220
      else 200
    else if system == "claude.plugin-cache" then 100
    else 0
  }

  function Rank(c: Capability): int
  {
    AuthorityRank(c.sourceSystem, c.sourcePath)
  }

  // ---- the sort key of the two `sorted` calls ----

  /** The tie-break text components; the canonical key takes part only in the URI merge. */
  function TieBreak(stage: Stage, c: Capability): seq<string>
  {
    [if stage == ByUri then c.key else "", c.sourceSystem, c.sourcePath]
  }

  predicate LexLeq(a: seq<string>, b: seq<string>)
    requires |a| == |b|
  {
    a == [] || Less(a[0], b[0]) || (a[0] == b[0] && LexLeq(a[1..], b[1..]))
  }

  predicate Preferred(stage: Stage, a: Capability, b: Capability)
  {
    Rank(a) > Rank(b) || (Rank(a) == Rank(b) && LexLeq(TieBreak(stage, a), TieBreak(stage, b)))
  }

  lemma {:induction false} LexTotal(a: seq<string>, b: seq<string>)
    requires |a| == |b|
    ensures LexLeq(a, b) || LexLeq(b, a)
  {
    if a != [] {
      LeqTotal(a[0], b[0]);
      LexTotal(a[1..], b[1..]);
    }
  }

  lemma {:induction false} LexAntisymmetric(a: seq<string>, b: seq<string>)
    requires |a| == |b| && LexLeq(a, b) && LexLeq(b, a)
    ensures a == b
  {
    if a != [] {
      if a[0] != b[0] {
        LeqAntisymmetric(a[0], b[0]);
      }
      LexAntisymmetric(a[1..], b[1..]);
      assert a == [a[0]] + a[1..] && b == [b[0]] + b[1..];
    }
  }

  lemma {:induction false} LexTransitive(a: seq<string>, b: seq<string>, c: seq<string>)
    requires |a| == |b| == |c| && LexLeq(a, b) && LexLeq(b, c)
    ensures LexLeq(a, c)
  {
    if a != [] {
      if a[0] == b[0] == c[0] {
        LexTransitive(a[1..], b[1..], c[1..]);
      } else if a[0] == b[0] {
      } else if b[0] == c[0] {
      } else {
        LessTransitive(a[0], b[0], c[0]);
      }
    }
  }

  /** `ranked[0]`: the first capability that no other precedes (the sort is stable). */
  function Winner(stage: Stage, caps: seq<Capability>): (w: Capability)
    requires caps != []
    ensures w in caps
  {
    if |caps| == 1 then caps[0]
    else
      var w := Winner(stage, caps[1..]);
      if Preferred(stage, caps[0], w) then caps[0] else w
  }

  lemma {:induction false} WinnerPreferred(stage: Stage, caps: seq<Capability>)
    requires caps != []
    ensures forall c :: c in caps ==> Preferred(stage, Winner(stage, caps), c)
  {
    LexTotal(TieBreak(stage, caps[0]), TieBreak(stage, caps[0]));
    if |caps| > 1 {
      var w := Winner(stage, caps[1..]);
      WinnerPreferred(stage, caps[1..]);
      LexTotal(TieBreak(stage, caps[0]), TieBreak(stage, w));
      forall c | c in caps ensures Preferred(stage, Winner(stage, caps), c) {
        if c != caps[0] && Preferred(stage, caps[0], w) {
          assert c in caps[1..];
          PreferredTransitive(stage, caps[0], w, c);
        }
      }
    }
  }

  lemma PreferredTransitive(stage: Stage, a: Capability, b: Capability, c: Capability)
    requires Preferred(stage, a, b) && Preferred(stage, b, c)
    ensures Preferred(stage, a, c)
  {
    if Rank(a) == Rank(b) == Rank(c) {
      LexTransitive(TieBreak(stage, a), TieBreak(stage, b), TieBreak(stage, c));
    }
  }

  ghost predicate DistinctPaths(caps: seq<Capability>)
  {
    forall a, b :: a in caps && b in caps && a.sourcePath == b.sourcePath ==> a == b
  }

  /** Two lists of the same capabilities have the same winner. */
  lemma SameWinner(stage: Stage, a: seq<Capability>, b: seq<Capability>)
    requires a != [] && b != [] && DistinctPaths(a) && forall c :: c in a <==> c in b
    ensures Winner(stage, a) == Winner(stage, b)
  {
    var v, w := Winner(stage, a), Winner(stage, b);
    WinnerPreferred(stage, a);
    WinnerPreferred(stage, b);
    assert Preferred(stage, v, w) && Preferred(stage, w, v);
    LexAntisymmetric(TieBreak(stage, v), TieBreak(stage, w));
    assert TieBreak(stage, v)[2] == TieBreak(stage, w)[2];
  }

  // ---- groups ----

  function Tag(stage: Stage, c: Capability): string
  {
    match stage case ByKey => c.key case ByUri => c.uri
  }

  function Tags(stage: Stage, caps: seq<Capability>): set<string>
  {
    set c | c in caps :: Tag(stage, c)
  }

  function Group(stage: Stage, caps: seq<Capability>, tag: string): (g: seq<Capability>)
    ensures forall c :: c in g <==> c in caps && Tag(stage, c) == tag
    ensures |g| <= |caps|
  {
    if caps == [] then []
    else
      assert caps == [caps[0]] + caps[1..];
      (if Tag(stage, caps[0]) == tag then [caps[0]] else []) + Group(stage, caps[1..], tag)
  }

  lemma {:induction false} GroupAppend(stage: Stage, caps: seq<Capability>, c: Capability, tag: string)
    ensures Group(stage, caps + [c], tag) == Group(stage, caps, tag) + (if Tag(stage, c) == tag then [c] else [])
  {
    var more, last := caps + [c], if Tag(stage, c) == tag then [c] else [];
    if caps == [] {
      assert more == [c] && Group(stage, more[1..], tag) == [];
    } else {
      var first := if Tag(stage, caps[0]) == tag then [caps[0]] else [];
      assert more[0] == caps[0] && more[1..] == caps[1..] + [c];
      GroupAppend(stage, caps[1..], c, tag);
      Associates(first, Group(stage, caps[1..], tag), last);
    }
  }

  lemma Associates(a: seq<Capability>, b: seq<Capability>, c: seq<Capability>)
    ensures a + (b + c) == (a + b) + c
  {
  }

  lemma {:induction false} GroupEmpty(stage: Stage, caps: seq<Capability>, tag: string)
    requires forall c :: c in caps ==> Tag(stage, c) != tag
    ensures Group(stage, caps, tag) == []
  {
    if caps != [] {
      GroupEmpty(stage, caps[1..], tag);
    }
  }

  lemma GroupNonEmpty(stage: Stage, caps: seq<Capability>, tag: string)
    requires tag in Tags(stage, caps)
    ensures Group(stage, caps, tag) != []
  {
    var c :| c in caps && Tag(stage, c) == tag;
    assert c in Group(stage, caps, tag);
  }

  ghost predicate Grouped(stage: Stage, caps: seq<Capability>, groups: map<string, seq<Capability>>, order: seq<string>)
  {
    && NoDuplicates(order)
    && (forall t :: t in order <==> t in groups)
    && (forall t :: t in groups ==> groups[t] == Group(stage, caps, t) && groups[t] != [])
    && (forall c :: c in caps ==> Tag(stage, c) in groups)
  }

  lemma GroupedExtend(stage: Stage, caps: seq<Capability>, c: Capability, groups: map<string, seq<Capability>>, order: seq<string>)
    requires Grouped(stage, caps, groups, order) && Tag(stage, c) in groups
    ensures Grouped(stage, caps + [c], groups[Tag(stage, c) := groups[Tag(stage, c)] + [c]], order)
  {
    var t := Tag(stage, c);
    var groups' := groups[t := groups[t] + [c]];
    forall u | u in groups' ensures groups'[u] == Group(stage, caps + [c], u) && groups'[u] != [] {
      GroupAppend(stage, caps, c, u);
    }
  }

  lemma GroupedFresh(stage: Stage, caps: seq<Capability>, c: Capability, groups: map<string, seq<Capability>>, order: seq<string>)
    requires Grouped(stage, caps, groups, order) && Tag(stage, c) !in groups
    ensures Grouped(stage, caps + [c], groups[Tag(stage, c) := [c]], order + [Tag(stage, c)])
  {
    var t := Tag(stage, c);
    GroupEmpty(stage, caps, t);
    var groups', order' := groups[t := [c]], order + [t];
    forall u | u in groups' ensures groups'[u] == Group(stage, caps + [c], u) && groups'[u] != [] {
      GroupAppend(stage, caps, c, u);
    }
    OrderExtended(groups, order, t);
    assert forall d :: d in caps + [c] ==> d in caps || d == c;
  }

  lemma OrderExtended(groups: map<string, seq<Capability>>, order: seq<string>, t: string)
    requires NoDuplicates(order) && (forall u :: u in order <==> u in groups) && t !in groups
    ensures NoDuplicates(order + [t]) && forall u :: u in order + [t] <==> u in groups || u == t
  {
    assert t !in order;
    forall i | 0 <= i < |order| ensures order[i] != t {
      assert order[i] in order;
    }
  }

  function TagList(stage: Stage, caps: seq<Capability>): seq<string>
  {
    seq(|caps|, i requires 0 <= i < |caps| => Tag(stage, caps[i]))
  }

  lemma TagListAppend(stage: Stage, caps: seq<Capability>, c: Capability)
    ensures FirstSeen(TagList(stage, caps + [c])) ==
      var seen := FirstSeen(TagList(stage, caps));
      if Tag(stage, c) in seen then seen else seen + [Tag(stage, c)]
  {
    assert TagList(stage, caps + [c]) == TagList(stage, caps) + [Tag(stage, c)];
    FirstSeenAppend(TagList(stage, caps), Tag(stage, c));
  }

  /** `groups.setdefault(tag, []).append(c)`, with the dictionary's key order. */
  method AddToGroup(stage: Stage, ghost done: seq<Capability>, c: Capability, groups: map<string, seq<Capability>>, order: seq<string>)
    returns (groups': map<string, seq<Capability>>, order': seq<string>)
    requires Grouped(stage, done, groups, order) && order == FirstSeen(TagList(stage, done))
    ensures Grouped(stage, done + [c], groups', order')
    ensures order' == FirstSeen(TagList(stage, done + [c]))
  {
    TagListAppend(stage, done, c);
    var t := Tag(stage, c);
    if t in groups {
      GroupedExtend(stage, done, c, groups, order);
      groups', order' := groups[t := groups[t] + [c]], order;
    } else {
      GroupedFresh(stage, done, c, groups, order);
      groups', order' := groups[t := [c]], order + [t];
    }
  }

  /** The grouping loop of both merges; `order` is dictionary insertion order. */
  method GroupBy(stage: Stage, caps: seq<Capability>) returns (groups: map<string, seq<Capability>>, order: seq<string>)
    ensures Grouped(stage, caps, groups, order)
    ensures groups.Keys == Tags(stage, caps) && order == FirstSeen(TagList(stage, caps))
  {
    groups, order := map[], [];
    var rest := caps;
    ghost var done: seq<Capability> := [];
    while rest != []
      invariant done + rest == caps
      invariant Grouped(stage, done, groups, order)
      invariant order == FirstSeen(TagList(stage, done))
      decreases |rest|
    {
      groups, order := AddToGroup(stage, done, rest[0], groups, order);
      NextSplit(done, rest);
      done, rest := done + [rest[0]], rest[1..];
    }
    assert done == caps;
    GroupKeys(stage, caps, groups, order);
  }

  lemma NextSplit(done: seq<Capability>, rest: seq<Capability>)
    requires rest != []
    ensures done + rest == (done + [rest[0]]) + rest[1..]
  {
  }

  lemma GroupKeys(stage: Stage, caps: seq<Capability>, groups: map<string, seq<Capability>>, order: seq<string>)
    requires Grouped(stage, caps, groups, order)
    ensures groups.Keys == Tags(stage, caps)
  {
    forall t | t in groups ensures t in Tags(stage, caps) {
      assert groups[t][0] in groups[t];
    }
  }

  // ---- merging one group ----

  function KeyProvenance(caps: seq<Capability>): set<Source>
  {
    set c | c in caps :: Own(c, c.sourcePath)
  }

  /** Records one capability contributes to the URI merge. */
  function Contributed(c: Capability): set<Source>
  {
    var listed := ListedProvenance(c);
    listed + set p | p in ListedPaths(c) && p != "" && p !in (set s | s in listed :: s.path) :: Own(c, p)
  }

  /** The capability lists `path` among its sources, or lists none and is found there. */
  ghost predicate ListsPath(c: Capability, path: string)
  {
    if c.metadata.sourcePaths.None? || c.metadata.sourcePaths.value == {} then path == c.sourcePath else path in c.metadata.sourcePaths.value
  }

  /** A capability brings its listed records, filled in from itself, and its own values for every other path it lists. */
  lemma ContributedExact(c: Capability, r: Source)
    ensures r in Contributed(c) <==>
      if ListsRecord(c, r.path) then exists s :: s in c.metadata.sourceProvenance.value && s.path != "" && FilledIn(c, s, r)
      else r.path != "" && ListsPath(c, r.path) && r.kind == c.sourceKind && r.system == c.sourceSystem && r.hash == c.hash
  {
    ListedExact(c, r);
    assert r.path in ListedPaths(c) <==> ListsPath(c, r.path);
    assert r == Own(c, r.path) <==> r.kind == c.sourceKind && r.system == c.sourceSystem && r.hash == c.hash;
  }

  function UriProvenance(caps: seq<Capability>): set<Source>
  {
    set c, s | c in caps && s in Contributed(c) :: s
  }

  function Provenance(stage: Stage, caps: seq<Capability>): set<Source>
  {
    match stage case ByKey => KeyProvenance(caps) case ByUri => UriProvenance(caps)
  }

  function TopSources(stage: Stage, caps: seq<Capability>): set<Capability>
    requires caps != []
  {
    set c | c in caps && Rank(c) == Rank(Winner(stage, caps))
  }

  predicate Ambiguous(stage: Stage, caps: seq<Capability>)
    requires caps != []
  {
    exists a, b :: a in TopSources(stage, caps) && b in TopSources(stage, caps) && a.hash != b.hash
  }

  function Paths(records: set<Source>): set<string>
  {
    set s | s in records :: s.path
  }

  function MergeMetadata(stage: Stage, caps: seq<Capability>): Metadata
    requires caps != []
  {
    var w := Winner(stage, caps);
    var provenance := Provenance(stage, caps);
    var m0 := w.metadata.(sourcePaths := Some(Paths(provenance)), sourceProvenance := Some(provenance));
    var conflicts := set s | s in provenance && s.hash != w.hash;
    var m1 := if conflicts == {} then m0
              else m0.(conflicts := Some(conflicts), authority := Some(Authority(w.sourcePath, w.sourceSystem, Rank(w), false)));
    if !Ambiguous(stage, caps) then m1
    else
      var sources := Some(set c | c in TopSources(stage, caps) :: c.sourcePath);
      var m2 := match stage case ByKey => m1.(keyCollision := true) case ByUri => m1.(uriCollision := true);
      m2.(ambiguousSources := sources, authority := Some(Authority(w.sourcePath, w.sourceSystem, Rank(w), true)))
  }

  /** One merged capability: the winner with the group's provenance. A lone capability passes the URI merge untouched. */
  function MergeGroup(stage: Stage, caps: seq<Capability>): Capability
    requires caps != []
  {
    if stage == ByUri && |caps| == 1 then caps[0]
    else Winner(stage, caps).(metadata := MergeMetadata(stage, caps))
  }

  /** The capability the merge produces for `tag`. */
  function Merged(stage: Stage, caps: seq<Capability>, tag: string): (m: Capability)
    requires tag in Tags(stage, caps)
    ensures Tag(stage, m) == tag
  {
    GroupNonEmpty(stage, caps, tag);
    var g := Group(stage, caps, tag);
    assert Winner(stage, g) in g && g[0] in g;
    MergeGroup(stage, g)
  }

  predicate AmbiguousTag(stage: Stage, caps: seq<Capability>, tag: string)
    requires tag in Tags(stage, caps)
  {
    GroupNonEmpty(stage, caps, tag);
    Ambiguous(stage, Group(stage, caps, tag))
  }

  /** The winner of each group has maximal authority in it. */
  lemma WinnerHasTopAuthority(stage: Stage, caps: seq<Capability>, c: Capability)
    requires c in caps
    ensures Tag(stage, c) in Tags(stage, caps)
    ensures var m := Merged(stage, caps, Tag(stage, c));
      Rank(m) >= Rank(c) && exists w :: w in caps && Tag(stage, w) == Tag(stage, c) && m == w.(metadata := m.metadata)
  {
    var t := Tag(stage, c);
    assert t in Tags(stage, caps);
    GroupNonEmpty(stage, caps, t);
    var g := Group(stage, caps, t);
    WinnerPreferred(stage, g);
    assert c in g;
    if stage == ByUri && |g| == 1 {
      assert c == g[0];
      assert Merged(stage, caps, t) == c == c.(metadata := c.metadata);
    } else {
      var w := Winner(stage, g);
      assert w in g && Preferred(stage, w, c);
      assert Merged(stage, caps, t) == w.(metadata := MergeMetadata(stage, g));
    }
  }

  // ---- permutation invariance ----

  lemma SameMetadata(stage: Stage, a: seq<Capability>, b: seq<Capability>)
    requires a != [] && b != [] && DistinctPaths(a) && forall c :: c in a <==> c in b
    ensures MergeMetadata(stage, a) == MergeMetadata(stage, b)
    ensures Ambiguous(stage, a) == Ambiguous(stage, b)
  {
    SameWinner(stage, a, b);
    assert Provenance(stage, a) == Provenance(stage, b);
    assert TopSources(stage, a) == TopSources(stage, b);
  }

  lemma {:induction false} GroupCount(stage: Stage, caps: seq<Capability>, tag: string, c: Capability)
    ensures multiset(Group(stage, caps, tag))[c] == if Tag(stage, c) == tag then multiset(caps)[c] else 0
  {
    if caps != [] {
      var g, rest := Group(stage, caps, tag), Group(stage, caps[1..], tag);
      GroupCount(stage, caps[1..], tag, c);
      HeadCount(caps, c);
      if Tag(stage, caps[0]) == tag {
        assert g[1..] == rest && g[0] == caps[0];
        HeadCount(g, c);
      } else {
        assert g == rest;
      }
    }
  }

  lemma HeadCount(s: seq<Capability>, c: Capability)
    requires s != []
    ensures multiset(s)[c] == multiset(s[1..])[c] + if s[0] == c then 1 else 0
  {
    assert s == [s[0]] + s[1..];
  }

  lemma SameGroups(stage: Stage, a: seq<Capability>, b: seq<Capability>, tag: string)
    requires multiset(a) == multiset(b)
    ensures multiset(Group(stage, a, tag)) == multiset(Group(stage, b, tag))
    ensures |Group(stage, a, tag)| == |Group(stage, b, tag)|
    ensures forall c :: c in Group(stage, a, tag) <==> c in Group(stage, b, tag)
  {
    var g, h := Group(stage, a, tag), Group(stage, b, tag);
    forall c ensures multiset(g)[c] == multiset(h)[c] {
      GroupCount(stage, a, tag, c);
      GroupCount(stage, b, tag, c);
    }
    assert multiset(g) == multiset(h);
    assert |g| == |multiset(g)| == |multiset(h)| == |h|;
    assert forall c :: c in g <==> c in multiset(g);
    assert forall c :: c in h <==> c in multiset(h);
  }

  lemma SameElements(a: seq<Capability>, b: seq<Capability>)
    requires multiset(a) == multiset(b)
    ensures forall c :: c in a <==> c in b
  {
    assert forall c :: c in a <==> c in multiset(a);
    assert forall c :: c in b <==> c in multiset(b);
  }

  lemma SameTags(stage: Stage, a: seq<Capability>, b: seq<Capability>)
    requires multiset(a) == multiset(b)
    ensures Tags(stage, a) == Tags(stage, b)
  {
    SameElements(a, b);
  }

  /** With distinct source paths, both merges give the same capability for every tag and every order of the input. */
  lemma MergeOrderIrrelevant(stage: Stage, a: seq<Capability>, b: seq<Capability>, tag: string)
    requires multiset(a) == multiset(b) && DistinctPaths(a) && tag in Tags(stage, a)
    ensures tag in Tags(stage, b)
    ensures Merged(stage, a, tag) == Merged(stage, b, tag)
    ensures AmbiguousTag(stage, a, tag) <==> AmbiguousTag(stage, b, tag)
  {
    SameTags(stage, a, b);
    GroupNonEmpty(stage, a, tag);
    SameGroups(stage, a, b, tag);
    var g, h := Group(stage, a, tag), Group(stage, b, tag);
    assert DistinctPaths(g);
    SameMetadata(stage, g, h);
    SameWinner(stage, g, h);
    assert g[0] in g;
  }
}
