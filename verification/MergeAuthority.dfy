/**
 Which source wins a merge, in the words of `source_authority_rank`
 (capmesh/manifest.py): authored files before vendor bundles, bundles before the
 shared registry, the registry before projected skills, those before every cache
 and every nested mirror.  No rank numbers appear here.
 */
module MergeAuthority {
  import opened Types
  import opened Text
  import opened Model
  import opened Merge

  predicate InMirror(path: string)
  {
    Contains(path, "/.codex/") || Contains(path, "/.cursor/")
  }

  /** A file of the authoring tree itself. */
  predicate Authored(c: Capability)
  {
    c.sourceSystem == "asg-os.plugins" && !InMirror(c.sourcePath)
  }

  /** An editor's copy nested in the authoring tree. */
  predicate Mirror(c: Capability)
  {
    c.sourceSystem == "asg-os.plugins" && InMirror(c.sourcePath)
  }

  predicate SystemBundle(c: Capability)
  {
    c.sourceSystem == "codex.skills" && Contains(c.sourcePath, "/.codex/skills/.system/")
  }

  predicate Registry(c: Capability)
  {
    c.sourceSystem == "agents.skill-registry"
  }

  predicate ProjectedSkill(c: Capability)
  {
    c.sourceSystem == "codex.skills" && !SystemBundle(c)
  }

  predicate CodexCache(c: Capability, channel: string)
  {
    c.sourceSystem == "codex.plugin-cache" && Contains(c.sourcePath, "/.codex/plugins/cache/" + channel + "/")
  }

  predicate RemoteCache(c: Capability)
  {
    CodexCache(c, "openai-curated-remote")
  }

  predicate BundledCache(c: Capability)
  {
    CodexCache(c, "openai-bundled") && !RemoteCache(c)
  }

  predicate CuratedCache(c: Capability)
  {
    CodexCache(c, "openai-curated") && !RemoteCache(c) && !BundledCache(c)
  }

  predicate OtherCodexCache(c: Capability)
  {
    c.sourceSystem == "codex.plugin-cache" && !RemoteCache(c) && !BundledCache(c) && !CuratedCache(c)
  }

  predicate ClaudeCache(c: Capability)
  {
    c.sourceSystem == "claude.plugin-cache"
  }

  predicate Unknown(c: Capability)
  {
    c.sourceSystem !in {"asg-os.plugins", "codex.skills", "agents.skill-registry", "codex.plugin-cache", "claude.plugin-cache"}
  }

  lemma Channels()
    ensures "/.codex/plugins/cache/" + "openai-curated-remote" + "/" == "/.codex/plugins/cache/openai-curated-remote/"
    ensures "/.codex/plugins/cache/" + "openai-bundled" + "/" == "/.codex/plugins/cache/openai-bundled/"
    ensures "/.codex/plugins/cache/" + "openai-curated" + "/" == "/.codex/plugins/cache/openai-curated/"
  {
  }

  /** Against any member of its group, the merged capability comes from a source at least as authoritative. */
  ghost predicate Outranks(m: Capability, c: Capability)
  {
    && (Authored(c) ==> Authored(m))
    && (SystemBundle(c) ==> Authored(m) || SystemBundle(m))
    && (Registry(c) ==> Authored(m) || SystemBundle(m) || Registry(m))
    && (ProjectedSkill(c) ==> Authored(m) || SystemBundle(m) || Registry(m) || ProjectedSkill(m))
    && (RemoteCache(c) ==> !Mirror(m) && !BundledCache(m) && !CuratedCache(m) && !OtherCodexCache(m) && !ClaudeCache(m) && !Unknown(m))
    && (BundledCache(c) || Mirror(c) ==> !CuratedCache(m) && !OtherCodexCache(m) && !ClaudeCache(m) && !Unknown(m))
    && (CuratedCache(c) ==> !OtherCodexCache(m) && !ClaudeCache(m) && !Unknown(m))
    && (OtherCodexCache(c) ==> !ClaudeCache(m) && !Unknown(m))
    && (ClaudeCache(m) ==> ClaudeCache(c) || Unknown(c))
    && (Unknown(m) ==> Unknown(c))
  }

  lemma RankOutranks(m: Capability, c: Capability)
    requires Rank(m) >= Rank(c)
    ensures Outranks(m, c)
  {
    Channels();
  }

  /** The winner of a merge, by key or by URI, outranks every member of its group. */
  lemma MergedOutranks(stage: Stage, caps: seq<Capability>, c: Capability)
    requires c in caps
    ensures Tag(stage, c) in Tags(stage, caps) && Outranks(Merged(stage, caps, Tag(stage, c)), c)
  {
    WinnerHasTopAuthority(stage, caps, c);
    RankOutranks(Merged(stage, caps, Tag(stage, c)), c);
  }

  /** An authored file in the group: the merged capability is an authored one of the group, with its content. */
  lemma AuthoredWins(stage: Stage, caps: seq<Capability>, c: Capability)
    requires c in caps && Authored(c)
    ensures Tag(stage, c) in Tags(stage, caps)
    ensures var m := Merged(stage, caps, Tag(stage, c));
      exists w :: w in caps && Tag(stage, w) == Tag(stage, c) && Authored(w) && m.hash == w.hash && m.sourcePath == w.sourcePath
  {
    WinnerHasTopAuthority(stage, caps, c);
    var m := Merged(stage, caps, Tag(stage, c));
    RankOutranks(m, c);
    var w :| w in caps && Tag(stage, w) == Tag(stage, c) && m == w.(metadata := m.metadata);
    assert Authored(w);
  }

  // ---- ties ----

  /** The text order of two sources of one tier: canonical key (by URI only), then system, then path. */
  ghost predicate NotAfter(stage: Stage, m: Capability, c: Capability)
  {
    || (stage == ByUri && Less(m.key, c.key))
    || ((stage == ByKey || m.key == c.key) && (Less(m.sourceSystem, c.sourceSystem) || (m.sourceSystem == c.sourceSystem && Leq(m.sourcePath, c.sourcePath))))
  }

  /** Among sources of one tier the texts decide. */
  lemma TieBreaks(stage: Stage, caps: seq<Capability>, c: Capability)
    requires c in caps
    ensures Tag(stage, c) in Tags(stage, caps)
    ensures var m := Merged(stage, caps, Tag(stage, c)); Rank(m) == Rank(c) ==> NotAfter(stage, m, c)
  {
    assert Tag(stage, c) in Tags(stage, caps);
    GroupNonEmpty(stage, caps, Tag(stage, c));
    TieInGroup(stage, Group(stage, caps, Tag(stage, c)), c);
  }

  lemma TieInGroup(stage: Stage, g: seq<Capability>, c: Capability)
    requires c in g
    ensures var m := MergeGroup(stage, g); Rank(m) == Rank(c) ==> NotAfter(stage, m, c)
  {
    LeqReflexive(c.sourcePath);
    if |g| == 1 {
      assert c == g[0];
    } else {
      WinnerPreferred(stage, g);
      if Rank(Winner(stage, g)) == Rank(c) {
        PreferredNotAfter(stage, Winner(stage, g), c);
      }
    }
  }

  lemma PreferredNotAfter(stage: Stage, w: Capability, c: Capability)
    requires Preferred(stage, w, c) && Rank(w) == Rank(c)
    ensures NotAfter(stage, w, c)
  {
    var a, b := TieBreak(stage, w), TieBreak(stage, c);
    LeqReflexive(w.sourcePath);
    if !Less(a[0], b[0]) {
      var a1, b1 := a[1..], b[1..];
      assert LexLeq(a1, b1) && a1[0] == w.sourceSystem && b1[0] == c.sourceSystem;
      if !Less(a1[0], b1[0]) {
        assert LexLeq(a1[1..], b1[1..]) && a1[1..][0] == w.sourcePath && b1[1..][0] == c.sourcePath;
      }
    }
  }

  // ---- what the merged metadata records ----

  /** Sources whose content differs from the merged capability's are recorded as conflicts, with the chosen source named. */
  ghost predicate RecordsConflicts(m: Capability)
  {
    m.metadata.sourceProvenance.Some? && var records := m.metadata.sourceProvenance.value;
    (exists s :: s in records && s.hash != m.hash) ==>
      && m.metadata.conflicts == Some(set s | s in records && s.hash != m.hash)
      && m.metadata.authority.Some? && m.metadata.authority.value.path == m.sourcePath && m.metadata.authority.value.system == m.sourceSystem
  }

  lemma ConflictsRecorded(stage: Stage, caps: seq<Capability>, tag: string)
    requires tag in Tags(stage, caps) && (stage == ByKey || |Group(stage, caps, tag)| > 1)
    ensures RecordsConflicts(Merged(stage, caps, tag))
  {
    GroupNonEmpty(stage, caps, tag);
    ConflictsInGroup(stage, Group(stage, caps, tag));
  }

  lemma ConflictsInGroup(stage: Stage, g: seq<Capability>)
    requires g != [] && (stage == ByKey || |g| > 1)
    ensures RecordsConflicts(MergeGroup(stage, g))
  {
    var m, w := MergeGroup(stage, g), Winner(stage, g);
    var records := Provenance(stage, g);
    assert m.metadata.sourceProvenance == Some(records) && m.hash == w.hash;
    var conflicts := set s | s in records && s.hash != w.hash;
    if exists s :: s in records && s.hash != m.hash {
      var s :| s in records && s.hash != m.hash;
      assert s in conflicts;
    }
  }

  /** Different content at the winner's own tier is recorded as a collision of this merge, resolved by tie-break. */
  ghost predicate RecordsCollision(stage: Stage, m: Capability, a: Capability, b: Capability)
  {
    && (match stage case ByKey => m.metadata.keyCollision case ByUri => m.metadata.uriCollision)
    && m.metadata.ambiguousSources.Some? && a.sourcePath in m.metadata.ambiguousSources.value && b.sourcePath in m.metadata.ambiguousSources.value
    && m.metadata.authority.Some? && m.metadata.authority.value.tiebreak && m.metadata.authority.value.path == m.sourcePath
  }

  lemma CollisionsRecorded(stage: Stage, caps: seq<Capability>, a: Capability, b: Capability)
    requires a in caps && b in caps && Tag(stage, a) == Tag(stage, b) && a.hash != b.hash
    ensures Tag(stage, a) in Tags(stage, caps)
    ensures var m := Merged(stage, caps, Tag(stage, a)); Rank(a) == Rank(m) == Rank(b) ==> RecordsCollision(stage, m, a, b)
  {
    assert Tag(stage, a) in Tags(stage, caps);
    GroupNonEmpty(stage, caps, Tag(stage, a));
    var g := Group(stage, caps, Tag(stage, a));
    assert a in g && b in g;
    TwoMembers(g, a, b);
    if Rank(a) == Rank(Winner(stage, g)) == Rank(b) {
      CollisionInGroup(stage, g, a, b);
    }
  }

  lemma TwoMembers(g: seq<Capability>, a: Capability, b: Capability)
    requires a in g && b in g && a != b
    ensures |g| > 1
  {
  }

  lemma CollisionInGroup(stage: Stage, g: seq<Capability>, a: Capability, b: Capability)
    requires |g| > 1 && a in g && b in g && a.hash != b.hash && Rank(a) == Rank(Winner(stage, g)) == Rank(b)
    ensures RecordsCollision(stage, MergeGroup(stage, g), a, b)
  {
    assert a in TopSources(stage, g) && b in TopSources(stage, g);
    assert Ambiguous(stage, g);
  }
}
