/**
 What the search index holds (capmesh/index.py, `index_text` in
 capmesh/models.py): in a coherent catalog every capability can be found by each
 of its own words.
 */
module SearchIndex {
  import opened Types
  import opened Text
  import opened Model
  import opened Catalog
  import opened Ingest

  /** A text by which the capability should be found. */
  predicate Describes(d: Details, term: string)
  {
    term != "" && (term in [d.name, d.title, d.description, d.capType] || d.plugin == Some(term) || d.category == Some(term) || term in d.keywords)
  }

  // ---- substrings ----

  lemma {:induction false} ContainsAfter(a: string, b: string, term: string)
    requires Contains(b, term)
    ensures Contains(a + b, term)
  {
    if a == "" {
      assert a + b == b;
    } else {
      ContainsAfter(a[1..], b, term);
      assert (a + b)[1..] == a[1..] + b;
    }
  }

  lemma {:induction false} ContainsBefore(a: string, b: string, term: string)
    requires Contains(a, term)
    ensures Contains(a + b, term)
  {
    if term <= a {
      assert term <= a + b;
    } else {
      ContainsBefore(a[1..], b, term);
      assert (a + b)[1..] == a[1..] + b;
    }
  }

  lemma {:induction false} ContainsTransitive(s: string, part: string, term: string)
    requires Contains(s, part) && Contains(part, term)
    ensures Contains(s, term)
  {
    if part <= s {
      assert s == part + s[|part|..];
      ContainsBefore(part, s[|part|..], term);
    } else {
      ContainsTransitive(s[1..], part, term);
    }
  }

  lemma {:induction false} JoinContains(sep: string, parts: seq<string>, part: string)
    requires part in parts
    ensures Contains(Join(sep, parts), part)
  {
    if |parts| > 1 {
      var rest := Join(sep, parts[1..]);
      if part == parts[0] {
        assert part <= part + sep + rest;
      } else {
        JoinContains(sep, parts[1..], part);
        ContainsAfter(parts[0] + sep, rest, part);
      }
    }
  }

  lemma {:induction false} NonEmptyKeeps(parts: seq<string>, part: string)
    requires part in parts && part != ""
    ensures part in NonEmpty(parts)
  {
    if part != parts[0] {
      NonEmptyKeeps(parts[1..], part);
    }
  }

  // ---- the index text ----

  function Lines(d: Details): seq<string>
  {
    [d.name, d.title, d.description, d.capType, Or(d.plugin, ""), Or(d.category, ""), Join(" ", d.keywords)]
  }

  lemma LineIndexed(d: Details, line: string)
    requires line in Lines(d) && line != ""
    ensures Contains(IndexText(d), line)
  {
    NonEmptyKeeps(Lines(d), line);
    JoinContains("\n", NonEmpty(Lines(d)), line);
  }

  lemma KeywordIndexed(d: Details, keyword: string)
    requires keyword in d.keywords && keyword != ""
    ensures Contains(IndexText(d), keyword) && Contains(Join(" ", d.keywords), keyword)
  {
    JoinContains(" ", d.keywords, keyword);
    LineIndexed(d, Join(" ", d.keywords));
    ContainsTransitive(IndexText(d), Join(" ", d.keywords), keyword);
  }

  /** Every describing text is part of the indexed content. */
  lemma DescriptionIndexed(d: Details, term: string)
    requires Describes(d, term)
    ensures Contains(IndexText(d), term)
  {
    if term in d.keywords {
      KeywordIndexed(d, term);
    } else {
      assert term in Lines(d);
      LineIndexed(d, term);
    }
  }

  // ---- the index ----

  /** The entry carries the row's own texts, and its content every text by which it should be found. */
  ghost predicate Findable(c: Capability, f: Fts)
  {
    && f.uri == c.uri && f.name == c.details.name && f.title == c.details.title && f.description == c.details.description
    && (forall p :: c.details.plugin == Some(p) ==> f.plugin == p)
    && (forall p :: c.details.category == Some(p) ==> f.category == p)
    && (forall k :: k in c.details.keywords && k != "" ==> Contains(f.keywords, k))
    && forall term :: Describes(c.details, term) ==> Contains(f.content, term)
  }

  lemma EntryFindable(c: Capability)
    ensures Findable(c, FtsOf(c))
  {
    forall term | Describes(c.details, term) ensures Contains(FtsOf(c).content, term) {
      DescriptionIndexed(c.details, term);
    }
    forall k | k in c.details.keywords && k != "" ensures Contains(FtsOf(c).keywords, k) {
      KeywordIndexed(c.details, k);
    }
  }

  /** In a coherent catalog each capability has an entry of its own under which it can be found. */
  lemma CatalogFindable(t: Tables, u: string)
    requires Coherent(t) && u in t.rows
    ensures t.rows[u].id in t.fts && t.rows[u].cap.uri == u && Findable(t.rows[u].cap, t.fts[t.rows[u].id])
    ensures forall v :: v in t.rows && v != u ==> t.rows[v].id != t.rows[u].id
  {
    EntryFindable(t.rows[u].cap);
  }

  /** So after every ingest that commits. */
  lemma IngestFindable(t: Tables, batch: seq<Capability>, holds: set<HoldKey>, u: string)
    requires Coherent(t) && IngestBatch(t, batch, holds).Ok? && u in IngestBatch(t, batch, holds).value.rows
    ensures var t' := IngestBatch(t, batch, holds).value;
      t'.rows[u].id in t'.fts && Findable(t'.rows[u].cap, t'.fts[t'.rows[u].id])
  {
    IngestCoherent(t, batch, holds);
    CatalogFindable(IngestBatch(t, batch, holds).value, u);
  }
}
