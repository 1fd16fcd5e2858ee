/**
 What an approved or verified column stands for, over any run of discovery
 upserts, URI migrations (capmesh/index.py) and reviews (capmesh/lifecycle.py).
 */
module ReviewEvidence {
  import opened Types
  import opened Model
  import opened CatalogApproval
  import Catalog

  /** `Relocate` is an upsert of a capability whose canonical key owns a row at another URI. */
  datatype Step = Discover(cap: Capability) | Relocate(from: string, cap: Capability) | ReviewOne(uri: string, ctx: Context)

  /** Discovery does not itself claim approval or verification. */
  predicate Unclaimed(g: Governance)
  {
    g.approvalState != "approved" && g.signature != "verified" && g.provenance != "verified" && g.riskReview != "approved"
  }

  predicate Claims(g: Governance)
  {
    !Unclaimed(g)
  }

  predicate Allowed(s: Step)
  {
    !s.ReviewOne? ==> Unclaimed(s.cap.gov)
  }

  /** The row at `from` is migrated: it has the key, it is no approved promotion, and the new URI is free. */
  predicate Moves(db: Db, from: string, c: Capability)
  {
    from in db.rows && c.uri !in db.rows && db.rows[from].key == c.key && !Catalog.Pinned(db.rows[from])
  }

  function Next(db: Db, s: Step): Db
  {
    match s
    case Discover(c) => db.(rows := db.rows[c.uri := if c.uri in db.rows then Refreshed(db.rows[c.uri], c) else c])
    case Relocate(from, c) =>
      if Moves(db, from, c) then db.(rows := (db.rows - {from})[c.uri := Refreshed(db.rows[from].(uri := c.uri), c)]) else db
    case ReviewOne(u, ctx) =>
      if u in db.rows && db.rows[u].tenant == ctx.tenant && !ctx.dryRun then Reviewed(db, [u], ctx) else db
  }

  /** A passing review of this content at this URI is stored. */
  ghost predicate HasReview(reviews: set<Review>, u: string, hash: string)
  {
    exists r :: r in reviews && r.uri == u && r.hash == hash
  }

  ghost predicate EvidencedAt(db: Db, u: string)
    requires u in db.rows
  {
    db.rows[u].uri == u && (Claims(db.rows[u].gov) ==> HasReview(db.reviews, u, db.rows[u].hash))
  }

  ghost predicate Evidenced(db: Db)
  {
    forall u :: u in db.rows ==> EvidencedAt(db, u)
  }

  /** An upsert never adds a claim, and keeps one exactly with its content. */
  lemma RefreshClaims(o: Capability, c: Capability)
    requires o.uri == c.uri && Unclaimed(c.gov)
    ensures Refreshed(o, c).uri == o.uri && Refreshed(o, c).hash == c.hash
    ensures Claims(Refreshed(o, c).gov) <==> Claims(o.gov) && o.hash == c.hash
  {
    NoOpSuppressionExact(o, Clamp(o, c));
  }

  lemma DiscoverEvidenced(db: Db, c: Capability)
    requires Evidenced(db) && Unclaimed(c.gov)
    ensures Evidenced(Next(db, Discover(c)))
  {
    var db' := Next(db, Discover(c));
    if c.uri in db.rows {
      assert EvidencedAt(db, c.uri);
      RefreshClaims(db.rows[c.uri], c);
    }
    forall u | u in db'.rows ensures EvidencedAt(db', u) {
      assert u != c.uri ==> EvidencedAt(db, u);
    }
  }

  lemma ReviewEvidenced(db: Db, u: string, ctx: Context)
    requires Evidenced(db)
    ensures Evidenced(Next(db, ReviewOne(u, ctx)))
  {
    var db' := Next(db, ReviewOne(u, ctx));
    forall v | v in db'.rows ensures EvidencedAt(db', v) {
      assert EvidencedAt(db, v);
      if db'.rows[v] != db.rows[v] {
        assert v in [u];
        assert ReviewOf(ctx, db.rows[v]) in NewReviews(db.rows, [u], ctx);
      } else if Claims(db.rows[v].gov) {
        var r :| r in db.reviews && r.uri == v && r.hash == db.rows[v].hash;
        assert r in db'.reviews;
      }
    }
  }

  /** What a migration must not do: carry a claim on unchanged content to a URI where that content was not reviewed. */
  ghost predicate Justified(db: Db, s: Step)
  {
    s.Relocate? && Moves(db, s.from, s.cap) && Claims(db.rows[s.from].gov) && db.rows[s.from].hash == s.cap.hash ==>
      HasReview(db.reviews, s.cap.uri, s.cap.hash)
  }

  lemma RelocateEvidencedIff(db: Db, from: string, c: Capability)
    requires Evidenced(db) && Unclaimed(c.gov)
    ensures Evidenced(Next(db, Relocate(from, c))) <==> Justified(db, Relocate(from, c))
  {
    if Moves(db, from, c) {
      var db', o := Next(db, Relocate(from, c)), db.rows[from].(uri := c.uri);
      RefreshClaims(o, c);
      forall u | u in db'.rows && u != c.uri ensures EvidencedAt(db', u) {
        assert EvidencedAt(db, u);
      }
      assert EvidencedAt(db', c.uri) <==> Justified(db, Relocate(from, c));
    }
  }

  /** A step keeps the evidence complete if and only if it is no unjustified migration. */
  lemma NextEvidencedIff(db: Db, s: Step)
    requires Evidenced(db) && Allowed(s)
    ensures Evidenced(Next(db, s)) <==> Justified(db, s)
  {
    match s {
      case Discover(c) => DiscoverEvidenced(db, c);
      case Relocate(from, c) => RelocateEvidencedIff(db, from, c);
      case ReviewOne(u, ctx) => ReviewEvidenced(db, u, ctx);
    }
  }

  // ---- runs ----

  ghost predicate AllJustified(db: Db, steps: seq<Step>)
    decreases |steps|
  {
    steps == [] || (Justified(db, steps[0]) && AllJustified(Next(db, steps[0]), steps[1..]))
  }

  ghost predicate AlwaysEvidenced(db: Db, steps: seq<Step>)
    decreases |steps|
  {
    Evidenced(db) && (steps == [] || AlwaysEvidenced(Next(db, steps[0]), steps[1..]))
  }

  /**
   In every state of a run, a row that is approved, or whose signature,
   provenance or risk review is marked good, has a stored passing review for
   exactly its current content at its URI, if and only if every migration of the
   run was justified.
   */
  lemma {:induction false} RunEvidencedIff(db: Db, steps: seq<Step>)
    requires Evidenced(db) && forall s :: s in steps ==> Allowed(s)
    ensures AlwaysEvidenced(db, steps) <==> AllJustified(db, steps)
    decreases |steps|
  {
    if steps != [] {
      assert Allowed(steps[0]);
      NextEvidencedIff(db, steps[0]);
      if Justified(db, steps[0]) {
        RunEvidencedIff(Next(db, steps[0]), steps[1..]);
      }
    }
  }

  /** At fixed URIs, without migrations, every claim is evidenced throughout. */
  lemma {:induction false} RunEvidenced(db: Db, steps: seq<Step>)
    requires Evidenced(db) && forall s :: s in steps ==> Allowed(s) && !s.Relocate?
    ensures AlwaysEvidenced(db, steps)
    decreases |steps|
  {
    if steps != [] {
      assert Allowed(steps[0]) && !steps[0].Relocate?;
      NextEvidencedIff(db, steps[0]);
      RunEvidenced(Next(db, steps[0]), steps[1..]);
    }
  }

  /** A reviewed and approved row, found again with the same key and content under another URI: approved there without a review. */
  lemma ApprovalOutlivesReview(c: Capability, from: string, scope: string)
    requires c.uri != from && Unclaimed(c.gov) && Truthy(c.promotedFrom).None?
    ensures var db := Db(map[from := Approve(c.(uri := from))], {Review(c.tenant, from, c.hash, scope)}, []);
      && Evidenced(db) && !Evidenced(Next(db, Relocate(from, c)))
      && c.uri in Next(db, Relocate(from, c)).rows && Next(db, Relocate(from, c)).rows[c.uri].gov.approvalState == "approved"
  {
    var db := Db(map[from := Approve(c.(uri := from))], {Review(c.tenant, from, c.hash, scope)}, []);
    assert Review(c.tenant, from, c.hash, scope) in db.reviews;
    assert Evidenced(db);
    RelocateEvidencedIff(db, from, c);
    NoOpSuppressionExact(db.rows[from].(uri := c.uri), Clamp(db.rows[from].(uri := c.uri), c));
  }
}
