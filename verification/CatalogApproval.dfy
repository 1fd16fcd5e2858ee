/**
 Gate reviews of the catalog (capmesh/lifecycle.py): one capability, one page,
 and the loop that pages through the catalog while changing the columns it
 filters on.  The gates are an arbitrary function of the stored capability.
 */
module CatalogApproval {
  import opened Types
  import opened Text
  import opened Model
  import opened Catalog

  /** What a review comes to; an exception may strike before or after its writes. */
  datatype Outcome = Pass | Fail | Raise | RaiseAfterWrites

  datatype Review = Review(tenant: string, uri: string, hash: string, scope: string)

  datatype Db = Db(rows: map<string, Capability>, reviews: set<Review>, audit: seq<string>)

  datatype Context = Context(tenant: string, holds: set<HoldKey>, gate: Capability -> Outcome, scope: Capability -> string, dryRun: bool)

  datatype Item = Item(uri: string, passed: bool)

  datatype Error = Forbidden | BadLimit

  const MAX_BATCH := 500

  ghost predicate ByUri(rows: map<string, Capability>)
  {
    forall u :: u in rows ==> rows[u].uri == u
  }

  /** Not held, every gate passes, and nothing goes wrong while recording it (a dry run records nothing). */
  predicate Passes(ctx: Context, c: Capability)
  {
    HoldKeyOf(c) !in ctx.holds && (ctx.gate(c) == Pass || (ctx.dryRun && ctx.gate(c) == RaiseAfterWrites))
  }

  function Approve(c: Capability): Capability
  {
    c.(gov := c.gov.(approvalState := "approved", lifecycle := "published", signature := "verified", provenance := "verified", riskReview := "approved"))
  }

  function ReviewOf(ctx: Context, c: Capability): Review
  {
    Review(c.tenant, c.uri, c.hash, ctx.scope(c))
  }

  predicate Reviewable(c: Capability, tenant: string)
  {
    c.tenant == tenant && c.sourceKind != "system_capability"
  }

  predicate Verified(g: Governance)
  {
    g.approvalState == "approved" && g.signature == "verified" && g.provenance == "verified" && g.riskReview == "approved"
  }

  /** The page filter. */
  predicate Selected(c: Capability, tenant: string, includeApproved: bool)
  {
    Reviewable(c, tenant) &&
    if includeApproved then c.gov.approvalState in {"approved", "draft", "pending"} && !Verified(c.gov)
    else c.gov.approvalState in {"draft", "pending"}
  }

  predicate Compliant(g: Governance)
  {
    Verified(g) && g.lifecycle == "published"
  }

  function Candidates(rows: map<string, Capability>, tenant: string, includeApproved: bool, after: string): set<string>
  {
    set u | u in rows && Selected(rows[u], tenant, includeApproved) && Less(after, u)
  }

  // ---- what reviewing a list of URIs comes to ----

  function Passing(rows: map<string, Capability>, uris: seq<string>, ctx: Context): seq<string>
  {
    if uris == [] then []
    else
      var last := uris[|uris| - 1];
      Passing(rows, uris[..|uris| - 1], ctx) + (if last in rows && Passes(ctx, rows[last]) then [last] else [])
  }

  /** Exactly the passing ones are approved, reviewed and audited, the last in order. */
  function Reviewed(db: Db, uris: seq<string>, ctx: Context): Db
  {
    Db(ReviewedRows(db.rows, uris, ctx), db.reviews + NewReviews(db.rows, uris, ctx), db.audit + Passing(db.rows, uris, ctx))
  }

  function ReviewedRows(rows: map<string, Capability>, uris: seq<string>, ctx: Context): map<string, Capability>
  {
    map u | u in rows :: if u in uris && Passes(ctx, rows[u]) then Approve(rows[u]) else rows[u]
  }

  function NewReviews(rows: map<string, Capability>, uris: seq<string>, ctx: Context): set<Review>
  {
    set u | u in uris && u in rows && Passes(ctx, rows[u]) :: ReviewOf(ctx, rows[u])
  }

  function ItemsOf(rows: map<string, Capability>, uris: seq<string>, ctx: Context): seq<Item>
  {
    seq(|uris|, i requires 0 <= i < |uris| => Item(uris[i], uris[i] in rows && Passes(ctx, rows[uris[i]])))
  }

  lemma ReviewedNothing(db: Db, ctx: Context)
    ensures Reviewed(db, [], ctx) == db
  {
    assert Reviewed(db, [], ctx).rows == db.rows;
  }

  lemma RowsOneMore(rows: map<string, Capability>, uris: seq<string>, u: string, ctx: Context)
    requires u in rows && u !in uris
    ensures ReviewedRows(rows, uris, ctx)[u] == rows[u]
    ensures ReviewedRows(rows, uris + [u], ctx) ==
      if Passes(ctx, rows[u]) then ReviewedRows(rows, uris, ctx)[u := Approve(rows[u])] else ReviewedRows(rows, uris, ctx)
  {
  }

  lemma ReviewsOneMore(rows: map<string, Capability>, uris: seq<string>, u: string, ctx: Context)
    requires u in rows && u !in uris
    ensures NewReviews(rows, uris + [u], ctx) == NewReviews(rows, uris, ctx) + if Passes(ctx, rows[u]) then {ReviewOf(ctx, rows[u])} else {}
  {
    forall r | r in NewReviews(rows, uris, ctx) ensures r in NewReviews(rows, uris + [u], ctx) {
      var v :| v in uris && v in rows && Passes(ctx, rows[v]) && r == ReviewOf(ctx, rows[v]);
      assert v in uris + [u];
    }
    assert u in uris + [u];
  }

  lemma ReviewedOneMore(db: Db, uris: seq<string>, u: string, ctx: Context)
    requires u in db.rows && u !in uris
    ensures var d := Reviewed(db, uris, ctx);
      && d.rows[u] == db.rows[u]
      && Reviewed(db, uris + [u], ctx) ==
         if Passes(ctx, db.rows[u])
         then Db(d.rows[u := Approve(db.rows[u])], d.reviews + {ReviewOf(ctx, db.rows[u])}, d.audit + [u])
         else d
  {
    assert (uris + [u])[..|uris|] == uris;
    RowsOneMore(db.rows, uris, u, ctx);
    ReviewsOneMore(db.rows, uris, u, ctx);
    assert db.audit + (Passing(db.rows, uris, ctx) + [u]) == db.audit + Passing(db.rows, uris, ctx) + [u];
    assert db.audit + (Passing(db.rows, uris, ctx) + []) == db.audit + Passing(db.rows, uris, ctx);
  }

  lemma {:induction false} PassingSplit(rows: map<string, Capability>, a: seq<string>, b: seq<string>, ctx: Context)
    ensures Passing(rows, a + b, ctx) == Passing(rows, a, ctx) + Passing(rows, b, ctx)
    decreases |b|
  {
    if b == [] {
      assert a + b == a;
    } else {
      var b' := b[..|b| - 1];
      assert (a + b)[..|a + b| - 1] == a + b' && (a + b)[|a + b| - 1] == b[|b| - 1];
      PassingSplit(rows, a, b', ctx);
    }
  }

  lemma {:induction false} PassingUntouched(rows: map<string, Capability>, rows': map<string, Capability>, uris: seq<string>, ctx: Context)
    requires forall u :: u in uris ==> (u in rows <==> u in rows') && (u in rows ==> rows[u] == rows'[u])
    ensures Passing(rows, uris, ctx) == Passing(rows', uris, ctx)
  {
    if uris != [] {
      PassingUntouched(rows, rows', uris[..|uris| - 1], ctx);
    }
  }

  lemma ReviewsTwice(rows: map<string, Capability>, rows': map<string, Capability>, a: seq<string>, b: seq<string>, ctx: Context)
    requires forall u :: u in b ==> (u in rows <==> u in rows') && (u in rows ==> rows[u] == rows'[u])
    ensures NewReviews(rows, a, ctx) + NewReviews(rows', b, ctx) == NewReviews(rows, a + b, ctx)
  {
    forall r | r in NewReviews(rows, a + b, ctx) ensures r in NewReviews(rows, a, ctx) + NewReviews(rows', b, ctx) {
      var v :| v in a + b && v in rows && Passes(ctx, rows[v]) && r == ReviewOf(ctx, rows[v]);
    }
    forall r | r in NewReviews(rows, a, ctx) ensures r in NewReviews(rows, a + b, ctx) {
      var v :| v in a && v in rows && Passes(ctx, rows[v]) && r == ReviewOf(ctx, rows[v]);
      assert v in a + b;
    }
    forall r | r in NewReviews(rows', b, ctx) ensures r in NewReviews(rows, a + b, ctx) {
      var v :| v in b && v in rows' && Passes(ctx, rows'[v]) && r == ReviewOf(ctx, rows'[v]);
      assert v in a + b;
    }
  }

  lemma RowsTwice(rows: map<string, Capability>, a: seq<string>, b: seq<string>, ctx: Context)
    requires forall u :: u in a ==> u !in b
    ensures ReviewedRows(ReviewedRows(rows, a, ctx), b, ctx) == ReviewedRows(rows, a + b, ctx)
  {
  }

  /** Reviewing two disjoint lists one after the other is reviewing their concatenation. */
  lemma ReviewedTwice(db: Db, a: seq<string>, b: seq<string>, ctx: Context)
    requires forall u :: u in a ==> u !in b
    ensures Reviewed(Reviewed(db, a, ctx), b, ctx) == Reviewed(db, a + b, ctx)
  {
    var rows' := ReviewedRows(db.rows, a, ctx);
    PassingUntouched(db.rows, rows', b, ctx);
    PassingSplit(db.rows, a, b, ctx);
    ReviewsTwice(db.rows, rows', a, b, ctx);
    RowsTwice(db.rows, a, b, ctx);
    assert db.reviews + NewReviews(db.rows, a, ctx) + NewReviews(rows', b, ctx) == db.reviews + NewReviews(db.rows, a + b, ctx);
    assert db.audit + Passing(db.rows, a, ctx) + Passing(rows', b, ctx) == db.audit + Passing(db.rows, a + b, ctx);
  }

  lemma PageNext(page: seq<string>, i: nat)
    requires NoDuplicates(page) && i < |page|
    ensures page[i] in page && page[i] !in page[..i] && page[..i + 1] == page[..i] + [page[i]]
  {
  }

  lemma ItemsOneMore(rows: map<string, Capability>, uris: seq<string>, u: string, ctx: Context)
    requires u in rows
    ensures ItemsOf(rows, uris + [u], ctx) == ItemsOf(rows, uris, ctx) + [Item(u, Passes(ctx, rows[u]))]
  {
  }

  lemma ItemsTwice(db: Db, a: seq<string>, b: seq<string>, ctx: Context)
    requires forall u :: u in a ==> u !in b
    ensures ItemsOf(db.rows, a + b, ctx) == ItemsOf(db.rows, a, ctx) + ItemsOf(Reviewed(db, a, ctx).rows, b, ctx)
  {
  }

  // ---- pages ----

  function Above(s: set<string>, cursor: string): set<string>
  {
    set u | u in s && Less(cursor, u)
  }

  lemma AboveIndex(all: seq<string>, limit: nat, u: string)
    requires StrictlySorted(all) && 1 <= limit < |all|
    ensures u in all && Less(all[limit - 1], u) <==> u in all[limit..]
  {
    var cursor := all[limit - 1];
    if u in all && Less(cursor, u) {
      var i :| 0 <= i < |all| && all[i] == u;
      if i < limit - 1 {
        LeqAntisymmetric(u, cursor);
      }
      assert all[limit..][i - limit] == u;
    }
    if u in all[limit..] {
      var i :| 0 <= i < |all[limit..]| && all[limit..][i] == u;
      assert all[limit + i] == u;
    }
  }

  /** What lies above the last URI of a page is the rest of the list. */
  lemma PageSplit(s: set<string>, limit: nat)
    requires 1 <= limit < |SortedSet(s)|
    ensures SortedSet(Above(s, SortedSet(s)[limit - 1])) == SortedSet(s)[limit..]
  {
    var all := SortedSet(s);
    var cursor, rest := all[limit - 1], all[limit..];
    SortedSetSorted(s);
    SortedSetSorted(Above(s, cursor));
    forall u ensures u in Above(s, cursor) <==> u in Elements(rest) {
      assert u in s <==> u in Elements(all);
      AboveIndex(all, limit, u);
    }
    assert Above(s, cursor) == Elements(rest);
    StrictlySortedUnique(SortedSet(Above(s, cursor)), rest);
  }

  /** The page of at most `limit` URIs, and the cursor to go on from when more remain. */
  function PageOf<T>(all: seq<T>, limit: nat): seq<T>
  {
    if |all| > limit then all[..limit] else all
  }

  function CursorOf(all: seq<string>, limit: nat): Option<string>
  {
    if |all| > limit > 0 then Some(all[limit - 1]) else None
  }

  lemma PageFrom(s: set<string>, limit: nat)
    ensures NoDuplicates(PageOf(SortedSet(s), limit)) && forall u :: u in PageOf(SortedSet(s), limit) ==> u in s
  {
    SortedSetSorted(s);
    assert forall u :: u in SortedSet(s) ==> u in Elements(SortedSet(s));
  }

  /** Reviewing a page leaves the filter above its cursor as it was. */
  lemma CandidatesAfterPage(db: Db, page: seq<string>, ctx: Context, after: string, cursor: string)
    requires Less(after, cursor) && forall u :: u in page ==> Leq(u, cursor)
    ensures Candidates(Reviewed(db, page, ctx).rows, ctx.tenant, true, cursor) == Above(Candidates(db.rows, ctx.tenant, true, after), cursor)
  {
    var rows' := Reviewed(db, page, ctx).rows;
    forall u | u in db.rows && Less(cursor, u) ensures rows'[u] == db.rows[u] && Less(after, u) {
      if u in page {
        LeqAntisymmetric(u, cursor);
      }
      LessTransitive(after, cursor, u);
    }
    assert Candidates(rows', ctx.tenant, true, cursor) == Above(Candidates(db.rows, ctx.tenant, true, after), cursor);
  }

  /** What the next pages will review. */
  function Pending(db: Db, ctx: Context, after: string): seq<string>
  {
    SortedSet(Candidates(db.rows, ctx.tenant, true, after))
  }

  /** The URIs reviewed so far and those still selected make up the original selection. */
  ghost predicate Progress(start: Db, ctx: Context, done: seq<string>, db: Db, after: string)
  {
    db == Reviewed(start, done, ctx) && done + Pending(db, ctx, after) == Worklist(start.rows, ctx)
  }

  lemma PageAppends(start: Db, ctx: Context, done: seq<string>, db: Db, after: string, page: seq<string>)
    requires Progress(start, ctx, done, db, after) && page <= Pending(db, ctx, after)
    ensures Reviewed(db, page, ctx) == Reviewed(start, done + page, ctx)
    ensures ItemsOf(start.rows, done + page, ctx) == ItemsOf(start.rows, done, ctx) + ItemsOf(db.rows, page, ctx)
  {
    WorklistElements(start.rows, ctx);
    DisjointParts(done, Pending(db, ctx, after), page);
    ReviewedTwice(start, done, page, ctx);
    ItemsTwice(start, done, page, ctx);
  }

  /** One page: either it was the last, or the loop goes on from its cursor with less to do. */
  lemma PageProgress(start: Db, ctx: Context, done: seq<string>, db: Db, after: string, limit: nat)
    requires Progress(start, ctx, done, db, after) && limit >= 1
    ensures var page, cursor := PageOf(Pending(db, ctx, after), limit), CursorOf(Pending(db, ctx, after), limit);
      if cursor.None? then done + page == Worklist(start.rows, ctx)
      else Progress(start, ctx, done + page, Reviewed(db, page, ctx), cursor.value) &&
           |Pending(Reviewed(db, page, ctx), ctx, cursor.value)| < |Pending(db, ctx, after)|
  {
    if |Pending(db, ctx, after)| > limit {
      MorePages(start, ctx, done, db, after, limit, Pending(db, ctx, after));
    }
  }

  lemma MorePages(start: Db, ctx: Context, done: seq<string>, db: Db, after: string, limit: nat, all: seq<string>)
    requires Progress(start, ctx, done, db, after) && all == Pending(db, ctx, after) && 1 <= limit < |all|
    ensures Progress(start, ctx, done + all[..limit], Reviewed(db, all[..limit], ctx), all[limit - 1])
    ensures |Pending(Reviewed(db, all[..limit], ctx), ctx, all[limit - 1])| < |all|
  {
    var page, rest := all[..limit], all[limit..];
    PageAppends(start, ctx, done, db, after, page);
    RestAfterPage(db, ctx, after, limit);
    SplitAt(done, all, limit);
  }

  lemma SplitAt(done: seq<string>, all: seq<string>, limit: nat)
    requires limit <= |all|
    ensures done + all == (done + all[..limit]) + all[limit..]
  {
  }

  lemma DisjointParts(done: seq<string>, all: seq<string>, page: seq<string>)
    requires NoDuplicates(done + all) && page <= all
    ensures forall u :: u in done ==> u !in page
  {
    forall u | u in done ensures u !in page {
      var i :| 0 <= i < |done| && done[i] == u;
      forall j | 0 <= j < |page| ensures page[j] != u {
        assert (done + all)[i] == u && (done + all)[|done| + j] == page[j];
      }
    }
  }

  lemma RestAfterPage(db: Db, ctx: Context, after: string, limit: nat)
    requires 1 <= limit < |Pending(db, ctx, after)|
    ensures var all := Pending(db, ctx, after);
      Pending(Reviewed(db, all[..limit], ctx), ctx, all[limit - 1]) == all[limit..]
  {
    var s := Candidates(db.rows, ctx.tenant, true, after);
    var all := SortedSet(s);
    SortedSetSorted(s);
    assert all[limit - 1] in Elements(all);
    forall u | u in all[..limit] ensures Leq(u, all[limit - 1]) {
      var i :| 0 <= i < limit && all[i] == u;
      LeqReflexive(u);
    }
    CandidatesAfterPage(db, all[..limit], ctx, after, all[limit - 1]);
    PageSplit(s, limit);
  }

  // ---- the verdict on the catalog ----

  function NonCompliant(rows: map<string, Capability>, tenant: string): set<string>
  {
    set u | u in rows && Reviewable(rows[u], tenant) && !Compliant(rows[u].gov)
  }

  function Failures(items: seq<Item>): seq<Item>
  {
    if items == [] then []
    else
      var last := items[|items| - 1];
      Failures(items[..|items| - 1]) + (if last.passed then [] else [last])
  }

  lemma {:induction false} NoFailuresIff(items: seq<Item>)
    ensures Failures(items) == [] <==> forall i :: 0 <= i < |items| ==> items[i].passed
  {
    if items != [] {
      var front := items[..|items| - 1];
      NoFailuresIff(front);
      assert forall i :: 0 <= i < |front| ==> front[i] == items[i];
    }
  }

  /** Every selected capability passes, and every other one already complies. */
  ghost predicate Approvable(rows: map<string, Capability>, ctx: Context)
  {
    forall u :: u in rows && Reviewable(rows[u], ctx.tenant) ==>
      if u in Candidates(rows, ctx.tenant, true, "") then Passes(ctx, rows[u]) else Compliant(rows[u].gov)
  }

  function Worklist(rows: map<string, Capability>, ctx: Context): seq<string>
  {
    SortedSet(Candidates(rows, ctx.tenant, true, ""))
  }

  lemma WorklistElements(rows: map<string, Capability>, ctx: Context)
    ensures forall u :: u in Worklist(rows, ctx) <==> u in Candidates(rows, ctx.tenant, true, "")
    ensures StrictlySorted(Worklist(rows, ctx)) && NoDuplicates(Worklist(rows, ctx))
  {
    var s := Candidates(rows, ctx.tenant, true, "");
    SortedSetSorted(s);
    assert forall u :: u in Worklist(rows, ctx) <==> u in Elements(SortedSet(s));
  }

  lemma AllPassIff(rows: map<string, Capability>, list: seq<string>, ctx: Context)
    requires forall u :: u in list ==> u in rows
    ensures Failures(ItemsOf(rows, list, ctx)) == [] <==> forall u :: u in list ==> Passes(ctx, rows[u])
  {
    var items := ItemsOf(rows, list, ctx);
    NoFailuresIff(items);
    assert forall i :: 0 <= i < |list| ==> list[i] in list && items[i].passed == Passes(ctx, rows[list[i]]);
  }

  lemma LeftNonCompliant(rows: map<string, Capability>, list: seq<string>, ctx: Context, u: string)
    requires u in rows && Reviewable(rows[u], ctx.tenant)
    ensures u in NonCompliant(ReviewedRows(rows, list, ctx), ctx.tenant) <==> !(u in list && Passes(ctx, rows[u])) && !Compliant(rows[u].gov)
  {
  }

  /** After the reviews nothing failed and nothing is left non-compliant exactly when the catalog was approvable. */
  lemma ApprovedIff(rows: map<string, Capability>, ctx: Context)
    ensures var list := Worklist(rows, ctx);
      Failures(ItemsOf(rows, list, ctx)) == [] && NonCompliant(ReviewedRows(rows, list, ctx), ctx.tenant) == {} <==> Approvable(rows, ctx)
  {
    var list := Worklist(rows, ctx);
    var left := NonCompliant(ReviewedRows(rows, list, ctx), ctx.tenant);
    WorklistElements(rows, ctx);
    AllPassIff(rows, list, ctx);
    forall u | u in rows && Reviewable(rows[u], ctx.tenant)
      ensures u in left <==> !(u in list && Passes(ctx, rows[u])) && !Compliant(rows[u].gov)
    {
      LeftNonCompliant(rows, list, ctx, u);
    }
    assert forall u :: u in left ==> u in rows && Reviewable(rows[u], ctx.tenant);
  }

  /** A released capability ("published") is never selected and never compliant: one of them keeps the catalog unapproved. */
  lemma PublishedBlocksApproval(rows: map<string, Capability>, ctx: Context, u: string)
    requires u in rows && Reviewable(rows[u], ctx.tenant) && rows[u].gov.approvalState == "published"
    ensures !Approvable(rows, ctx)
  {
    assert u !in Candidates(rows, ctx.tenant, true, "");
  }

  /** So does a fully verified one whose lifecycle is not "published": the filter overlooks it, the final count does not. */
  lemma UnpublishedBlocksApproval(rows: map<string, Capability>, ctx: Context, u: string)
    requires u in rows && Reviewable(rows[u], ctx.tenant) && Verified(rows[u].gov) && rows[u].gov.lifecycle != "published"
    ensures !Approvable(rows, ctx)
  {
    assert u !in Candidates(rows, ctx.tenant, true, "");
  }

  // ---- who is touched, and how ----

  /** The tenant's own, not built in, still to be approved, not held, and through its gates. */
  ghost predicate Qualifies(c: Capability, ctx: Context)
  {
    && c.tenant == ctx.tenant && c.sourceKind != "system_capability" && c.uri != ""
    && (|| c.gov.approvalState in {"draft", "pending"}
        || (c.gov.approvalState == "approved" && (c.gov.signature != "verified" || c.gov.provenance != "verified" || c.gov.riskReview != "approved")))
    && (TenantOr(c.tenant), c.uri, c.hash) !in ctx.holds && (ctx.gate(c) == Pass || (ctx.dryRun && ctx.gate(c) == RaiseAfterWrites))
  }

  /** `r` is `c` with its five review columns settled and nothing else changed. */
  ghost predicate Settled(c: Capability, r: Capability)
  {
    && r.gov.approvalState == "approved" && r.gov.lifecycle == "published" && r.gov.signature == "verified"
    && r.gov.provenance == "verified" && r.gov.riskReview == "approved" && r.gov.shareState == c.gov.shareState
    && r == c.(gov := r.gov)
  }

  lemma {:induction false} PassingExact(rows: map<string, Capability>, uris: seq<string>, ctx: Context, u: string)
    ensures u in Passing(rows, uris, ctx) <==> u in uris && u in rows && Passes(ctx, rows[u])
  {
    if uris != [] {
      PassingExact(rows, uris[..|uris| - 1], ctx, u);
      assert uris == uris[..|uris| - 1] + [uris[|uris| - 1]];
    }
  }

  /**
   An approval settles exactly the rows that qualify and leaves every other row,
   above all those of other tenants and the built-in ones, as it was; the new
   reviews and audit events are those of the settled rows.
   */
  lemma ApprovalTouches(db: Db, ctx: Context, u: string)
    requires ByUri(db.rows) && u in db.rows
    ensures var after := Reviewed(db, Worklist(db.rows, ctx), ctx);
      && after.rows.Keys == db.rows.Keys
      && (if Qualifies(db.rows[u], ctx) then Settled(db.rows[u], after.rows[u]) else after.rows[u] == db.rows[u])
      && (Qualifies(db.rows[u], ctx) <==> u in after.audit[|db.audit|..])
  {
    var c := db.rows[u];
    var list := Worklist(db.rows, ctx);
    WorklistElements(db.rows, ctx);
    assert u in list <==> Selected(c, ctx.tenant, true) && u != "";
    PassingExact(db.rows, list, ctx, u);
    var after := Reviewed(db, list, ctx);
    assert after.audit[|db.audit|..] == Passing(db.rows, list, ctx);
  }

  /** A new review is of a row that qualifies, and names its tenant, address and content. */
  lemma ReviewsAreOfQualified(db: Db, ctx: Context, r: Review)
    requires ByUri(db.rows) && r !in db.reviews
    ensures r in Reviewed(db, Worklist(db.rows, ctx), ctx).reviews <==>
      r.uri in db.rows && Qualifies(db.rows[r.uri], ctx) && r.tenant == ctx.tenant && r.hash == db.rows[r.uri].hash && r.scope == ctx.scope(db.rows[r.uri])
  {
    var list := Worklist(db.rows, ctx);
    WorklistElements(db.rows, ctx);
    if r.uri in db.rows {
      assert r.uri in list <==> Selected(db.rows[r.uri], ctx.tenant, true) && r.uri != "";
    }
    assert r in NewReviews(db.rows, list, ctx) <==> r.uri in list && r.uri in db.rows && Passes(ctx, db.rows[r.uri]) && r == ReviewOf(ctx, db.rows[r.uri]);
  }

  /** The catalog is approvable exactly when every row of the tenant that is not built in qualifies or is approved, verified and published already. */
  lemma ApprovableExactly(rows: map<string, Capability>, ctx: Context)
    requires ByUri(rows)
    ensures Approvable(rows, ctx) <==>
      forall u :: u in rows && rows[u].tenant == ctx.tenant && rows[u].sourceKind != "system_capability" ==>
        Qualifies(rows[u], ctx) || Settled(rows[u], rows[u])
  {
    forall u | u in rows && Reviewable(rows[u], ctx.tenant)
      ensures (if u in Candidates(rows, ctx.tenant, true, "") then Passes(ctx, rows[u]) else Compliant(rows[u].gov)) <==>
        Qualifies(rows[u], ctx) || Settled(rows[u], rows[u])
    {
      assert u in Candidates(rows, ctx.tenant, true, "") <==> Selected(rows[u], ctx.tenant, true) && u != "";
    }
  }

  // ---- in place ----

  class Registry {
    var db: Db
    var committed: Db

    constructor (start: Db)
      ensures db == start && committed == start
    {
      db, committed := start, start;
    }

    /** `review_capability` inside its savepoint: an exception undoes its writes. */
    method ReviewInSavepoint(u: string, ctx: Context) returns (item: Item)
      requires u in db.rows && db.rows[u].uri == u
      modifies this`db
      ensures item == Item(u, Passes(ctx, old(db).rows[u]))
      ensures db == if item.passed && !ctx.dryRun
                    then Db(old(db).rows[u := Approve(old(db).rows[u])], old(db).reviews + {ReviewOf(ctx, old(db).rows[u])}, old(db).audit + [u])
                    else old(db)
    {
      var savepoint := db;
      var c := db.rows[u];
      if HoldKeyOf(c) in ctx.holds {
        return Item(u, false);
      }
      var outcome := ctx.gate(c);
      if outcome == Fail || outcome == Raise {
        return Item(u, false);
      }
      if ctx.dryRun {
        return Item(u, true);
      }
      db := db.(reviews := db.reviews + {ReviewOf(ctx, c)});
      db := db.(rows := db.rows[u := Approve(c)]);
      if outcome == RaiseAfterWrites {
        db := savepoint;
        return Item(u, false);
      }
      db := db.(audit := db.audit + [u]);
      item := Item(u, true);
    }

    /** `review_batch`: one page of the selection above `after`, and the cursor when more remain. */
    method ReviewBatch(ctx: Context, after: string, limit: int, includeApproved: bool) returns (r: Result<(seq<Item>, Option<string>), Error>)
      requires ByUri(db.rows)
      modifies this`db
      ensures r.Err? <==> limit < 1 || limit > 500
      ensures r.Err? ==> db == old(db)
      ensures r.Ok? ==>
        var all := SortedSet(Candidates(old(db).rows, ctx.tenant, includeApproved, after));
        && r.value.0 == ItemsOf(old(db).rows, PageOf(all, limit), ctx)
        && db == (if ctx.dryRun then old(db) else Reviewed(old(db), PageOf(all, limit), ctx))
        && r.value.1 == CursorOf(all, limit)
    {
      if limit < 1 || limit > MAX_BATCH {
        return Err(BadLimit);
      }
      var all := SortedSet(Candidates(db.rows, ctx.tenant, includeApproved, after));
      PageFrom(Candidates(db.rows, ctx.tenant, includeApproved, after), limit);
      var items := ReviewPage(PageOf(all, limit), ctx);
      r := Ok((items, CursorOf(all, limit)));
    }

    method ReviewPage(page: seq<string>, ctx: Context) returns (items: seq<Item>)
      requires ByUri(db.rows) && NoDuplicates(page) && forall u :: u in page ==> u in db.rows
      modifies this`db
      ensures items == ItemsOf(old(db).rows, page, ctx)
      ensures db == if ctx.dryRun then old(db) else Reviewed(old(db), page, ctx)
    {
      items := [];
      ReviewedNothing(db, ctx);
      for i := 0 to |page|
        invariant items == ItemsOf(old(db).rows, page[..i], ctx)
        invariant db == if ctx.dryRun then old(db) else Reviewed(old(db), page[..i], ctx)
      {
        PageNext(page, i);
        ReviewedOneMore(old(db), page[..i], page[i], ctx);
        ItemsOneMore(old(db).rows, page[..i], page[i], ctx);
        var item := ReviewInSavepoint(page[i], ctx);
        items := items + [item];
      }
      assert page[..|page|] == page;
    }

    /**
     The loop of `approve_catalog`: every initially selected URI is reviewed
     once, in increasing order, although the loop changes the filtered columns.
     */
    method ReviewAllPages(ctx: Context) returns (items: seq<Item>)
      requires ByUri(db.rows) && !ctx.dryRun
      modifies this`db
      ensures items == ItemsOf(old(db).rows, Worklist(old(db).rows, ctx), ctx)
      ensures db == Reviewed(old(db), Worklist(old(db).rows, ctx), ctx)
    {
      items := [];
      var after, more := "", true;
      ghost var done: seq<string> := [];
      ReviewedNothing(db, ctx);
      while more
        invariant ByUri(db.rows) && items == ItemsOf(old(db).rows, done, ctx)
        invariant if more then Progress(old(db), ctx, done, db, after)
                  else db == Reviewed(old(db), done, ctx) && done == Worklist(old(db).rows, ctx)
        decreases more, |Pending(db, ctx, after)|
      {
        ghost var page := PageOf(Pending(db, ctx, after), MAX_BATCH);
        PageAppends(old(db), ctx, done, db, after, page);
        PageProgress(old(db), ctx, done, db, after, MAX_BATCH);
        done := done + page;
        var reviewed, cursor := NextPage(ctx, after);
        items := items + reviewed;
        if cursor.None? {
          more := false;
        } else {
          after := cursor.value;
        }
      }
    }

    method NextPage(ctx: Context, after: string) returns (items: seq<Item>, cursor: Option<string>)
      requires ByUri(db.rows) && !ctx.dryRun
      modifies this`db
      ensures ByUri(db.rows) && cursor == CursorOf(Pending(old(db), ctx, after), MAX_BATCH)
      ensures items == ItemsOf(old(db).rows, PageOf(Pending(old(db), ctx, after), MAX_BATCH), ctx)
      ensures db == Reviewed(old(db), PageOf(Pending(old(db), ctx, after), MAX_BATCH), ctx)
    {
      var page := ReviewBatch(ctx, after, MAX_BATCH, true);
      items, cursor := page.value.0, page.value.1;
    }

    method ApproveCatalog(ctx: Context, authorized: bool, commit: bool) returns (r: Result<Report, Error>)
      requires ByUri(db.rows) && !ctx.dryRun
      modifies this
      ensures !authorized ==> r == Err(Forbidden) && db == old(db) && committed == old(committed)
      ensures authorized ==> r.Ok? && (r.value.catalogApproved <==> Approvable(old(db).rows, ctx))
      ensures r.Ok? && !commit ==> committed == old(committed) && db == Reviewed(old(db), Worklist(old(db).rows, ctx), ctx)
      ensures r.Ok? && commit && r.value.catalogApproved ==> db == committed == Reviewed(old(db), Worklist(old(db).rows, ctx), ctx)
      ensures r.Ok? && commit && !r.value.catalogApproved ==> db == committed == old(committed)
      ensures r.Ok? ==> r.value.remaining == |NonCompliant(db.rows, ctx.tenant)| && (r.value.catalogApproved ==> r.value.remaining == 0)
      ensures r.Ok? ==>
        var items := ItemsOf(old(db).rows, Worklist(old(db).rows, ctx), ctx);
        r.value.processed == |items| && r.value.failed == |Failures(items)| && r.value.failures == PageOf(Failures(items), 100)
    {
      if !authorized {
        return Err(Forbidden);
      }
      ApprovedIff(db.rows, ctx);
      var items := ReviewAllPages(ctx);
      var failures := Failures(items);
      var left := NonCompliant(db.rows, ctx.tenant);
      var approved := |failures| == 0 && |left| == 0;
      if commit {
        if approved {
          committed := db;
        } else {
          db := committed;
          left := NonCompliant(db.rows, ctx.tenant);
        }
      }
      r := Ok(Report(|items|, |failures|, PageOf(failures, 100), |left|, approved));
    }
  }

  datatype Report = Report(processed: nat, failed: nat, failures: seq<Item>, remaining: nat, catalogApproved: bool)
}
