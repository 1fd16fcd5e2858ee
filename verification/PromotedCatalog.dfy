/**
 An approved promotion (capmesh/promotions.py) on the catalog tables that ingest
 works on (capmesh/index.py), and what the next ingest makes of it.
 */
module PromotedCatalog {
  import opened Types
  import opened Model
  import opened MergePipeline
  import opened Catalog
  import opened Ingest
  import opened Origins
  import opened PathOwnership

  /** The capability row after the approval and the re-mint. */
  function PromotedCap(c: Capability, uri: string, store: Option<string>, namespaceId: string): Capability
  {
    var g := c.gov;
    c.(uri := uri,
       promotedFrom := if c.promotedFrom.Some? then c.promotedFrom else Some(c.uri),
       details := c.details.(storeId := store, namespaceId := Some(namespaceId)),
       gov := g.(approvalState := "approved",
                 lifecycle := if g.lifecycle in {"draft", "published"} then "published" else g.lifecycle,
                 signature := if g.signature == "unchecked" then "pending" else g.signature,
                 provenance := if g.provenance == "unchecked" then "pending" else g.provenance,
                 riskReview := if g.riskReview == "pending" then "approved" else g.riskReview))
  }

  /** The promoted row is approved in the target, published unless it was withdrawn, remembers its first address, and is otherwise the same capability. */
  lemma PromotedCapFacts(c: Capability, uri: string, store: Option<string>, namespaceId: string)
    ensures var p := PromotedCap(c, uri, store, namespaceId);
      && p.uri == uri && p.key == c.key && p.hash == c.hash && p.tenant == c.tenant && SourceRecords(p) == SourceRecords(c)
      && p.gov.approvalState == "approved" && p.details.storeId == store && p.details.namespaceId == Some(namespaceId)
      && (c.gov.lifecycle == "draft" ==> p.gov.lifecycle == "published") && (c.gov.lifecycle != "draft" ==> p.gov.lifecycle == c.gov.lifecycle)
      && (c.promotedFrom.None? ==> p.promotedFrom == Some(c.uri)) && (c.promotedFrom.Some? ==> p.promotedFrom == c.promotedFrom)
      && (p.gov.signature == "verified" <==> c.gov.signature == "verified") && (p.gov.provenance == "verified" <==> c.gov.provenance == "verified")
      && p.details.visibility == c.details.visibility && p.details.owner == c.details.owner && p.gov.shareState == c.gov.shareState
  {
    var p := PromotedCap(c, uri, store, namespaceId);
    assert forall s :: Completed(p, s) == Completed(c, s);
    assert forall q :: Own(p, q) == Own(c, q);
    assert ListedProvenance(p) == ListedProvenance(c);
  }

  /** Rows, sources and index after a promotion; governance rows are the subject of `Promotion`. */
  function Promote(t: Tables, from: string, to: string, store: Option<string>, namespaceId: string): Tables
    requires from in t.rows
  {
    var row := t.rows[from];
    t.(rows := (t.rows - {from})[to := row.(cap := PromotedCap(row.cap, to, store, namespaceId))],
       sources := map p | p in t.sources :: if t.sources[p].uri == from then t.sources[p].(uri := to) else t.sources[p],
       fts := if row.id in t.fts then t.fts[row.id := t.fts[row.id].(uri := to)] else t.fts)
  }

  lemma PromoteKeyed(t: Tables, from: string, to: string, store: Option<string>, namespaceId: string)
    requires Keyed(t.rows, t.nextId) && from in t.rows && to !in t.rows
    ensures Keyed(Promote(t, from, to, store, namespaceId).rows, t.nextId)
  {
  }

  lemma PromotedFts(c: Capability, uri: string, store: Option<string>, namespaceId: string)
    ensures FtsOf(PromotedCap(c, uri, store, namespaceId)) == FtsOf(c).(uri := uri)
  {
  }

  lemma PromoteRowIndexed(t: Tables, from: string, to: string, store: Option<string>, namespaceId: string, u: string)
    requires Keyed(t.rows, t.nextId) && IndexedExcept(t.rows, t.fts, {}) && from in t.rows && to !in t.rows
    requires u in Promote(t, from, to, store, namespaceId).rows
    ensures var t' := Promote(t, from, to, store, namespaceId);
      t'.rows[u].id in t'.fts && t'.fts[t'.rows[u].id] == FtsOf(t'.rows[u].cap)
  {
    var old_ := if u == to then from else u;
    PromotedFts(t.rows[from].cap, to, store, namespaceId);
    assert t.rows[old_].id in t.fts && t.fts[t.rows[old_].id] == FtsOf(t.rows[old_].cap);
  }

  lemma PromoteIdKept(t: Tables, from: string, to: string, store: Option<string>, namespaceId: string, n: nat)
    requires from in t.rows && to !in t.rows && exists u :: HasId(t.rows, u, n)
    ensures exists u :: HasId(Promote(t, from, to, store, namespaceId).rows, u, n)
  {
    var u :| HasId(t.rows, u, n);
    assert HasId(Promote(t, from, to, store, namespaceId).rows, if u == from then to else u, n);
  }

  lemma PromoteIndexed(t: Tables, from: string, to: string, store: Option<string>, namespaceId: string)
    requires Keyed(t.rows, t.nextId) && IndexedExcept(t.rows, t.fts, {}) && from in t.rows && to !in t.rows
    ensures var t' := Promote(t, from, to, store, namespaceId); IndexedExcept(t'.rows, t'.fts, {})
  {
    var t' := Promote(t, from, to, store, namespaceId);
    forall u | u in t'.rows ensures t'.rows[u].id in t'.fts && t'.fts[t'.rows[u].id] == FtsOf(t'.rows[u].cap) {
      PromoteRowIndexed(t, from, to, store, namespaceId, u);
    }
    forall n | n in t'.fts ensures exists u :: HasId(t'.rows, u, n) {
      PromoteIdKept(t, from, to, store, namespaceId, n);
    }
  }

  /** A promotion leaves the catalog coherent: unlike a migration it also moves the sources and the index row. */
  lemma PromoteCoherent(t: Tables, from: string, to: string, store: Option<string>, namespaceId: string)
    requires Coherent(t) && from in t.rows && to !in t.rows
    ensures Coherent(Promote(t, from, to, store, namespaceId))
    ensures from != "" && t.rows[from].cap.promotedFrom != Some("") ==> Pinned(Promote(t, from, to, store, namespaceId).rows[to].cap)
  {
    PromoteKeyed(t, from, to, store, namespaceId);
    PromoteIndexed(t, from, to, store, namespaceId);
  }

  /** A capability whose key is promoted at `to`, with its own URI free, is stored at `to` when nothing else of the batch names it. */
  lemma StoredWherePromoted(rows: map<string, Row>, nextId: nat, caps: seq<Capability>, i: nat, to: string)
    requires Keyed(rows, nextId) && Distinct(caps) && i < |caps| && to in rows && Pinned(rows[to].cap) && rows[to].cap.key == caps[i].key
    requires !Occupied(rows, caps, i) && forall k :: 0 <= k < |caps| && k != i ==> caps[k].uri != to
    ensures Address(rows, caps, i) == to && forall j :: i < j < |caps| ==> !CarriedOnto(rows, caps, i, j)
  {
    assert KeptFor(rows, caps, i, to);
    forall j | i < j < |caps| ensures !CarriedOnto(rows, caps, i, j) {
      CarriedOntoIff(rows, nextId, caps, i, j);
    }
  }

  /**
   What the carry-over is for: after a promotion, re-ingesting the source at its
   old address keeps the capability, with all its paths, at the promoted one.
   */
  lemma PromotionSurvivesIngest(t: Tables, from: string, to: string, store: Option<string>, namespaceId: string,
                                batch: seq<Capability>, holds: set<HoldKey>, i: nat)
    requires Coherent(t) && from in t.rows && to !in t.rows && from != "" && t.rows[from].cap.promotedFrom != Some("")
    requires i < |UriMerged(batch)| && UriMerged(batch)[i].uri == from && UriMerged(batch)[i].key == t.rows[from].cap.key
    requires Separate(UriMerged(batch)) && forall k :: 0 <= k < |UriMerged(batch)| && k != i ==> UriMerged(batch)[k].uri != to
    requires Keyed(Promote(t, from, to, store, namespaceId).rows, t.nextId) && IngestBatch(Promote(t, from, to, store, namespaceId), batch, holds).Ok?
    ensures OwnsRecords(IngestBatch(Promote(t, from, to, store, namespaceId), batch, holds).value, to, UriMerged(batch)[i])
  {
    var t', caps := Promote(t, from, to, store, namespaceId), UriMerged(batch);
    PromoteCoherent(t, from, to, store, namespaceId);
    SeparateDistinct(batch);
    StoredWherePromoted(t'.rows, t'.nextId, caps, i, to);
    RecordsAfterIngest(t', batch, holds, i);
  }
}
