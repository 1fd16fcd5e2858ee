/**
 Quarantine and catalog together: runs of ingest, scan, release and reject
 (capmesh/index.py, capmesh/capguard.py).  An ingest is one step: its
 quarantine phase commits on its own, its catalog phase commits or rolls back.
 */
module Custody {
  import opened Types
  import opened Model
  import opened Catalog
  import opened Ingest
  import Q = Quarantine
  import GuardPolicy

  type Trust = Q.Trust

  datatype World = World(tables: Tables, desk: Q.Desk)

  // ---- the quarantine phase of an ingest ----

  /** Refreshes of unchanged content and system or draft capabilities are not quarantined. */
  predicate Exempt(rows: map<string, Row>, e: Capability)
  {
    IsSystemOrDraft(e) || (e.uri in rows && rows[e.uri].cap.hash == e.hash)
  }

  /** `_quarantine_new_capabilities`; the flag is false when it raised, with the items so far already committed. */
  function QuarantineNew(d: Q.Desk, rows: map<string, Row>, batch: seq<Capability>): (Q.Desk, bool)
    decreases |batch|
  {
    if batch == [] then (d, true)
    else if Exempt(rows, batch[0]) then QuarantineNew(d, rows, batch[1..])
    else
      match Q.Place(d, (batch[0].tenant, batch[0].uri, batch[0].hash), "pending_scan")
      case Err(_) => (d, false)
      case Ok(d1) => QuarantineNew(d1, rows, batch[1..])
  }

  method QuarantineNewCapabilities(store: Q.Store, rows: map<string, Row>, batch: seq<Capability>) returns (ok: bool)
    modifies store
    ensures (store.View(), ok) == QuarantineNew(old(store.View()), rows, batch)
  {
    for i := 0 to |batch|
      invariant QuarantineNew(old(store.View()), rows, batch) == QuarantineNew(store.View(), rows, batch[i..])
    {
      var e := batch[i];
      assert batch[i..][0] == e && batch[i..][1..] == batch[i + 1..];
      if !Exempt(rows, e) {
        var r := store.QuarantineCapability((e.tenant, e.uri, e.hash), "pending_scan");
        if r.Err? {
          return false;
        }
      }
    }
    ok := true;
  }

  lemma {:induction false} QuarantineNewSound(d: Q.Desk, rows: map<string, Row>, batch: seq<Capability>, trust: Trust)
    requires Q.Sound(d, trust)
    ensures Q.Sound(QuarantineNew(d, rows, batch).0, trust) && Grown(d, QuarantineNew(d, rows, batch).0)
    decreases |batch|
  {
    if batch != [] {
      var e := batch[0];
      if Exempt(rows, e) {
        QuarantineNewSound(d, rows, batch[1..], trust);
      } else if Q.Place(d, (e.tenant, e.uri, e.hash), "pending_scan").Ok? {
        var d1 := Q.Place(d, (e.tenant, e.uri, e.hash), "pending_scan").value;
        Q.PlaceSound(d, (e.tenant, e.uri, e.hash), "pending_scan", trust);
        QuarantineNewSound(d1, rows, batch[1..], trust);
        GrownTransitive(d, d1, QuarantineNew(d1, rows, batch[1..]).0);
      }
    }
  }

  /** Items were added at the end, and nothing was signed. */
  ghost predicate Grown(d: Q.Desk, d': Q.Desk)
  {
    d'.attestations == d.attestations && d.items <= d'.items
  }

  lemma GrownTransitive(a: Q.Desk, b: Q.Desk, c: Q.Desk)
    requires Grown(a, b) && Grown(b, c)
    ensures Grown(a, c)
  {
    forall i | 0 <= i < |a.items| ensures a.items[i] == c.items[i] {
      assert a.items[i] == b.items[i];
    }
  }

  /** Whatever is not exempt is under an active hold before anything is indexed. */
  lemma {:induction false} QuarantinedBeforeIndexing(d: Q.Desk, rows: map<string, Row>, batch: seq<Capability>, trust: Trust, e: Capability)
    requires Q.Sound(d, trust) && QuarantineNew(d, rows, batch).1 && e in batch && !Exempt(rows, e)
    ensures Q.HasItem(QuarantineNew(d, rows, batch).0.items, HoldKeyOf(e), Q.Quarantined)
    decreases |batch|
  {
    var f := batch[0];
    if Exempt(rows, f) {
      QuarantinedBeforeIndexing(d, rows, batch[1..], trust, e);
    } else {
      var d1 := Q.Place(d, (f.tenant, f.uri, f.hash), "pending_scan").value;
      Q.PlaceSound(d, (f.tenant, f.uri, f.hash), "pending_scan", trust);
      QuarantineNewSound(d1, rows, batch[1..], trust);
      if e == f {
        HasItemStays(d1.items, QuarantineNew(d1, rows, batch[1..]).0.items, HoldKeyOf(e), Q.Quarantined);
      } else {
        QuarantinedBeforeIndexing(d1, rows, batch[1..], trust, e);
      }
    }
  }

  lemma HasItemStays(items: seq<Q.Item>, items': seq<Q.Item>, key: HoldKey, status: Q.Status)
    requires items <= items' && Q.HasItem(items, key, status)
    ensures Q.HasItem(items', key, status)
  {
    var i :| 0 <= i < |items| && items[i].key == key && items[i].status == status;
    assert items'[i] == items[i];
  }

  // ---- steps ----

  datatype Step =
    | Discover(batch: seq<Capability>)
    | Hold(key: HoldKey, reason: string)
    | Scan(id: nat, tenant: string, scan: GuardPolicy.Scan, signature: Q.Signature)
    | Release(id: nat, tenant: string, policy: Option<GuardPolicy.Action>, signature: Q.Signature)
    | Reject(id: nat, tenant: string, reasonGiven: bool, signature: Q.Signature)

  function ActiveKeys(items: seq<Q.Item>): set<HoldKey>
  {
    set i | 0 <= i < |items| && items[i].status.Quarantined? :: items[i].key
  }

  /** `UPDATE capabilities SET lifecycle, approval_state WHERE tenant_id = ? AND uri = ? AND content_hash = ?` */
  function Flagged(rows: map<string, Row>, key: HoldKey, lifecycle: string, approval: string): map<string, Row>
  {
    if key.1 in rows && rows[key.1].cap.tenant == key.0 && rows[key.1].cap.hash == key.2 then
      var r := rows[key.1];
      rows[key.1 := r.(cap := r.cap.(gov := r.cap.gov.(lifecycle := lifecycle, approvalState := approval)))]
    else rows
  }

  function WithRows(t: Tables, rows: map<string, Row>): Tables
  {
    t.(rows := rows)
  }

  function AfterIngest(w: World, batch: seq<Capability>): World
    requires Keyed(w.tables.rows, w.tables.nextId)
  {
    var (d, ok) := QuarantineNew(w.desk, w.tables.rows, batch);
    if !ok then w.(desk := d)
    else match IngestBatch(w.tables, batch, ActiveKeys(d.items))
      case Err(_) => w.(desk := d)
      case Ok(t) => World(t, d)
  }

  /** One step; a refused call changes nothing. */
  ghost function Next(w: World, s: Step, trust: Trust): World
    requires Keyed(w.tables.rows, w.tables.nextId)
  {
    match s
    case Discover(batch) => AfterIngest(w, batch)
    case Hold(key, reason) => (match Q.Place(w.desk, key, reason) case Err(_) => w case Ok(d) => w.(desk := d))
    case Scan(id, tenant, scan, signature) =>
      (match Q.Scanned(w.desk, id, tenant, scan, signature) case Err(_) => w case Ok(d) => w.(desk := d))
    case Release(id, tenant, policy, signature) =>
      (match Q.ReleaseItem(w.desk, id, tenant, policy, signature, trust)
       case Err(_) => w
       case Ok(d) => World(WithRows(w.tables, Flagged(w.tables.rows, d.items[id].key, "active", "published")), d))
    case Reject(id, tenant, reasonGiven, signature) =>
      (match Q.RejectItem(w.desk, id, tenant, reasonGiven, signature)
       case Err(_) => w
       case Ok(d) => World(WithRows(w.tables, Flagged(w.tables.rows, d.items[id].key, "disabled", "rejected")), d))
  }

  // ---- what every step keeps ----

  ghost predicate Inv(w: World, trust: Trust)
  {
    Coherent(w.tables) && Q.Sound(w.desk, trust)
  }

  /** Same rows under the same ids, keys and descriptions. */
  ghost predicate SameIdentity(rows: map<string, Row>, rows': map<string, Row>)
  {
    rows.Keys == rows'.Keys && forall u :: u in rows ==> SameRow(rows[u], rows'[u])
  }

  ghost predicate SameRow(r: Row, r': Row)
  {
    r'.id == r.id && r'.cap.uri == r.cap.uri && r'.cap.key == r.cap.key && r'.cap.details == r.cap.details
  }

  lemma SameIdentityIndexed(rows: map<string, Row>, rows': map<string, Row>, fts: map<nat, Fts>)
    requires IndexedExcept(rows, fts, {}) && SameIdentity(rows, rows')
    ensures IndexedExcept(rows', fts, {})
  {
    forall u | u in rows' ensures rows'[u].id in fts && fts[rows'[u].id] == FtsOf(rows'[u].cap) {
      assert SameRow(rows[u], rows'[u]);
      assert FtsOf(rows[u].cap) == FtsOf(rows'[u].cap);
    }
    forall n | n in fts ensures exists u :: HasId(rows', u, n) {
      var u :| HasId(rows, u, n);
      assert SameRow(rows[u], rows'[u]);
      assert HasId(rows', u, n);
    }
  }

  lemma SameIdentityCoherent(t: Tables, rows': map<string, Row>)
    requires Coherent(t) && SameIdentity(t.rows, rows')
    ensures Coherent(WithRows(t, rows'))
  {
    SameIdentityIndexed(t.rows, rows', t.fts);
    assert forall u :: u in rows' ==> SameRow(t.rows[u], rows'[u]);
  }

  lemma FlaggedCoherent(t: Tables, key: HoldKey, lifecycle: string, approval: string)
    requires Coherent(t)
    ensures Coherent(WithRows(t, Flagged(t.rows, key, lifecycle, approval)))
  {
    FlaggedSame(t.rows, key, lifecycle, approval);
    SameIdentityCoherent(t, Flagged(t.rows, key, lifecycle, approval));
  }

  lemma FlaggedSame(rows: map<string, Row>, key: HoldKey, lifecycle: string, approval: string)
    ensures SameIdentity(rows, Flagged(rows, key, lifecycle, approval))
  {
  }

  /** Every step, whatever a batch brings, keeps the catalog coherent and the quarantine store sound, and undoes nothing that was decided. */
  lemma NextKeeps(w: World, s: Step, trust: Trust)
    requires Inv(w, trust)
    ensures Inv(Next(w, s, trust), trust) && Q.Later(w.desk, Next(w, s, trust).desk)
  {
    match s
    case Discover(batch) =>
      QuarantineNewSound(w.desk, w.tables.rows, batch, trust);
      var (d, ok) := QuarantineNew(w.desk, w.tables.rows, batch);
      if ok && IngestBatch(w.tables, batch, ActiveKeys(d.items)).Ok? {
        IngestCoherent(w.tables, batch, ActiveKeys(d.items));
      }
    case Hold(key, reason) =>
      if Q.Place(w.desk, key, reason).Ok? {
        Q.PlaceSound(w.desk, key, reason, trust);
      }
    case Scan(id, tenant, scan, signature) =>
      if Q.Scanned(w.desk, id, tenant, scan, signature).Ok? {
        Q.ScanSound(w.desk, id, tenant, scan, signature, trust);
      }
    case Release(id, tenant, policy, signature) => ReleaseKeeps(w, id, tenant, policy, signature, trust);
    case Reject(id, tenant, reasonGiven, signature) => RejectKeeps(w, id, tenant, reasonGiven, signature, trust);
  }

  lemma ReleaseKeeps(w: World, id: nat, tenant: string, policy: Option<GuardPolicy.Action>, signature: Q.Signature, trust: Trust)
    requires Inv(w, trust)
    ensures var w' := Next(w, Release(id, tenant, policy, signature), trust);
      Inv(w', trust) && Q.Later(w.desk, w'.desk)
  {
    var r := Q.ReleaseItem(w.desk, id, tenant, policy, signature, trust);
    if r.Ok? {
      Q.CloseSound(w.desk, id, Q.Release, Q.Released, signature, trust);
      FlaggedCoherent(w.tables, r.value.items[id].key, "active", "published");
    }
  }

  lemma RejectKeeps(w: World, id: nat, tenant: string, reasonGiven: bool, signature: Q.Signature, trust: Trust)
    requires Inv(w, trust)
    ensures var w' := Next(w, Reject(id, tenant, reasonGiven, signature), trust);
      Inv(w', trust) && Q.Later(w.desk, w'.desk)
  {
    var r := Q.RejectItem(w.desk, id, tenant, reasonGiven, signature);
    if r.Ok? {
      Q.CloseSound(w.desk, id, Q.Reject, Q.Rejected, signature, trust);
      FlaggedCoherent(w.tables, r.value.items[id].key, "disabled", "rejected");
    }
  }

  // ---- what a decision does to the catalog ----

  /** The same row but for its lifecycle and approval. */
  ghost predicate Redecided(r: Row, r': Row, lifecycle: string, approval: string)
  {
    && r'.cap.gov.lifecycle == lifecycle && r'.cap.gov.approvalState == approval
    && r' == r.(cap := r.cap.(gov := r.cap.gov.(lifecycle := r'.cap.gov.lifecycle, approvalState := r'.cap.gov.approvalState)))
  }

  /** The item with id `id` is closed with `status`; the row of its tenant, URI and content, if indexed, is redecided; nothing else in the catalog changes. */
  ghost predicate Decided(w: World, w': World, id: nat, status: Q.Status, lifecycle: string, approval: string)
    requires id < |w.desk.items|
  {
    var key, rows, rows' := w.desk.items[id].key, w.tables.rows, w'.tables.rows;
    && |w'.desk.items| == |w.desk.items| && w'.desk.items[id] == w.desk.items[id].(status := status)
    && (forall i :: 0 <= i < |w.desk.items| && i != id ==> w'.desk.items[i] == w.desk.items[i])
    && w'.tables == w.tables.(rows := rows') && rows'.Keys == rows.Keys
    && (forall u :: u in rows && !(u == key.1 && rows[u].cap.tenant == key.0 && rows[u].cap.hash == key.2) ==> rows'[u] == rows[u])
    && (key.1 in rows && rows[key.1].cap.tenant == key.0 && rows[key.1].cap.hash == key.2 ==> Redecided(rows[key.1], rows'[key.1], lifecycle, approval))
  }

  /** A release makes the released content active and published; a refused one changes nothing. */
  lemma ReleaseActivates(w: World, id: nat, tenant: string, policy: Option<GuardPolicy.Action>, signature: Q.Signature, trust: Trust)
    requires Keyed(w.tables.rows, w.tables.nextId)
    ensures var w' := Next(w, Release(id, tenant, policy, signature), trust);
      if Q.ReleaseItem(w.desk, id, tenant, policy, signature, trust).Ok?
      then id < |w.desk.items| && Decided(w, w', id, Q.Released, "active", "published") else w' == w
  {
  }

  /** A rejection disables the rejected content; a refused one changes nothing. */
  lemma RejectDisables(w: World, id: nat, tenant: string, reasonGiven: bool, signature: Q.Signature, trust: Trust)
    requires Keyed(w.tables.rows, w.tables.nextId)
    ensures var w' := Next(w, Reject(id, tenant, reasonGiven, signature), trust);
      if Q.RejectItem(w.desk, id, tenant, reasonGiven, signature).Ok?
      then id < |w.desk.items| && Decided(w, w', id, Q.Rejected, "disabled", "rejected") else w' == w
  {
  }

  /** Holds and scans leave the catalog alone. */
  lemma HoldsAndScansKeepCatalog(w: World, s: Step, trust: Trust)
    requires Keyed(w.tables.rows, w.tables.nextId) && (s.Hold? || s.Scan?)
    ensures Next(w, s, trust).tables == w.tables
  {
  }

  /** `release_from_quarantine` on the quarantine store and the capability rows. */
  method ReleaseCapability(store: Q.Store, rows: map<string, Row>, id: nat, tenant: string, policy: Option<GuardPolicy.Action>, signature: Q.Signature,
                           consistent: Q.Attestation -> bool, given: Option<string>, configured: Option<string>)
    returns (r: Result<(), Q.Refusal>, rows': map<string, Row>)
    modifies store
    ensures var trust := Q.Trust(consistent, Q.Resolved(given, configured));
      forall t: Tables :: t.rows == rows && Keyed(rows, t.nextId) ==>
        World(WithRows(t, rows'), store.View()) == Next(World(t, old(store.View())), Release(id, tenant, policy, signature), trust)
  {
    rows' := rows;
    r := store.ReleaseFromQuarantine(id, tenant, policy, signature, consistent, given, configured);
    if r.Ok? {
      rows' := Flagged(rows, store.items[id].key, "active", "published");
    }
  }

  /** `reject_from_quarantine` likewise. */
  method RejectCapability(store: Q.Store, rows: map<string, Row>, id: nat, tenant: string, reasonGiven: bool, signature: Q.Signature)
    returns (r: Result<(), Q.Refusal>, rows': map<string, Row>)
    modifies store
    ensures forall t: Tables, trust: Trust :: t.rows == rows && Keyed(rows, t.nextId) ==>
      World(WithRows(t, rows'), store.View()) == Next(World(t, old(store.View())), Reject(id, tenant, reasonGiven, signature), trust)
  {
    rows' := rows;
    r := store.RejectFromQuarantine(id, tenant, reasonGiven, signature);
    if r.Ok? {
      rows' := Flagged(rows, store.items[id].key, "disabled", "rejected");
    }
  }

  // ---- runs ----

  const Empty := World(Tables(map[], map[], map[], 0, Refs([], [], {}, [], [])), Q.Desk([], []))

  lemma EmptyInv(trust: Trust)
    ensures Inv(Empty, trust)
  {
  }

  ghost function Run(w: World, steps: seq<Step>, trust: Trust): (w': World)
    requires Inv(w, trust)
    ensures Inv(w', trust)
    decreases |steps|
  {
    if steps == [] then w
    else
      NextKeeps(w, steps[0], trust);
      Run(Next(w, steps[0], trust), steps[1..], trust)
  }

  /**
   In every state a run can reach: at most one active item per key, releases
   backed by a newest valid scan that is clean, exactly the release or reject
   attestation each item's status calls for; and released or rejected is final.
   */
  lemma {:induction false} RunFinal(w: World, steps: seq<Step>, trust: Trust)
    requires Inv(w, trust)
    ensures Coherent(Run(w, steps, trust).tables) && Q.Sound(Run(w, steps, trust).desk, trust) && Q.Later(w.desk, Run(w, steps, trust).desk)
    decreases |steps|
  {
    if steps != [] {
      NextKeeps(w, steps[0], trust);
      var w1 := Next(w, steps[0], trust);
      RunFinal(w1, steps[1..], trust);
      Q.LaterTransitive(w.desk, w1.desk, Run(w1, steps[1..], trust).desk);
    }
  }
}
