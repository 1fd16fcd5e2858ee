/**
 The CapGuard quarantine store (capmesh/capguard.py): quarantine items, and the
 attestations signed about them in row order.  An item's id is its position.
 Which signatures are valid and which key is the trust anchor are the run's
 parameter `trust`.
 */
module Quarantine {
  import opened Types
  import opened Catalog
  import GuardPolicy

  datatype Status = Quarantined | Released | Rejected

  datatype Item = Item(key: HoldKey, status: Status, reason: string)

  datatype Kind = Scan(verdict: GuardPolicy.ScanVerdict) | Release | Reject

  datatype Signature = Signature(keyId: string, bytes: string)

  datatype Attestation = Attestation(kind: Kind, item: nat, key: HoldKey, signature: Signature)

  /** Which signatures are valid under the key they embed, and the key id a release resolved as its trust anchor, if any. */
  datatype Trust = Trust(consistent: Attestation -> bool, anchor: Option<string>)

  /** `verify_attestation` */
  predicate Verifies(trust: Trust, a: Attestation)
  {
    trust.consistent(a) && (trust.anchor.None? || a.signature.keyId == trust.anchor.value)
  }

  datatype Desk = Desk(items: seq<Item>, attestations: seq<Attestation>)

  datatype Refusal = Incomplete | UnknownReason | NotFound | NotQuarantined | NoCleanScan | PolicyRefused | ReasonMissing

  const REASONS := {"pending_scan", "scan_failed", "manual_hold", "resubmitted"}

  predicate HasItem(items: seq<Item>, key: HoldKey, status: Status)
  {
    exists i :: 0 <= i < |items| && items[i].key == key && items[i].status == status
  }

  // ---- the operations ----

  /** `quarantine_capability` */
  function Place(d: Desk, key: HoldKey, reason: string): Result<Desk, Refusal>
  {
    var key' := (TenantOr(key.0), key.1, key.2);
    if key.1 == "" || key.2 == "" then Err(Incomplete)
    else if reason !in REASONS then Err(UnknownReason)
    else if HasItem(d.items, key', Quarantined) then Ok(d)
    else Ok(d.(items := d.items + [Item(key', Quarantined, reason)]))
  }

  /** The item as `get_quarantine` finds it, still under quarantine. */
  function Open(d: Desk, id: nat, tenant: string): Result<Item, Refusal>
  {
    if id >= |d.items| || d.items[id].key.0 != TenantOr(tenant) then Err(NotFound)
    else if d.items[id].status != Quarantined then Err(NotQuarantined)
    else Ok(d.items[id])
  }

  function Signed(d: Desk, kind: Kind, id: nat, signature: Signature): Desk
    requires id < |d.items|
  {
    d.(attestations := d.attestations + [Attestation(kind, id, d.items[id].key, signature)])
  }

  function Closed(d: Desk, id: nat, status: Status): Desk
    requires id < |d.items|
  {
    d.(items := d.items[id := d.items[id].(status := status)])
  }

  /** `issue_scan_attestation` */
  function Scanned(d: Desk, id: nat, tenant: string, scan: GuardPolicy.Scan, signature: Signature): Result<Desk, Refusal>
  {
    match Open(d, id, tenant)
    case Err(x) => Err(x)
    case Ok(item) =>
      var verdict := GuardPolicy.VerdictForScan(scan);
      var signed := Signed(d, Scan(verdict), id, signature);
      Ok(if verdict.Blocked? then signed.(items := d.items[id := item.(reason := "scan_failed")]) else signed)
  }

  /** A scan of the item, over its current content, that verifies. */
  predicate ValidScan(a: Attestation, id: nat, key: HoldKey, trust: Trust)
  {
    a.kind.Scan? && a.item == id && a.key.0 == key.0 && a.key.2 == key.2 && Verifies(trust, a)
  }

  /** Attestation `k` is the newest valid scan of the item. */
  ghost predicate Newest(atts: seq<Attestation>, id: nat, key: HoldKey, trust: Trust, k: nat)
  {
    k < |atts| && ValidScan(atts[k], id, key, trust) && forall j :: k < j < |atts| ==> !ValidScan(atts[j], id, key, trust)
  }

  /** The newest valid scan of the item is clean. */
  ghost predicate Backed(atts: seq<Attestation>, id: nat, key: HoldKey, trust: Trust)
  {
    exists k: nat :: Newest(atts, id, key, trust, k) && atts[k].kind == Scan(GuardPolicy.Clean)
  }

  /** `scan_clean_attestation`: rows from newest to oldest, decided by the first valid one. */
  method ScanCleanAttestation(d: Desk, id: nat, tenant: string, trust: Trust) returns (r: Option<Attestation>)
    ensures id >= |d.items| || d.items[id].key.0 != TenantOr(tenant) ==> r == None
    ensures id < |d.items| && d.items[id].key.0 == TenantOr(tenant) ==> (r.Some? <==> Backed(d.attestations, id, d.items[id].key, trust))
    ensures r.Some? ==> r.value in d.attestations && r.value.kind == Scan(GuardPolicy.Clean) && Verifies(trust, r.value)
  {
    if id >= |d.items| || d.items[id].key.0 != TenantOr(tenant) {
      return None;
    }
    var key := d.items[id].key;
    var k := |d.attestations|;
    while k > 0
      invariant 0 <= k <= |d.attestations|
      invariant forall j :: k <= j < |d.attestations| ==> !ValidScan(d.attestations[j], id, key, trust)
    {
      k := k - 1;
      var a := d.attestations[k];
      if ValidScan(a, id, key, trust) {
        assert Newest(d.attestations, id, key, trust, k);
        return if a.kind == Scan(GuardPolicy.Clean) then Some(a) else None;
      }
    }
    r := None;
  }

  /** `release_from_quarantine`; `policy` is the runtime verdict when a capability is supplied. */
  ghost function ReleaseItem(d: Desk, id: nat, tenant: string, policy: Option<GuardPolicy.Action>, signature: Signature, trust: Trust): Result<Desk, Refusal>
  {
    match Open(d, id, tenant)
    case Err(x) => Err(x)
    case Ok(item) =>
      if !Backed(d.attestations, id, item.key, trust) then Err(NoCleanScan)
      else if policy.Some? && policy.value != GuardPolicy.Allow then Err(PolicyRefused)
      else Ok(Closed(Signed(d, Release, id, signature), id, Released))
  }

  /** `reject_from_quarantine` */
  function RejectItem(d: Desk, id: nat, tenant: string, reasonGiven: bool, signature: Signature): Result<Desk, Refusal>
  {
    match Open(d, id, tenant)
    case Err(x) => Err(x)
    case Ok(item) =>
      if !reasonGiven then Err(ReasonMissing)
      else Ok(Closed(Signed(d, Reject, id, signature), id, Rejected))
  }

  // ---- invariants ----

  /** The release and reject attestations of an item, in order. */
  ghost function Marks(atts: seq<Attestation>, id: nat): seq<Kind>
  {
    if atts == [] then []
    else
      var a := atts[|atts| - 1];
      Marks(atts[..|atts| - 1], id) + (if a.item == id && !a.kind.Scan? then [a.kind] else [])
  }

  /** What must have been signed for an item of this status. */
  function Due(status: Status): seq<Kind>
  {
    match status
    case Quarantined => []
    case Released => [Release]
    case Rejected => [Reject]
  }

  /** At most one item is active per tenant, URI and content hash. */
  ghost predicate UniqueActive(items: seq<Item>)
  {
    forall i, j :: 0 <= i < j < |items| && items[i].status.Quarantined? && items[j].status.Quarantined? ==> items[i].key != items[j].key
  }

  ghost predicate About(a: Attestation, items: seq<Item>)
  {
    a.item < |items| && a.key == items[a.item].key
  }

  /** Exactly the attestations the item's status calls for exist, and a release is backed. */
  ghost predicate ItemSound(atts: seq<Attestation>, i: nat, item: Item, trust: Trust)
  {
    item.key.0 != "" && Marks(atts, i) == Due(item.status) && (item.status.Released? ==> Backed(atts, i, item.key, trust))
  }

  ghost predicate Sound(d: Desk, trust: Trust)
  {
    && UniqueActive(d.items)
    && (forall k :: 0 <= k < |d.attestations| ==> About(d.attestations[k], d.items))
    && (forall i :: 0 <= i < |d.items| ==> ItemSound(d.attestations, i, d.items[i], trust))
  }

  /** Nothing signed is lost, and an item that left quarantine stays as it is. */
  ghost predicate Later(d: Desk, d': Desk)
  {
    && d.attestations <= d'.attestations
    && |d.items| <= |d'.items|
    && (forall i :: 0 <= i < |d.items| ==> d'.items[i].key == d.items[i].key && (!d.items[i].status.Quarantined? ==> d'.items[i] == d.items[i]))
  }

  lemma LaterTransitive(a: Desk, b: Desk, c: Desk)
    requires Later(a, b) && Later(b, c)
    ensures Later(a, c)
  {
  }

  lemma {:induction false} MarksOfUnknown(atts: seq<Attestation>, id: nat)
    requires forall k :: 0 <= k < |atts| ==> atts[k].item != id
    ensures Marks(atts, id) == []
  {
    if atts != [] {
      MarksOfUnknown(atts[..|atts| - 1], id);
    }
  }

  lemma MarksAppend(atts: seq<Attestation>, a: Attestation, id: nat)
    ensures Marks(atts + [a], id) == Marks(atts, id) + (if a.item == id && !a.kind.Scan? then [a.kind] else [])
  {
    assert (atts + [a])[..|atts|] == atts;
  }

  /** An attestation that is no valid scan of the item leaves its evidence as it was. */
  lemma BackedAppend(atts: seq<Attestation>, a: Attestation, id: nat, key: HoldKey, trust: Trust)
    requires !ValidScan(a, id, key, trust)
    ensures Backed(atts + [a], id, key, trust) <==> Backed(atts, id, key, trust)
  {
    var more := atts + [a];
    if k: nat :| Newest(atts, id, key, trust, k) && atts[k].kind == Scan(GuardPolicy.Clean) {
      assert Newest(more, id, key, trust, k);
    }
    if k: nat :| Newest(more, id, key, trust, k) && more[k].kind == Scan(GuardPolicy.Clean) {
      assert forall j :: k < j < |atts| ==> more[j] == atts[j];
      assert Newest(atts, id, key, trust, k);
    }
  }

  /** A valid scan decides alone: it supersedes whatever was signed before. */
  lemma NewScanDecides(atts: seq<Attestation>, a: Attestation, id: nat, key: HoldKey, trust: Trust)
    requires ValidScan(a, id, key, trust)
    ensures Backed(atts + [a], id, key, trust) <==> a.kind == Scan(GuardPolicy.Clean)
  {
    var more := atts + [a];
    assert Newest(more, id, key, trust, |atts|);
    if k: nat :| Newest(more, id, key, trust, k) && more[k].kind == Scan(GuardPolicy.Clean) {
      assert k == |atts|;
    }
  }

  lemma AddedUnique(items: seq<Item>, item: Item)
    requires UniqueActive(items) && !HasItem(items, item.key, Quarantined)
    ensures UniqueActive(items + [item])
  {
  }

  lemma AddedSound(d: Desk, item: Item, trust: Trust)
    requires Sound(d, trust) && item.status.Quarantined? && item.key.0 != "" && !HasItem(d.items, item.key, Quarantined)
    ensures Sound(d.(items := d.items + [item]), trust)
  {
    var items := d.items + [item];
    AddedUnique(d.items, item);
    forall k | 0 <= k < |d.attestations| ensures About(d.attestations[k], items) && d.attestations[k].item != |d.items| {
      assert About(d.attestations[k], d.items);
    }
    MarksOfUnknown(d.attestations, |d.items|);
    forall i | 0 <= i < |items| ensures ItemSound(d.attestations, i, items[i], trust) {
      if i < |d.items| {
        assert ItemSound(d.attestations, i, d.items[i], trust);
      }
    }
  }

  lemma PlaceSound(d: Desk, key: HoldKey, reason: string, trust: Trust)
    requires Sound(d, trust) && Place(d, key, reason).Ok?
    ensures Sound(Place(d, key, reason).value, trust) && Later(d, Place(d, key, reason).value)
    ensures HasItem(Place(d, key, reason).value.items, (TenantOr(key.0), key.1, key.2), Quarantined)
  {
    var item := Item((TenantOr(key.0), key.1, key.2), Quarantined, reason);
    if !HasItem(d.items, item.key, Quarantined) {
      AddedSound(d, item, trust);
      var items := Place(d, key, reason).value.items;
      assert items[|items| - 1] == item;
    }
  }

  /** An attestation about another item, or a scan of an open one, leaves an item sound. */
  lemma ItemSoundAppend(atts: seq<Attestation>, a: Attestation, i: nat, item: Item, trust: Trust)
    requires ItemSound(atts, i, item, trust) && (a.item == i ==> a.kind.Scan? && item.status.Quarantined?)
    ensures ItemSound(atts + [a], i, item, trust)
  {
    MarksAppend(atts, a, i);
    if item.status.Released? {
      BackedAppend(atts, a, i, item.key, trust);
    }
  }

  lemma ItemSoundClose(atts: seq<Attestation>, a: Attestation, item: Item, status: Status, trust: Trust)
    requires ItemSound(atts, a.item, item, trust) && item.status.Quarantined? && !a.kind.Scan? && Due(status) == [a.kind]
    requires status.Released? ==> Backed(atts, a.item, item.key, trust)
    ensures ItemSound(atts + [a], a.item, item.(status := status), trust)
  {
    MarksAppend(atts, a, a.item);
    BackedAppend(atts, a, a.item, item.key, trust);
  }

  /** A scan of an open item, which may change the item's reason. */
  lemma ScanAdded(d: Desk, a: Attestation, item: Item, trust: Trust)
    requires Sound(d, trust) && About(a, d.items) && a.kind.Scan? && d.items[a.item].status.Quarantined?
    requires item == d.items[a.item].(reason := item.reason)
    ensures Sound(Desk(d.items[a.item := item], d.attestations + [a]), trust)
  {
    var items' := d.items[a.item := item];
    StatusesKept(d.items, items');
    AboutKept(d, items', a);
    forall i | 0 <= i < |items'| ensures ItemSound(d.attestations + [a], i, items'[i], trust) {
      assert ItemSound(d.attestations, i, d.items[i], trust);
      ItemSoundAppend(d.attestations, a, i, d.items[i], trust);
    }
  }

  lemma ScanSound(d: Desk, id: nat, tenant: string, scan: GuardPolicy.Scan, signature: Signature, trust: Trust)
    requires Sound(d, trust) && Scanned(d, id, tenant, scan, signature).Ok?
    ensures Sound(Scanned(d, id, tenant, scan, signature).value, trust) && Later(d, Scanned(d, id, tenant, scan, signature).value)
  {
    var d' := Scanned(d, id, tenant, scan, signature).value;
    var a := Attestation(Scan(GuardPolicy.VerdictForScan(scan)), id, d.items[id].key, signature);
    assert d' == Desk(d.items[id := d'.items[id]], d.attestations + [a]);
    ScanAdded(d, a, d'.items[id], trust);
  }

  lemma AboutKept(d: Desk, items': seq<Item>, a: Attestation)
    requires (forall k :: 0 <= k < |d.attestations| ==> About(d.attestations[k], d.items)) && About(a, d.items)
    requires |items'| == |d.items| && forall i :: 0 <= i < |items'| ==> items'[i].key == d.items[i].key
    ensures forall k :: 0 <= k < |d.attestations + [a]| ==> About((d.attestations + [a])[k], items')
  {
  }

  lemma StatusesKept(items: seq<Item>, items': seq<Item>)
    requires UniqueActive(items) && |items'| == |items|
    requires forall i :: 0 <= i < |items| ==> items'[i].key == items[i].key && (items'[i].status.Quarantined? ==> items[i].status.Quarantined?)
    ensures UniqueActive(items')
  {
  }

  lemma CloseSound(d: Desk, id: nat, kind: Kind, status: Status, signature: Signature, trust: Trust)
    requires Sound(d, trust) && id < |d.items| && d.items[id].status.Quarantined? && Due(status) == [kind] && !kind.Scan?
    requires status.Released? ==> Backed(d.attestations, id, d.items[id].key, trust)
    ensures Sound(Closed(Signed(d, kind, id, signature), id, status), trust)
    ensures Later(d, Closed(Signed(d, kind, id, signature), id, status))
  {
    var d' := Closed(Signed(d, kind, id, signature), id, status);
    var a := Attestation(kind, id, d.items[id].key, signature);
    assert d'.attestations == d.attestations + [a];
    ItemSoundClose(d.attestations, a, d.items[id], status, trust);
    StatusesKept(d.items, d'.items);
    AboutKept(d, d'.items, a);
    forall i | 0 <= i < |d'.items| ensures ItemSound(d'.attestations, i, d'.items[i], trust) {
      if i != id {
        ItemSoundAppend(d.attestations, a, i, d.items[i], trust);
      }
    }
  }

  /** A valid scan that is not clean refuses release, whatever clean evidence came before it. */
  lemma BlockingScanRefusesRelease(d: Desk, id: nat, tenant: string, scan: GuardPolicy.Scan, signature: Signature,
                                   policy: Option<GuardPolicy.Action>, signature': Signature, trust: Trust)
    requires Scanned(d, id, tenant, scan, signature).Ok? && GuardPolicy.VerdictForScan(scan) != GuardPolicy.Clean
    requires Verifies(trust, Attestation(Scan(GuardPolicy.VerdictForScan(scan)), id, d.items[id].key, signature))
    ensures ReleaseItem(Scanned(d, id, tenant, scan, signature).value, id, tenant, policy, signature', trust) == Err(NoCleanScan)
  {
    var a := Attestation(Scan(GuardPolicy.VerdictForScan(scan)), id, d.items[id].key, signature);
    NewScanDecides(d.attestations, a, id, d.items[id].key, trust);
  }

  // ---- who may do what, and what it leaves ----

  /** All but item `id` are as they were, and that one is still about the same content. */
  ghost predicate OnlyItem(d: Desk, d': Desk, id: nat)
  {
    && |d'.items| == |d.items| && id < |d.items| && d'.items[id].key == d.items[id].key
    && forall i :: 0 <= i < |d.items| && i != id ==> d'.items[i] == d.items[i]
  }

  /** Exactly one attestation was added: of this kind, about item `id` and its content. */
  ghost predicate OneSigned(d: Desk, d': Desk, id: nat, kind: Kind, signature: Signature)
    requires id < |d.items|
  {
    && |d'.attestations| == |d.attestations| + 1 && d.attestations <= d'.attestations
    && var a := d'.attestations[|d.attestations|]; a.kind == kind && a.item == id && a.key == d.items[id].key && a.signature == signature
  }

  /** A hold needs a URI, a content hash and one of four reasons; a second one for the same content changes nothing; a new one is filed last with its reason, and nothing is signed. */
  lemma PlacementRecorded(d: Desk, tenant: string, uri: string, hash: string, reason: string)
    ensures Place(d, (tenant, uri, hash), reason).Err? <==> uri == "" || hash == "" || reason !in {"pending_scan", "scan_failed", "manual_hold", "resubmitted"}
    ensures var r := Place(d, (tenant, uri, hash), reason);
      r.Ok? ==>
        && r.value.attestations == d.attestations
        && if exists i :: 0 <= i < |d.items| && d.items[i].key == (TenantOr(tenant), uri, hash) && d.items[i].status == Quarantined
           then r.value.items == d.items
           else |r.value.items| == |d.items| + 1 && d.items <= r.value.items && r.value.items[|d.items|] == Item((TenantOr(tenant), uri, hash), Quarantined, reason)
  {
  }

  /** Nobody can scan, release or reject an item of another tenant, or one that was decided already. */
  lemma StrangerPowerless(d: Desk, id: nat, tenant: string, scan: GuardPolicy.Scan, policy: Option<GuardPolicy.Action>, reasonGiven: bool,
                          signature: Signature, trust: Trust)
    requires id >= |d.items| || d.items[id].key.0 != TenantOr(tenant) || d.items[id].status in {Released, Rejected}
    ensures Scanned(d, id, tenant, scan, signature).Err?
    ensures ReleaseItem(d, id, tenant, policy, signature, trust).Err?
    ensures RejectItem(d, id, tenant, reasonGiven, signature).Err?
  {
  }

  /** A scan leaves the item under quarantine and signs one verdict about it; a blocking one is noted as the reason of the hold. */
  lemma ScanRecorded(d: Desk, id: nat, tenant: string, scan: GuardPolicy.Scan, signature: Signature)
    requires Scanned(d, id, tenant, scan, signature).Ok?
    ensures var d' := Scanned(d, id, tenant, scan, signature).value;
      && OnlyItem(d, d', id) && d'.items[id].status == Quarantined
      && OneSigned(d, d', id, Scan(GuardPolicy.VerdictForScan(scan)), signature)
      && (GuardPolicy.VerdictForScan(scan) == GuardPolicy.Blocked ==> d'.items[id].reason == "scan_failed")
      && (GuardPolicy.VerdictForScan(scan) != GuardPolicy.Blocked ==> d'.items[id] == d.items[id])
  {
  }

  /** A decision closes this item, signs it once, and leaves the reason of the hold on record. */
  lemma DecisionRecorded(d: Desk, id: nat, tenant: string, policy: Option<GuardPolicy.Action>, reasonGiven: bool, signature: Signature, trust: Trust)
    ensures var r := ReleaseItem(d, id, tenant, policy, signature, trust);
      r.Ok? ==>
        && OnlyItem(d, r.value, id) && r.value.items[id].status == Released && r.value.items[id].reason == d.items[id].reason
        && OneSigned(d, r.value, id, Release, signature) && policy in {None, Some(GuardPolicy.Allow)}
        && exists k: nat :: Newest(d.attestations, id, d.items[id].key, trust, k) && d.attestations[k].kind == Scan(GuardPolicy.Clean)
    ensures var r := RejectItem(d, id, tenant, reasonGiven, signature);
      r.Ok? ==>
        && OnlyItem(d, r.value, id) && r.value.items[id].status == Rejected && r.value.items[id].reason == d.items[id].reason
        && OneSigned(d, r.value, id, Reject, signature) && reasonGiven
  {
  }

  // ---- the trust anchor ----

  function Resolved(given: Option<string>, configured: Option<string>): Option<string>
  {
    if given.Some? then given else configured
  }

  /** A release needs a newest scan that is clean and signed by `anchor`. */
  ghost predicate FailsClosed(d: Desk, id: nat, tenant: string, policy: Option<GuardPolicy.Action>, signature: Signature, trust: Trust, anchor: string)
  {
    ReleaseItem(d, id, tenant, policy, signature, trust).Ok? ==> Backed(d.attestations, id, d.items[id].key, Trust(trust.consistent, Some(anchor)))
  }

  /** One item, and a clean scan of it signed with `scanned`. */
  function ScannedBy(key: HoldKey, scanned: Signature): Desk
  {
    Desk([Item(key, Quarantined, "pending_scan")], [Attestation(Scan(GuardPolicy.Clean), 0, key, scanned)])
  }

  /** Without an anchor, a clean scan signed by a foreign key is enough. */
  lemma ForeignKeyReleases(consistent: Attestation -> bool, key: HoldKey, foreign: Signature, anchor: string, signature: Signature)
    requires key.0 != "" && foreign.keyId != anchor && consistent(Attestation(Scan(GuardPolicy.Clean), 0, key, foreign))
    ensures ReleaseItem(ScannedBy(key, foreign), 0, key.0, None, signature, Trust(consistent, None)).Ok?
    ensures !Backed(ScannedBy(key, foreign).attestations, 0, key, Trust(consistent, Some(anchor)))
  {
    assert Newest(ScannedBy(key, foreign).attestations, 0, key, Trust(consistent, None), 0);
  }

  /**
   Releases fail closed, on every desk, if and only if an anchor was resolved.
   `foreign` is any valid signature of a clean scan by another key.
   */
  lemma FailsClosedIff(trust: Trust, anchor: string, key: HoldKey, foreign: Signature)
    requires trust.anchor.None? || trust.anchor == Some(anchor)
    requires key.0 != "" && foreign.keyId != anchor && trust.consistent(Attestation(Scan(GuardPolicy.Clean), 0, key, foreign))
    ensures trust.anchor.Some? <==> forall d, id: nat, tenant, policy, signature :: FailsClosed(d, id, tenant, policy, signature, trust, anchor)
  {
    if trust.anchor.Some? {
      assert trust == Trust(trust.consistent, Some(anchor));
    } else {
      assert trust == Trust(trust.consistent, None);
      ForeignKeyReleases(trust.consistent, key, foreign, anchor, foreign);
      assert !FailsClosed(ScannedBy(key, foreign), 0, key.0, None, foreign, trust, anchor);
    }
  }

  // ---- the store in place ----

  class Store {
    var items: seq<Item>
    var attestations: seq<Attestation>

    ghost function View(): Desk
      reads this
    {
      Desk(items, attestations)
    }

    constructor ()
      ensures View() == Desk([], [])
    {
      items, attestations := [], [];
    }

    method QuarantineCapability(key: HoldKey, reason: string) returns (r: Result<nat, Refusal>)
      modifies this
      ensures r.Err? ==> Place(old(View()), key, reason) == Err(r.error) && View() == old(View())
      ensures r.Ok? ==> Place(old(View()), key, reason) == Ok(View())
      ensures r.Ok? ==> r.value < |items| && items[r.value].key == (TenantOr(key.0), key.1, key.2) && items[r.value].status == Quarantined
    {
      if key.1 == "" || key.2 == "" {
        return Err(Incomplete);
      }
      if reason !in REASONS {
        return Err(UnknownReason);
      }
      var key' := (TenantOr(key.0), key.1, key.2);
      for i := 0 to |items|
        invariant forall j :: 0 <= j < i ==> !(items[j].key == key' && items[j].status == Quarantined)
      {
        if items[i].key == key' && items[i].status == Quarantined {
          return Ok(i);
        }
      }
      items := items + [Item(key', Quarantined, reason)];
      r := Ok(|items| - 1);
    }

    method IssueScanAttestation(id: nat, tenant: string, scan: GuardPolicy.Scan, signature: Signature) returns (r: Result<(), Refusal>)
      modifies this
      ensures r.Err? ==> Scanned(old(View()), id, tenant, scan, signature) == Err(r.error) && View() == old(View())
      ensures r.Ok? ==> Scanned(old(View()), id, tenant, scan, signature) == Ok(View())
    {
      if id >= |items| || items[id].key.0 != TenantOr(tenant) {
        return Err(NotFound);
      }
      if items[id].status != Quarantined {
        return Err(NotQuarantined);
      }
      var verdict := GuardPolicy.VerdictForScan(scan);
      attestations := attestations + [Attestation(Scan(verdict), id, items[id].key, signature)];
      if verdict == GuardPolicy.Blocked {
        items := items[id := items[id].(reason := "scan_failed")];
      }
      r := Ok(());
    }

    /** The anchor is the caller's key id, else the configured signing key, else none: a failure to read that key is swallowed. */
    method ReleaseFromQuarantine(id: nat, tenant: string, policy: Option<GuardPolicy.Action>, signature: Signature,
                                 consistent: Attestation -> bool, given: Option<string>, configured: Option<string>)
      returns (r: Result<(), Refusal>)
      modifies this
      ensures r.Err? ==> ReleaseItem(old(View()), id, tenant, policy, signature, Trust(consistent, Resolved(given, configured))) == Err(r.error)
      ensures r.Err? ==> View() == old(View())
      ensures r.Ok? ==> ReleaseItem(old(View()), id, tenant, policy, signature, Trust(consistent, Resolved(given, configured))) == Ok(View())
    {
      if id >= |items| || items[id].key.0 != TenantOr(tenant) {
        return Err(NotFound);
      }
      if items[id].status != Quarantined {
        return Err(NotQuarantined);
      }
      var anchor := given;
      if anchor.None? {
        anchor := configured;
      }
      var clean := ScanCleanAttestation(Desk(items, attestations), id, tenant, Trust(consistent, anchor));
      if clean.None? {
        return Err(NoCleanScan);
      }
      if policy.Some? && policy.value != GuardPolicy.Allow {
        return Err(PolicyRefused);
      }
      attestations := attestations + [Attestation(Release, id, items[id].key, signature)];
      items := items[id := items[id].(status := Released)];
      r := Ok(());
    }

    method RejectFromQuarantine(id: nat, tenant: string, reasonGiven: bool, signature: Signature) returns (r: Result<(), Refusal>)
      modifies this
      ensures r.Err? ==> RejectItem(old(View()), id, tenant, reasonGiven, signature) == Err(r.error) && View() == old(View())
      ensures r.Ok? ==> RejectItem(old(View()), id, tenant, reasonGiven, signature) == Ok(View())
    {
      if id >= |items| || items[id].key.0 != TenantOr(tenant) {
        return Err(NotFound);
      }
      if items[id].status != Quarantined {
        return Err(NotQuarantined);
      }
      if !reasonGiven {
        return Err(ReasonMissing);
      }
      attestations := attestations + [Attestation(Reject, id, items[id].key, signature)];
      items := items[id := items[id].(status := Rejected)];
      r := Ok(());
    }
  }
}
