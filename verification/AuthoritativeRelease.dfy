/**
 `release_capability_from_quarantine` (capmesh/capguard.py): scan again, sign
 the verdict, then release under the runtime policy of the live capability.
 The capability is looked up by `get_capability` (capmesh/index.py), which hides
 rows under an active hold.
 */
module AuthoritativeRelease {
  import opened Types
  import opened Model
  import opened Catalog
  import opened Custody
  import Q = Quarantine
  import GuardPolicy

  /** What the composed release is given: the scans and the policy are arbitrary functions of what they look at. */
  datatype Call = Call(id: nat, tenant: string, given: Option<Capability>, byName: Option<Capability>, scan: GuardPolicy.Scan,
                       injection: Option<Capability> -> Option<bool>, policy: (Capability, GuardPolicy.Scan) -> GuardPolicy.Action,
                       scanSignature: Q.Signature, releaseSignature: Q.Signature)

  /** `_capguard_is_held` */
  predicate IsHeld(w: World, c: Capability)
  {
    Q.HasItem(w.desk.items, HoldKeyOf(c), Q.Quarantined)
  }

  /** `get_capability`; `byName` is the row whose name or title is the identifier. */
  function GetCapability(w: World, uri: string, byName: Option<Capability>): Option<Capability>
  {
    var found := if uri in w.tables.rows then Some(w.tables.rows[uri].cap) else byName;
    if found.Some? && IsHeld(w, found.value) then None else found
  }

  function Loaded(w: World, uri: string, call: Call): Option<Capability>
  {
    if call.given.Some? then call.given else GetCapability(w, uri, call.byName)
  }

  /** The scan that is signed: a blocked injection scan counts as a critical finding. */
  function Composed(w: World, uri: string, call: Call): GuardPolicy.Scan
  {
    if call.injection(Loaded(w, uri, call)) == Some(false) then GuardPolicy.WithInjectionBlock(call.scan) else call.scan
  }

  /** The verdict the release asks for: none when no capability could be loaded. */
  function Verdict(w: World, uri: string, call: Call): Option<GuardPolicy.Action>
  {
    var loaded := Loaded(w, uri, call);
    if loaded.Some? then Some(call.policy(loaded.value, Composed(w, uri, call))) else None
  }

  /** The desk after the call, and whether it released; a refusal leaves the scan it signed. */
  ghost function ComposedRelease(w: World, call: Call, trust: Trust): (Q.Desk, Result<(), Q.Refusal>)
  {
    match Q.Open(w.desk, call.id, call.tenant)
    case Err(x) => (w.desk, Err(x))
    case Ok(item) =>
      var scanned := Q.Scanned(w.desk, call.id, call.tenant, Composed(w, item.key.1, call), call.scanSignature).value;
      match Q.ReleaseItem(scanned, call.id, call.tenant, Verdict(w, item.key.1, call), call.releaseSignature, trust)
      case Err(x) => (scanned, Err(x))
      case Ok(d) => (d, Ok(()))
  }

  /** The scan attestation of the call verifies, as one signed with the anchor's key does. */
  ghost predicate ScanVerifies(w: World, call: Call, trust: Trust)
    requires Q.Open(w.desk, call.id, call.tenant).Ok?
  {
    var key := w.desk.items[call.id].key;
    Q.Verifies(trust, Q.Attestation(Q.Scan(GuardPolicy.VerdictForScan(Composed(w, key.1, call))), call.id, key, call.scanSignature))
  }

  /** A composed release succeeds exactly when its own scan is clean and the policy, where a capability was loaded, allows. */
  lemma ReleasedIff(w: World, call: Call, trust: Trust)
    requires Q.Open(w.desk, call.id, call.tenant).Ok? && ScanVerifies(w, call, trust)
    ensures var uri := w.desk.items[call.id].key.1;
      ComposedRelease(w, call, trust).1.Ok? <==>
        GuardPolicy.VerdictForScan(Composed(w, uri, call)) == GuardPolicy.Clean && Verdict(w, uri, call) in {None, Some(GuardPolicy.Allow)}
  {
    var key := w.desk.items[call.id].key;
    var verdict := GuardPolicy.VerdictForScan(Composed(w, key.1, call));
    var a := Q.Attestation(Q.Scan(verdict), call.id, key, call.scanSignature);
    Q.NewScanDecides(w.desk.attestations, a, call.id, key, trust);
    var scanned := Q.Scanned(w.desk, call.id, call.tenant, Composed(w, key.1, call), call.scanSignature).value;
    assert scanned.attestations == w.desk.attestations + [a];
    assert Q.Open(scanned, call.id, call.tenant).Ok?;
  }

  /** The policy is consulted exactly when the caller passes a capability, or the row found for the item's URI is not itself held. */
  lemma PolicyConsultedIff(w: World, call: Call, uri: string)
    ensures Verdict(w, uri, call).Some? <==>
      || call.given.Some?
      || (uri in w.tables.rows && !IsHeld(w, w.tables.rows[uri].cap))
      || (uri !in w.tables.rows && call.byName.Some? && !IsHeld(w, call.byName.value))
  {
  }

  /**
   The usual call, with the item's own content indexed at its URI and no
   capability passed: the row is hidden by the very hold to be released, so the
   policy has no say, whatever it would answer.
   */
  lemma OwnRowSkipsPolicy(w: World, call: Call, trust: Trust)
    requires Q.Open(w.desk, call.id, call.tenant).Ok? && ScanVerifies(w, call, trust) && call.given.None?
    requires Keyed(w.tables.rows, w.tables.nextId)
    requires var key := w.desk.items[call.id].key;
      key.1 in w.tables.rows && HoldKeyOf(w.tables.rows[key.1].cap) == key
    ensures var uri := w.desk.items[call.id].key.1;
      && Verdict(w, uri, call) == None
      && (ComposedRelease(w, call, trust).1.Ok? <==> GuardPolicy.VerdictForScan(Composed(w, uri, call)) == GuardPolicy.Clean)
  {
    var key := w.desk.items[call.id].key;
    assert Q.HasItem(w.desk.items, key, Q.Quarantined);
    PolicyConsultedIff(w, call, key.1);
    ReleasedIff(w, call, trust);
  }
}
