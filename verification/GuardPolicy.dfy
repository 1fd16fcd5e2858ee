/**
 The model-agnostic CapGuard policy (capmesh/cap_guard.py) and the scan verdict
 that gets signed (`_verdict_for_scan` in capmesh/capguard.py).
 */
module GuardPolicy {
  import opened Types
  import Text

  datatype Control = MalwareScan | Signature | Provenance | PromptInjectionScan | RiskTierPolicy

  const DEFAULT_CHECKS := [MalwareScan, Signature, Provenance, PromptInjectionScan, RiskTierPolicy]

  datatype State = Pending | Passed | Failed

  datatype Severity = Low | Medium | High | Critical

  datatype Check = Check(name: Control, state: State, severity: Severity, failClosed: bool)

  datatype Isolation = NoIsolation | Cire | Camber

  datatype Action = Allow | Quarantine | Deny

  const RISK_TIERS := {"low", "medium", "high", "critical"}

  datatype Policy = Policy(enabled: set<Control>, blocking: set<Control>, failClosed: bool, camberTiers: set<string>,
                           cireTiers: set<string>, allowCireDowngrade: bool, denyOnHighFindings: bool,
                           quarantineOnMediumFindings: bool)

  /** What `CapGuardPolicy.__post_init__` enforces. */
  predicate ValidPolicy(p: Policy)
  {
    p.blocking <= p.enabled && p.camberTiers <= RISK_TIERS && p.cireTiers <= RISK_TIERS && p.camberTiers !! p.cireTiers
  }

  const DEFAULT_POLICY := Policy(
    {MalwareScan, Signature, Provenance, PromptInjectionScan, RiskTierPolicy},
    {MalwareScan, Signature, Provenance, PromptInjectionScan, RiskTierPolicy},
    true, {"high", "critical"}, {"medium"}, false, true, true)

  // ---- scan results ----

  /** The keys of a scan dictionary; an absent key is `None`. `findings` holds each finding's severity text. */
  datatype Scan = Scan(error: Option<string>, findings: seq<string>, criticalCount: Option<int>, highCount: Option<int>, passed: Option<bool>)

  function LowerChar(c: char): char
  {
    if 'A' <= c <= 'Z' then (c as int + 32) as char else c
  }

  function Lower(s: string): string
  {
    seq(|s|, i requires 0 <= i < |s| => LowerChar(s[i]))
  }

  predicate Truthy(n: Option<int>)
  {
    n.Some? && n.value != 0
  }

  predicate Errored(s: Scan)
  {
    s.error.Some? && s.error.value != ""
  }

  datatype ScanVerdict = Clean | Blocked | Error

  /** `_verdict_for_scan` */
  function VerdictForScan(s: Scan): ScanVerdict
  {
    if Errored(s) then Error
    else if exists f :: f in s.findings && Lower(f) in {"critical", "high"} then Blocked
    else if Truthy(s.criticalCount) || Truthy(s.highCount) then Blocked
    else if s.passed == Some(false) then Blocked
    else Clean
  }

  function Count(findings: seq<string>, severity: string): nat
  {
    if findings == [] then 0
    else (if findings[0] == severity then 1 else 0) + Count(findings[1..], severity)
  }

  /** `_scan_check` */
  function ScanCheck(scan: Option<Scan>, p: Policy): Check
  {
    match scan
    case None => Check(MalwareScan, Pending, Low, false)
    case Some(s) =>
      if Errored(s) then Check(MalwareScan, Failed, Critical, true)
      else
        var crit: int := match s.criticalCount case None => Count(s.findings, "critical") case Some(n) => n;
        var high: int := match s.highCount case None => Count(s.findings, "high") case Some(n) => n;
        var medium := Count(s.findings, "medium");
        var passed := s.passed == Some(true);
        if !passed && (crit != 0 || high != 0) then Check(MalwareScan, Failed, if crit != 0 then Critical else High, false)
        else if !passed then Check(MalwareScan, Failed, Critical, true)
        else if medium != 0 && p.quarantineOnMediumFindings then Check(MalwareScan, Failed, Medium, false)
        else Check(MalwareScan, Passed, Low, false)
  }

  /** The severities of `MALWARE_SIGNATURES`, in order. */
  const SIGNATURE_SEVERITIES := ["critical", "high", "high", "high", "high"]

  function Matched(severities: seq<string>, hits: seq<bool>): seq<string>
    requires |hits| == |severities|
  {
    if hits == [] then []
    else (if hits[0] then [severities[0]] else []) + Matched(severities[1..], hits[1..])
  }

  /** `scan_file`: unreadable or oversize, else one finding per signature that matches. */
  function ScanFile(unreadable: Option<string>, hits: seq<bool>): Scan
    requires |hits| == |SIGNATURE_SEVERITIES|
  {
    if unreadable.Some? then Scan(unreadable, [], None, None, Some(false))
    else
      var findings := Matched(SIGNATURE_SEVERITIES, hits);
      var critical, high := Count(findings, "critical"), Count(findings, "high");
      Scan(None, findings, Some(critical), Some(high), Some(critical == 0 && high == 0))
  }

  /** The result the release path signs after a blocked injection scan. */
  function WithInjectionBlock(s: Scan): Scan
  {
    s.(passed := Some(false), findings := s.findings + ["critical"],
       criticalCount := Some((match s.criticalCount case None => 0 case Some(n) => n) + 1))
  }

  lemma {:induction false} CountPositive(findings: seq<string>, severity: string)
    ensures Count(findings, severity) > 0 <==> severity in findings
  {
    if findings != [] {
      CountPositive(findings[1..], severity);
    }
  }

  lemma {:induction false} MatchedFrom(severities: seq<string>, hits: seq<bool>)
    requires |hits| == |severities|
    ensures forall f :: f in Matched(severities, hits) ==> f in severities
  {
    if hits != [] {
      MatchedFrom(severities[1..], hits[1..]);
    }
  }

  lemma LowerSeverities()
    ensures Lower("critical") == "critical" && Lower("high") == "high" && Lower("medium") == "medium"
  {
  }

  /**
   The signed verdict and the policy check agree on everything `scan_file` can
   return, under every policy: clean exactly when the malware control passes.
   */
  lemma SignedVerdictMatchesCheck(unreadable: Option<string>, hits: seq<bool>, p: Policy)
    requires |hits| == |SIGNATURE_SEVERITIES|
    requires unreadable.Some? ==> unreadable.value != ""
    ensures var s := ScanFile(unreadable, hits);
      && (VerdictForScan(s) == Clean <==> ScanCheck(Some(s), p).state == Passed)
      && (VerdictForScan(WithInjectionBlock(s)) != Clean && ScanCheck(Some(WithInjectionBlock(s)), p).state == Failed)
  {
    if unreadable.None? {
      FoundAgree(ScanFile(unreadable, hits), hits, p);
    }
    BlockedAgree(ScanFile(unreadable, hits), p);
  }

  lemma FoundAgree(s: Scan, hits: seq<bool>, p: Policy)
    requires |hits| == |SIGNATURE_SEVERITIES| && s == ScanFile(None, hits)
    ensures VerdictForScan(s) == Clean <==> ScanCheck(Some(s), p).state == Passed
  {
    FindingSeverities(s, hits);
    CountPositive(s.findings, "critical");
    CountPositive(s.findings, "high");
    CountPositive(s.findings, "medium");
    LowerSeverities();
  }

  lemma FindingSeverities(s: Scan, hits: seq<bool>)
    requires |hits| == |SIGNATURE_SEVERITIES| && s == ScanFile(None, hits)
    ensures forall f :: f in s.findings ==> f == "critical" || f == "high"
  {
    MatchedFrom(SIGNATURE_SEVERITIES, hits);
  }

  /** A blocked injection scan is never clean and never passes, whatever the malware scan said. */
  lemma BlockedAgree(s: Scan, p: Policy)
    ensures VerdictForScan(WithInjectionBlock(s)) != Clean && ScanCheck(Some(WithInjectionBlock(s)), p).state == Failed
  {
    var b := WithInjectionBlock(s);
    LowerSeverities();
    assert b.findings[|s.findings|] == "critical";
    assert "critical" in b.findings;
  }

  lemma {:induction false} MatchedAny(severities: seq<string>, hits: seq<bool>, i: nat)
    requires |hits| == |severities| && i < |hits| && hits[i]
    ensures severities[i] in Matched(severities, hits)
  {
    if i > 0 {
      MatchedAny(severities[1..], hits[1..], i - 1);
    }
  }

  lemma {:induction false} MatchedNone(severities: seq<string>, hits: seq<bool>)
    requires |hits| == |severities| && forall i :: 0 <= i < |hits| ==> !hits[i]
    ensures Matched(severities, hits) == []
  {
    if hits != [] {
      MatchedNone(severities[1..], hits[1..]);
    }
  }

  /** The verdict that is signed: an error when the file could not be read, clean when no signature matches, blocked when any does. */
  lemma FileVerdict(unreadable: Option<string>, hits: seq<bool>)
    requires |hits| == |SIGNATURE_SEVERITIES| && (unreadable.Some? ==> unreadable.value != "")
    ensures var v := VerdictForScan(ScanFile(unreadable, hits));
      && (v == Error <==> unreadable.Some?)
      && (v == Clean <==> unreadable.None? && forall i :: 0 <= i < |hits| ==> !hits[i])
      && (v == Blocked <==> unreadable.None? && exists i :: 0 <= i < |hits| && hits[i])
  {
    if unreadable.None? {
      var s := ScanFile(unreadable, hits);
      LowerSeverities();
      if i :| 0 <= i < |hits| && hits[i] {
        MatchedAny(SIGNATURE_SEVERITIES, hits, i);
        FindingSeverities(s, hits);
        assert SIGNATURE_SEVERITIES[i] in s.findings;
      } else {
        MatchedNone(SIGNATURE_SEVERITIES, hits);
      }
    }
  }

  /** Whatever the shape of a result, a clean verdict means that nothing in it points to trouble. */
  lemma CleanMeansNoSign(s: Scan)
    ensures VerdictForScan(s) == Clean <==>
      && s.error in {None, Some("")} && s.criticalCount in {None, Some(0)} && s.highCount in {None, Some(0)} && s.passed != Some(false)
      && forall f :: f in s.findings ==> Lower(f) != "critical" && Lower(f) != "high"
  {
    var serious := exists f :: f in s.findings && Lower(f) in {"critical", "high"};
    assert serious <==> !(forall f :: f in s.findings ==> Lower(f) != "critical" && Lower(f) != "high") by {
      if f :| f in s.findings && (Lower(f) == "critical" || Lower(f) == "high") {
        assert Lower(f) in {"critical", "high"};
      }
    }
    assert Errored(s) <==> s.error !in {None, Some("")};
    assert Truthy(s.criticalCount) <==> s.criticalCount !in {None, Some(0)};
    assert Truthy(s.highCount) <==> s.highCount !in {None, Some(0)};
  }

  /** Outside the shapes `scan_file` returns, each direction of the agreement can fail. */
  lemma OtherShapesDisagree()
    ensures VerdictForScan(Scan(None, [], None, None, None)) == Clean
    ensures ScanCheck(Some(Scan(None, [], None, None, None)), DEFAULT_POLICY).state == Failed
    ensures VerdictForScan(Scan(None, ["high"], None, None, Some(true))) == Blocked
    ensures ScanCheck(Some(Scan(None, ["high"], None, None, Some(true))), DEFAULT_POLICY).state == Passed
    ensures VerdictForScan(Scan(None, ["medium"], None, None, Some(true))) == Clean
    ensures ScanCheck(Some(Scan(None, ["medium"], None, None, Some(true))), DEFAULT_POLICY).state == Failed
  {
    LowerSeverities();
    var high := Scan(None, ["high"], None, None, Some(true));
    assert "high" in high.findings;
    assert Count(["high"][1..], "medium") == 0;
    assert Count(["medium"][1..], "medium") == 0;
  }

  // ---- the other controls ----

  /** `_status_check` on the stripped, lower-cased status. */
  function StatusCheck(name: Control, status: string): Check
  {
    if status == "verified" then Check(name, Passed, Low, false)
    else if Text.Contains(status, "fail") || Text.Contains(status, "invalid") || Text.Contains(status, "reject") then Check(name, Failed, High, false)
    else Check(name, Pending, Low, false)
  }

  /** `_injection_check` */
  function InjectionCheck(result: Option<bool>): Check
  {
    match result
    case None => Check(PromptInjectionScan, Pending, Low, false)
    case Some(true) => Check(PromptInjectionScan, Passed, Low, false)
    case Some(false) => Check(PromptInjectionScan, Failed, Critical, false)
  }

  /** `_risk_tier_check` */
  function RiskTierCheck(tier: string): Check
  {
    if tier in RISK_TIERS then Check(RiskTierPolicy, Passed, Low, false) else Check(RiskTierPolicy, Failed, High, false)
  }

  /** `decide_isolation_mode` */
  function IsolationMode(tier: string, p: Policy): Isolation
  {
    if tier in p.camberTiers then Camber
    else if tier in p.cireTiers then Cire
    else if tier !in RISK_TIERS then Camber
    else NoIsolation
  }

  // ---- the verdict ----

  /** What one blocking control asks for. */
  function Demand(c: Check): Action
  {
    match c.state
    case Passed => Allow
    case Pending => Quarantine
    case Failed => if c.severity.High? || c.severity.Critical? || c.failClosed then Deny else Quarantine
  }

  function Rank(a: Action): nat
  {
    match a case Allow => 0 case Quarantine => 1 case Deny => 2
  }

  /** The more severe of two actions: allow < quarantine < deny. */
  function Worse(a: Action, b: Action): Action
  {
    if Rank(a) >= Rank(b) then a else b
  }

  /** The join of the demands of `checks`. */
  function Join(checks: seq<Check>): Action
  {
    if checks == [] then Allow else Worse(Demand(checks[0]), Join(checks[1..]))
  }

  lemma {:induction false} JoinIsLeastBound(checks: seq<Check>)
    ensures forall c :: c in checks ==> Rank(Demand(c)) <= Rank(Join(checks))
    ensures Join(checks) == Allow || exists c :: c in checks && Demand(c) == Join(checks)
  {
    if checks != [] {
      JoinIsLeastBound(checks[1..]);
      assert checks == [checks[0]] + checks[1..];
      assert checks[0] in checks;
    }
  }

  /** The evidence about one capability that the policy looks at. */
  datatype Evidence = Evidence(scan: Option<Scan>, signature: string, provenance: string, injection: Option<bool>, riskTier: string)

  function ResultFor(name: Control, e: Evidence, p: Policy): Check
  {
    match name
    case MalwareScan => ScanCheck(e.scan, p)
    case Signature => StatusCheck(Signature, e.signature)
    case Provenance => StatusCheck(Provenance, e.provenance)
    case PromptInjectionScan => InjectionCheck(e.injection)
    case RiskTierPolicy => RiskTierCheck(e.riskTier)
  }

  /** Results of the controls in `names` that are in `wanted`, in order. */
  function Results(names: seq<Control>, wanted: set<Control>, e: Evidence, p: Policy): seq<Check>
  {
    if names == [] then []
    else (if names[0] in wanted then [ResultFor(names[0], e, p)] else []) + Results(names[1..], wanted, e, p)
  }

  lemma {:induction false} ResultsAppend(names: seq<Control>, name: Control, wanted: set<Control>, e: Evidence, p: Policy)
    ensures Results(names + [name], wanted, e, p) ==
      Results(names, wanted, e, p) + (if name in wanted then [ResultFor(name, e, p)] else [])
  {
    if names == [] {
      assert names + [name] == [name];
    } else {
      assert (names + [name])[1..] == names[1..] + [name];
      ResultsAppend(names[1..], name, wanted, e, p);
    }
  }

  function Filter(checks: seq<Check>, keep: Check -> bool): (r: seq<Check>)
    ensures forall c :: c in r <==> c in checks && keep(c)
  {
    if checks == [] then []
    else
      assert checks == [checks[0]] + checks[1..];
      (if keep(checks[0]) then [checks[0]] else []) + Filter(checks[1..], keep)
  }

  lemma {:induction false} BlockingResults(names: seq<Control>, e: Evidence, p: Policy)
    requires p.blocking <= p.enabled
    ensures Filter(Results(names, p.enabled, e, p), (c: Check) => c.name in p.blocking) == Results(names, p.blocking, e, p)
  {
    if names != [] {
      BlockingResults(names[1..], e, p);
      var keep := (c: Check) => c.name in p.blocking;
      var head := if names[0] in p.enabled then [ResultFor(names[0], e, p)] else [];
      var rest := Results(names[1..], p.enabled, e, p);
      if names[0] in p.enabled {
        assert (head + rest)[0] == ResultFor(names[0], e, p) && (head + rest)[1..] == rest;
      } else {
        assert head + rest == rest;
      }
    }
  }

  /** The action the policy asks for: the join over its blocking controls. */
  function PolicyAction(e: Evidence, p: Policy): Action
  {
    Join(Results(DEFAULT_CHECKS, p.blocking, e, p))
  }

  datatype Verdict = Verdict(action: Action, isolation: Isolation, checks: seq<Check>, failClosed: bool)

  /** The loop of `evaluate_cap_guard_policy` over the enabled controls. */
  method EvaluateControls(e: Evidence, p: Policy) returns (results: seq<Check>)
    ensures results == Results(DEFAULT_CHECKS, p.enabled, e, p)
  {
    results := [];
    for i := 0 to |DEFAULT_CHECKS|
      invariant results == Results(DEFAULT_CHECKS[..i], p.enabled, e, p)
    {
      var name := DEFAULT_CHECKS[i];
      assert DEFAULT_CHECKS[..i + 1] == DEFAULT_CHECKS[..i] + [name];
      ResultsAppend(DEFAULT_CHECKS[..i], name, p.enabled, e, p);
      if name in p.enabled {
        results := results + [ResultFor(name, e, p)];
      }
    }
    assert DEFAULT_CHECKS[..|DEFAULT_CHECKS|] == DEFAULT_CHECKS;
  }

  /**
   `evaluate_cap_guard_policy`.  Its four rules compute the join; it raises
   (the constructor's invariant) exactly when it would allow a high or critical
   tier without isolation.
   */
  method EvaluateCapGuardPolicy(e: Evidence, p: Policy) returns (r: Result<Verdict, string>)
    requires ValidPolicy(p)
    ensures r.Err? <==> PolicyAction(e, p) == Allow && e.riskTier in {"high", "critical"} && IsolationMode(e.riskTier, p) == NoIsolation
    ensures r.Ok? ==> r.value.action == PolicyAction(e, p) && r.value.isolation == IsolationMode(e.riskTier, p)
    ensures r.Ok? ==> r.value.checks == Results(DEFAULT_CHECKS, p.enabled, e, p)
    ensures r.Ok? && r.value.failClosed ==> r.value.action == Deny
    ensures r.Ok? ==> (r.value.failClosed <==> FailsClosed(e, p))
  {
    var isolation := IsolationMode(e.riskTier, p);
    var results := EvaluateControls(e, p);
    var blocking := Filter(results, (c: Check) => c.name in p.blocking);
    BlockingResults(DEFAULT_CHECKS, e, p);
    var failed := Filter(blocking, (c: Check) => c.state == Failed);
    var pending := Filter(blocking, (c: Check) => c.state == Pending);
    var failClosedTriggered := exists c :: c in failed && c.failClosed;
    var hard := Filter(failed, (c: Check) => HardFailure(c));
    RulesComputeJoin(blocking, failed, pending, hard);
    FailClosedIff(e, p, failed);
    if hard != [] {
      return Ok(Verdict(Deny, isolation, results, failClosedTriggered));
    }
    if failed != [] {
      if p.denyOnHighFindings && exists c :: c in failed && c.severity == High {
        assert false;
        return Ok(Verdict(Deny, isolation, results, failClosedTriggered));
      }
      return Ok(Verdict(Quarantine, isolation, results, failClosedTriggered));
    }
    if pending != [] {
      return Ok(Verdict(Quarantine, isolation, results, false));
    }
    if e.riskTier in {"high", "critical"} && isolation == NoIsolation {
      return Err("CapGuard invariant violated");
    }
    return Ok(Verdict(Allow, isolation, results, false));
  }

  predicate HardFailure(c: Check)
  {
    c.severity.High? || c.severity.Critical? || c.failClosed
  }

  /**
   The four rules compute the join.  With no hard failure left, no failure has
   high severity or is fail-closed, so rule 2's deny branch is dead code.
   */
  lemma RulesComputeJoin(blocking: seq<Check>, failed: seq<Check>, pending: seq<Check>, hard: seq<Check>)
    requires forall c :: c in failed <==> c in blocking && c.state == Failed
    requires forall c :: c in pending <==> c in blocking && c.state == Pending
    requires forall c :: c in hard <==> c in failed && HardFailure(c)
    ensures hard != [] ==> Join(blocking) == Deny
    ensures hard == [] && (failed != [] || pending != []) ==> Join(blocking) == Quarantine
    ensures failed == [] && pending == [] ==> Join(blocking) == Allow
    ensures hard == [] ==> forall c :: c in failed ==> c.severity != High && !c.failClosed
  {
    JoinIsLeastBound(blocking);
    assert hard == [] || hard[0] in hard;
    assert failed == [] || failed[0] in failed;
    assert pending == [] || pending[0] in pending;
    assert forall c :: c in failed && HardFailure(c) ==> c in hard;
  }

  /** `e` is at least as bad as `d` for every control. */
  ghost predicate NoBetter(d: Evidence, e: Evidence, p: Policy)
  {
    forall n :: Rank(Demand(ResultFor(n, d, p))) <= Rank(Demand(ResultFor(n, e, p)))
  }

  lemma {:induction false} JoinMonotone(names: seq<Control>, small: set<Control>, large: set<Control>, d: Evidence, e: Evidence, p: Policy)
    requires NoBetter(d, e, p) && small <= large
    ensures Rank(Join(Results(names, small, d, p))) <= Rank(Join(Results(names, large, e, p)))
  {
    if names != [] {
      JoinMonotone(names[1..], small, large, d, e, p);
      JoinCons(names, small, d, p);
      JoinCons(names, large, e, p);
    }
  }

  lemma JoinCons(names: seq<Control>, wanted: set<Control>, e: Evidence, p: Policy)
    requires names != []
    ensures Join(Results(names, wanted, e, p)) ==
      if names[0] in wanted then Worse(Demand(ResultFor(names[0], e, p)), Join(Results(names[1..], wanted, e, p)))
      else Join(Results(names[1..], wanted, e, p))
  {
    var rest := Results(names[1..], wanted, e, p);
    if names[0] in wanted {
      assert ([ResultFor(names[0], e, p)] + rest)[1..] == rest;
    } else {
      assert [] + rest == rest;
    }
  }

  /** Worsening any control, or blocking on more controls, never moves the action toward allow. */
  lemma WorseningNeverAllows(d: Evidence, e: Evidence, p: Policy, more: set<Control>)
    requires NoBetter(d, e, p) && p.blocking <= more
    ensures Rank(PolicyAction(d, p)) <= Rank(PolicyAction(e, p.(blocking := more)))
  {
    JoinMonotone(DEFAULT_CHECKS, p.blocking, more, d, e, p);
    SamePolicyResults(DEFAULT_CHECKS, more, e, p, p.(blocking := more));
  }

  lemma {:induction false} SamePolicyResults(names: seq<Control>, wanted: set<Control>, e: Evidence, p: Policy, q: Policy)
    requires p.quarantineOnMediumFindings == q.quarantineOnMediumFindings
    ensures Results(names, wanted, e, p) == Results(names, wanted, e, q)
  {
    if names != [] {
      SamePolicyResults(names[1..], wanted, e, p, q);
    }
  }

  /** `fail_closed`, `allow_cire_downgrade` and `deny_on_high_findings` are documented as relaxations; the action ignores all three. */
  lemma IdleSettings(e: Evidence, p: Policy, failClosed: bool, downgrade: bool, denyOnHigh: bool)
    ensures PolicyAction(e, p.(failClosed := failClosed, allowCireDowngrade := downgrade, denyOnHighFindings := denyOnHigh)) == PolicyAction(e, p)
  {
    SamePolicyResults(DEFAULT_CHECKS, p.blocking, e, p, p.(failClosed := failClosed, allowCireDowngrade := downgrade, denyOnHighFindings := denyOnHigh));
  }

  /** Under the default policy an allowed capability has a clean signed scan verdict (for `scan_file` results) and is never unisolated above medium tier. */
  lemma DefaultAllowIsClean(unreadable: Option<string>, hits: seq<bool>, e: Evidence)
    requires |hits| == |SIGNATURE_SEVERITIES| && (unreadable.Some? ==> unreadable.value != "")
    requires e.scan == Some(ScanFile(unreadable, hits)) && PolicyAction(e, DEFAULT_POLICY) == Allow
    ensures VerdictForScan(e.scan.value) == Clean
    ensures e.riskTier in RISK_TIERS && e.injection == Some(true) && e.signature == e.provenance == "verified"
    ensures e.riskTier != "low" ==> IsolationMode(e.riskTier, DEFAULT_POLICY) != NoIsolation
  {
    var p := DEFAULT_POLICY;
    var r := Results(DEFAULT_CHECKS, p.blocking, e, p);
    JoinIsLeastBound(r);
    forall n | n in DEFAULT_CHECKS ensures ResultFor(n, e, p) in r {
      ResultsHold(DEFAULT_CHECKS, p.blocking, e, p, n);
    }
    assert MalwareScan == DEFAULT_CHECKS[0] && Signature == DEFAULT_CHECKS[1] && Provenance == DEFAULT_CHECKS[2]
        && PromptInjectionScan == DEFAULT_CHECKS[3] && RiskTierPolicy == DEFAULT_CHECKS[4];
    assert ResultFor(MalwareScan, e, p) in r && ResultFor(Signature, e, p) in r && ResultFor(Provenance, e, p) in r
        && ResultFor(PromptInjectionScan, e, p) in r && ResultFor(RiskTierPolicy, e, p) in r;
    SignedVerdictMatchesCheck(unreadable, hits, p);
  }

  lemma {:induction false} ResultsHold(names: seq<Control>, wanted: set<Control>, e: Evidence, p: Policy, n: Control)
    requires n in names && n in wanted
    ensures ResultFor(n, e, p) in Results(names, wanted, e, p)
  {
    if names[0] != n {
      ResultsHold(names[1..], wanted, e, p, n);
    }
  }

  // ---- the action, read off the evidence ----

  /** A status that speaks of failure, as opposed to one that is merely not there yet. */
  ghost predicate BadStatus(status: string)
  {
    status != "verified" && (Text.Occurs(status, "fail") || Text.Occurs(status, "invalid") || Text.Occurs(status, "reject"))
  }

  /** The evidence condemns the capability as far as this control goes. */
  ghost predicate Condemns(n: Control, e: Evidence)
  {
    match n
    case MalwareScan => e.scan.Some? && (Errored(e.scan.value) || e.scan.value.passed != Some(true))
    case Signature => BadStatus(e.signature)
    case Provenance => BadStatus(e.provenance)
    case PromptInjectionScan => e.injection == Some(false)
    case RiskTierPolicy => e.riskTier !in RISK_TIERS
  }

  /** The evidence clears it. */
  ghost predicate Clears(n: Control, e: Evidence, p: Policy)
  {
    match n
    case MalwareScan => e.scan.Some? && !Errored(e.scan.value) && e.scan.value.passed == Some(true)
                        && (p.quarantineOnMediumFindings ==> "medium" !in e.scan.value.findings)
    case Signature => e.signature == "verified"
    case Provenance => e.provenance == "verified"
    case PromptInjectionScan => e.injection == Some(true)
    case RiskTierPolicy => e.riskTier in RISK_TIERS
  }

  lemma StatusDemand(name: Control, status: string)
    ensures Demand(StatusCheck(name, status)) == Deny <==> BadStatus(status)
    ensures Demand(StatusCheck(name, status)) == Allow <==> status == "verified"
  {
    Text.ContainsIff(status, "fail");
    Text.ContainsIff(status, "invalid");
    Text.ContainsIff(status, "reject");
  }

  lemma DemandOf(n: Control, e: Evidence, p: Policy)
    ensures Demand(ResultFor(n, e, p)) == Deny <==> Condemns(n, e)
    ensures Demand(ResultFor(n, e, p)) == Allow <==> Clears(n, e, p)
  {
    StatusDemand(Signature, e.signature);
    StatusDemand(Provenance, e.provenance);
    if e.scan.Some? {
      CountPositive(e.scan.value.findings, "medium");
    }
  }

  lemma {:induction false} ResultsAreOf(names: seq<Control>, wanted: set<Control>, e: Evidence, p: Policy, c: Check)
    requires c in Results(names, wanted, e, p)
    ensures exists n :: n in names && n in wanted && c == ResultFor(n, e, p)
  {
    if names[0] in wanted && c == ResultFor(names[0], e, p) {
      assert names[0] in names;
    } else {
      ResultsAreOf(names[1..], wanted, e, p, c);
      var n :| n in names[1..] && n in wanted && c == ResultFor(n, e, p);
      assert n in names;
    }
  }

  lemma EveryControl(n: Control)
    ensures n in DEFAULT_CHECKS
  {
    assert n == DEFAULT_CHECKS[0] || n == DEFAULT_CHECKS[1] || n == DEFAULT_CHECKS[2] || n == DEFAULT_CHECKS[3] || n == DEFAULT_CHECKS[4];
  }

  /** The one control that fails closed: a malware scan that blocks, and that broke off or failed without naming a critical or high finding. */
  ghost predicate FailsClosed(e: Evidence, p: Policy)
  {
    MalwareScan in p.blocking && e.scan.Some? && (Errored(e.scan.value) || (e.scan.value.passed != Some(true) && Nameless(e.scan.value)))
  }

  ghost predicate Nameless(s: Scan)
  {
    && (match s.criticalCount case None => "critical" !in s.findings case Some(n) => n == 0)
    && (match s.highCount case None => "high" !in s.findings case Some(n) => n == 0)
  }

  lemma FailClosedControl(n: Control, e: Evidence, p: Policy)
    ensures ResultFor(n, e, p).state == Failed && ResultFor(n, e, p).failClosed <==>
      n == MalwareScan && e.scan.Some? && (Errored(e.scan.value) || (e.scan.value.passed != Some(true) && Nameless(e.scan.value)))
  {
    if e.scan.Some? {
      CountPositive(e.scan.value.findings, "critical");
      CountPositive(e.scan.value.findings, "high");
    }
  }

  lemma FailClosedIff(e: Evidence, p: Policy, failed: seq<Check>)
    requires forall c :: c in failed <==> c in Results(DEFAULT_CHECKS, p.blocking, e, p) && c.state == Failed
    ensures (exists c :: c in failed && c.failClosed) <==> FailsClosed(e, p)
  {
    FailClosedControl(MalwareScan, e, p);
    if c :| c in failed && c.failClosed {
      ResultsAreOf(DEFAULT_CHECKS, p.blocking, e, p, c);
      var n :| n in p.blocking && c == ResultFor(n, e, p);
      FailClosedControl(n, e, p);
    }
    if FailsClosed(e, p) {
      EveryControl(MalwareScan);
      ResultsHold(DEFAULT_CHECKS, p.blocking, e, p, MalwareScan);
      assert ResultFor(MalwareScan, e, p) in failed;
    }
  }

  /** The action is bounded below by each blocking control and is the demand of one of them unless it is allow. */
  lemma ActionAttained(e: Evidence, p: Policy)
    ensures forall n :: n in p.blocking ==> Rank(Demand(ResultFor(n, e, p))) <= Rank(PolicyAction(e, p))
    ensures PolicyAction(e, p) == Allow || exists n :: n in p.blocking && Demand(ResultFor(n, e, p)) == PolicyAction(e, p)
  {
    var r := Results(DEFAULT_CHECKS, p.blocking, e, p);
    JoinIsLeastBound(r);
    forall n | n in p.blocking ensures ResultFor(n, e, p) in r {
      EveryControl(n);
      ResultsHold(DEFAULT_CHECKS, p.blocking, e, p, n);
    }
    if PolicyAction(e, p) != Allow {
      var c :| c in r && Demand(c) == Join(r);
      ResultsAreOf(DEFAULT_CHECKS, p.blocking, e, p, c);
    }
  }

  /**
   The verdict without its checks: denied exactly when a blocking control is
   condemned by the evidence, allowed exactly when every one is cleared, and
   held for quarantine otherwise.  So an invalid or failed signature is denied
   and one that is merely missing is held.
   */
  lemma ActionIff(e: Evidence, p: Policy)
    ensures PolicyAction(e, p) == Deny <==> exists n :: n in p.blocking && Condemns(n, e)
    ensures PolicyAction(e, p) == Allow <==> forall n :: n in p.blocking ==> Clears(n, e, p)
  {
    ActionAttained(e, p);
    forall n ensures Demand(ResultFor(n, e, p)) == Deny <==> Condemns(n, e) ensures Demand(ResultFor(n, e, p)) == Allow <==> Clears(n, e, p) {
      DemandOf(n, e, p);
    }
  }

  /** The isolation goes by the tier: Camber for its tiers and for every unknown one, Cire for its own, none for the rest; a valid policy never has to choose. */
  lemma IsolationByTier(tier: string, p: Policy)
    requires ValidPolicy(p)
    ensures IsolationMode(tier, p) == Camber <==> tier in p.camberTiers || tier !in RISK_TIERS
    ensures IsolationMode(tier, p) == Cire <==> tier in p.cireTiers
    ensures IsolationMode(tier, p) == NoIsolation <==> tier in RISK_TIERS - p.camberTiers - p.cireTiers
    ensures p == DEFAULT_POLICY ==> (IsolationMode(tier, p) == Cire <==> tier == "medium") && (IsolationMode(tier, p) == NoIsolation <==> tier == "low")
  {
  }
}
