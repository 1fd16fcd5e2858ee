/**
 The embedding circuit breaker (`_embed_breaker_*` and the control flow of
 `embed_text` in capmesh/index.py).  Clock readings are inputs: a call reads the
 clock once at the gate and once when it records a failure.  Times are reals.
 */
module EmbeddingBreaker {

  /** What happened to the fetch of a call that got through the gate. */
  datatype Outcome =
    | HostRefused                          // raised before the fetch; nothing recorded
    | Succeeded
    | Failed(hardDeadline: bool)

  /** One call of `embed_text` with a network provider. */
  datatype Call = Call(gateTime: real, recordTime: real, outcome: Outcome)

  datatype Settings = Settings(threshold: int, cooldown: real)

  datatype Breaker = Breaker(failures: nat, trippedUntil: real)

  const CLOSED := Breaker(0, 0.0)

  predicate Allows(b: Breaker, now: real)
  {
    now >= b.trippedUntil
  }

  function RecordFailure(b: Breaker, s: Settings, hardDeadline: bool, now: real): Breaker
  {
    var failures := b.failures + 1;
    Breaker(failures, if hardDeadline || failures >= s.threshold then now + s.cooldown else b.trippedUntil)
  }

  function Step(b: Breaker, s: Settings, c: Call): Breaker
  {
    if !Allows(b, c.gateTime) then b
    else match c.outcome
      case HostRefused => b
      case Succeeded => CLOSED
      case Failed(hard) => RecordFailure(b, s, hard, c.recordTime)
  }

  /** The call is a recorded failure in state `b`. */
  predicate Fails(b: Breaker, c: Call)
  {
    Allows(b, c.gateTime) && c.outcome.Failed?
  }

  predicate Succeeds(b: Breaker, c: Call)
  {
    Allows(b, c.gateTime) && c.outcome.Succeeded?
  }

  function After(s: Settings, calls: seq<Call>): Breaker
  {
    if calls == [] then CLOSED else Step(After(s, calls[..|calls| - 1]), s, calls[|calls| - 1])
  }

  /** Recorded failure times since the last success, oldest first. */
  function Streak(s: Settings, calls: seq<Call>): seq<real>
  {
    if calls == [] then []
    else
      var before, c := calls[..|calls| - 1], calls[|calls| - 1];
      var b := After(s, before);
      if Succeeds(b, c) then []
      else if Fails(b, c) then Streak(s, before) + [c.recordTime]
      else Streak(s, before)
  }

  /** Sequential calls on a monotone clock. */
  ghost predicate Sequential(calls: seq<Call>)
  {
    && (forall i :: 0 <= i < |calls| ==> 0.0 <= calls[i].gateTime <= calls[i].recordTime)
    && (forall i, j :: 0 <= i < j < |calls| ==> calls[i].recordTime <= calls[j].gateTime)
  }

  /** From the `threshold`-th failure on, consecutive failures are at least one cooldown apart. */
  ghost predicate Spaced(s: Settings, t: seq<real>)
  {
    && (forall i, j :: 0 <= i < j < |t| ==> t[i] <= t[j])
    && (forall k :: s.threshold <= k < |t| && k >= 1 ==> t[k] >= t[k - 1] + s.cooldown)
  }

  lemma SpacedAppend(s: Settings, t: seq<real>, now: real)
    requires Spaced(s, t) && forall i :: 0 <= i < |t| ==> t[i] <= now
    requires t != [] && |t| >= s.threshold ==> now >= t[|t| - 1] + s.cooldown
    ensures Spaced(s, t + [now])
  {
  }

  /** The counter counts the streak, and a full streak holds the gate shut for a cooldown after its last failure. */
  lemma {:induction false} StreakInvariant(s: Settings, calls: seq<Call>)
    requires s.threshold >= 1 && s.cooldown > 0.0 && Sequential(calls)
    ensures After(s, calls).failures == |Streak(s, calls)|
    ensures Spaced(s, Streak(s, calls))
    ensures Streak(s, calls) != [] && |Streak(s, calls)| >= s.threshold ==>
      After(s, calls).trippedUntil == Streak(s, calls)[|Streak(s, calls)| - 1] + s.cooldown
    ensures forall i :: 0 <= i < |Streak(s, calls)| ==> calls != [] && Streak(s, calls)[i] <= calls[|calls| - 1].recordTime
  {
    if calls != [] {
      var before, c := calls[..|calls| - 1], calls[|calls| - 1];
      assert Sequential(before);
      StreakInvariant(s, before);
      var b, t := After(s, before), Streak(s, before);
      if before != [] {
        assert calls[|before| - 1] == before[|before| - 1];
        assert before[|before| - 1].recordTime <= c.gateTime;
      }
      assert forall i :: 0 <= i < |t| ==> t[i] <= c.gateTime;
      if Fails(b, c) {
        SpacedAppend(s, t, c.recordTime);
      }
    }
  }

  /** `k` cooldowns, none if `k` is not positive. */
  function Cooldowns(k: int, c: real): real
    decreases if k < 0 then 0 else k
  {
    if k <= 0 then 0.0 else Cooldowns(k - 1, c) + c
  }

  lemma {:induction false} CooldownsScale(k: int, c: real)
    requires c > 0.0
    ensures Cooldowns(k, c) >= (k as real) * c
    decreases if k < 0 then 0 else k
  {
    if k > 0 {
      CooldownsScale(k - 1, c);
      assert (k as real) * c == ((k - 1) as real) * c + c by {
        assert (k as real) == ((k - 1) as real) + 1.0;
      }
    }
  }

  lemma {:induction false} StreakSpan(s: Settings, t: seq<real>)
    requires s.threshold >= 1 && Spaced(s, t) && t != []
    ensures t[|t| - 1] - t[0] >= Cooldowns(|t| - s.threshold, s.cooldown)
  {
    if |t| > s.threshold {
      StreakSpan(s, t[..|t| - 1]);
    }
  }

  /** `n` failures without an intervening success span at least `(n - threshold) * cooldown`. */
  lemma FailureRateBounded(s: Settings, t: seq<real>)
    requires s.threshold >= 1 && s.cooldown > 0.0 && Spaced(s, t) && t != []
    ensures t[|t| - 1] - t[0] >= ((|t| - s.threshold) as real) * s.cooldown
  {
    StreakSpan(s, t);
    CooldownsScale(|t| - s.threshold, s.cooldown);
  }

  /** The bound on every run of calls, in one statement. */
  lemma RunBounded(s: Settings, calls: seq<Call>, t: seq<real>)
    requires s.threshold >= 1 && s.cooldown > 0.0 && Sequential(calls) && t == Streak(s, calls) && t != []
    ensures t[|t| - 1] - t[0] >= ((|t| - s.threshold) as real) * s.cooldown
  {
    StreakInvariant(s, calls);
    FailureRateBounded(s, t);
  }

  /** A hard deadline trips at once: the very next recorded failure is a cooldown later, below the threshold too. */
  lemma HardDeadlineTrips(b: Breaker, s: Settings, c: Call, next: Call)
    requires Fails(b, c) && c.outcome.hardDeadline && next.gateTime <= next.recordTime
    ensures Fails(Step(b, s, c), next) ==> next.recordTime >= c.recordTime + s.cooldown
  {
  }

  // ---- exactly when the gate is open ----

  /** Times of the failures since the last success that shut the gate: hard deadlines, and those from the `threshold`-th on. */
  function Trips(s: Settings, calls: seq<Call>): seq<real>
  {
    if calls == [] then []
    else
      var before, c := calls[..|calls| - 1], calls[|calls| - 1];
      var b := After(s, before);
      if Succeeds(b, c) then []
      else if Fails(b, c) && (c.outcome.hardDeadline || |Streak(s, before)| + 1 >= s.threshold) then Trips(s, before) + [c.recordTime]
      else Trips(s, before)
  }

  lemma {:induction false} TripsInvariant(s: Settings, calls: seq<Call>)
    requires s.threshold >= 1 && s.cooldown > 0.0 && Sequential(calls)
    ensures var t := Trips(s, calls);
      && After(s, calls).trippedUntil == (if t == [] then 0.0 else t[|t| - 1] + s.cooldown)
      && (forall i :: 0 <= i < |t| ==> calls != [] && 0.0 <= t[i] <= t[|t| - 1] <= calls[|calls| - 1].recordTime)
  {
    if calls != [] {
      var before, c := calls[..|calls| - 1], calls[|calls| - 1];
      assert Sequential(before);
      TripsInvariant(s, before);
      StreakInvariant(s, before);
      if before != [] {
        assert calls[|before| - 1] == before[|before| - 1];
        assert before[|before| - 1].recordTime <= c.gateTime;
      }
    }
  }

  /** The gate is open at `now` exactly when a cooldown has passed since every failure that shuts it. */
  lemma GateOpenIff(s: Settings, calls: seq<Call>, now: real)
    requires s.threshold >= 1 && s.cooldown > 0.0 && Sequential(calls) && now >= 0.0
    ensures Allows(After(s, calls), now) <==> forall i :: 0 <= i < |Trips(s, calls)| ==> now >= Trips(s, calls)[i] + s.cooldown
  {
    TripsInvariant(s, calls);
    var t := Trips(s, calls);
    assert t != [] ==> t[|t| - 1] + s.cooldown == After(s, calls).trippedUntil;
  }

  lemma {:induction false} NoTripBelowThreshold(s: Settings, calls: seq<Call>)
    requires s.threshold >= 1 && forall i :: 0 <= i < |calls| ==> calls[i].outcome != Failed(true)
    requires |Streak(s, calls)| < s.threshold
    ensures Trips(s, calls) == []
  {
    if calls != [] {
      var before, c := calls[..|calls| - 1], calls[|calls| - 1];
      if !Succeeds(After(s, before), c) {
        assert forall i :: 0 <= i < |before| ==> before[i] == calls[i];
        NoTripBelowThreshold(s, before);
      }
    }
  }

  /** Without hard deadlines, fewer failures in a row than the threshold never shut the gate. */
  lemma OpenBelowThreshold(s: Settings, calls: seq<Call>, now: real)
    requires s.threshold >= 1 && s.cooldown > 0.0 && Sequential(calls) && now >= 0.0
    requires forall i :: 0 <= i < |calls| ==> calls[i].outcome != Failed(true)
    requires |Streak(s, calls)| < s.threshold
    ensures Allows(After(s, calls), now)
  {
    NoTripBelowThreshold(s, calls);
    GateOpenIff(s, calls, now);
  }

  /** The module globals of `capmesh/index.py` with the three functions that update them. */
  class BreakerCell {
    var failures: nat
    var trippedUntil: real

    ghost function View(): Breaker
      reads this
    {
      Breaker(failures, trippedUntil)
    }

    constructor ()
      ensures View() == CLOSED
    {
      failures, trippedUntil := 0, 0.0;
    }

    method RecordEmbedFailure(s: Settings, hardDeadline: bool, now: real)
      modifies this
      ensures View() == RecordFailure(old(View()), s, hardDeadline, now)
    {
      failures := failures + 1;
      if hardDeadline || failures >= s.threshold {
        trippedUntil := now + s.cooldown;
      }
    }

    method RecordEmbedSuccess()
      modifies this
      ensures View() == CLOSED
    {
      failures := 0;
      trippedUntil := 0.0;
    }

    /** `embed_text` past the local providers: gate, fetch, record. Returns whether a vector came back. */
    method EmbedText(s: Settings, c: Call) returns (embedded: bool)
      modifies this
      ensures View() == Step(old(View()), s, c)
      ensures embedded <==> Succeeds(old(View()), c)
    {
      if c.gateTime < trippedUntil {
        return false;
      }
      if c.outcome.HostRefused? {
        return false;
      }
      if c.outcome.Failed? {
        RecordEmbedFailure(s, c.outcome.hardDeadline, c.recordTime);
        return false;
      }
      RecordEmbedSuccess();
      return true;
    }
  }
}
