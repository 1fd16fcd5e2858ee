/**
 The tamper-evident registry log (capmesh/registry_log.py) and the mirror writer
 inside `audit_event` (capmesh/governance.py).  SHA-256 is a parameter `h`; the
 only facts used about it are in `Digest`.
 */
module RegistryLog {
  import opened Types
  import Model

  /** Injective, and its text is a non-empty string of hex digits (no `|`). */
  ghost predicate Digest(h: string -> string)
  {
    && (forall x, y :: h(x) == h(y) ==> x == y)
    && (forall x :: h(x) != "" && '|' !in h(x))
  }

  // ---- str(sequence) ----

  function DecimalNat(n: nat): string
  {
    if n < 10 then [(48 + n) as char] else DecimalNat(n / 10) + [(48 + n % 10) as char]
  }

  function Decimal(n: int): string
  {
    if n < 0 then "-" + DecimalNat(-n) else DecimalNat(n)
  }

  function ParseNat(s: string): int
  {
    if s == "" then 0 else 10 * ParseNat(s[..|s| - 1]) + (s[|s| - 1] as int - 48)
  }

  lemma {:induction false} DecimalNatReads(n: nat)
    ensures ParseNat(DecimalNat(n)) == n
    ensures DecimalNat(n) != "" && forall i :: 0 <= i < |DecimalNat(n)| ==> '0' <= DecimalNat(n)[i] <= '9'
  {
    if n < 10 {
      assert DecimalNat(n)[..0] == "";
    } else {
      DecimalNatReads(n / 10);
      var s := DecimalNat(n);
      assert s[..|s| - 1] == DecimalNat(n / 10);
    }
  }

  lemma DecimalInjective(m: int, n: int)
    requires Decimal(m) == Decimal(n)
    ensures m == n
  {
    DecimalNatReads(if m < 0 then -m else m);
    DecimalNatReads(if n < 0 then -n else n);
    assert m < 0 <==> Decimal(m)[0] == '-';
    assert n < 0 <==> Decimal(n)[0] == '-';
    if m < 0 {
      assert Decimal(m)[1..] == DecimalNat(-m) && Decimal(n)[1..] == DecimalNat(-n);
    }
  }

  lemma DecimalNoBar(n: int)
    ensures '|' !in Decimal(n)
  {
    DecimalNatReads(if n < 0 then -n else n);
  }

  // ---- the framed record ----

  /** `"|".join(parts)` of `_compute_entry_hash`. */
  function Frame(sequence: int, eventType: string, actor: string, target: string, action: string, payload: string, prev: string): string
  {
    Decimal(sequence) + "|" + (eventType + "|" + (actor + "|" + (target + "|" + (action + "|" + (payload + "|" + prev)))))
  }

  /** The record is its seven fields in order, with bars between them. */
  lemma FrameJoins(sequence: int, eventType: string, actor: string, target: string, action: string, payload: string, prev: string)
    ensures Frame(sequence, eventType, actor, target, action, payload, prev) ==
      Model.Join("|", [Decimal(sequence), eventType, actor, target, action, payload, prev])
  {
    var bar, all := "|", [Decimal(sequence), eventType, actor, target, action, payload, prev];
    assert all[6..] == [prev];
    JoinedFrom(bar, all, 5);
    JoinedFrom(bar, all, 4);
    JoinedFrom(bar, all, 3);
    JoinedFrom(bar, all, 2);
    JoinedFrom(bar, all, 1);
    JoinedFrom(bar, all, 0);
    assert all[0..] == all;
  }

  lemma JoinedFrom(sep: string, parts: seq<string>, i: nat)
    requires i + 1 < |parts|
    ensures Model.Join(sep, parts[i..]) == parts[i] + sep + Model.Join(sep, parts[i + 1..])
  {
    assert parts[i..][1..] == parts[i + 1..];
  }

  function EntryHash(h: string -> string, sequence: int, eventType: string, actor: string, target: Option<string>,
                     action: string, payload: string, prev: Option<string>): string
  {
    h(Frame(sequence, eventType, actor, Or(target, ""), action, payload, Or(prev, "")))
  }

  lemma BarPosition(a: string, x: string)
    ensures (a + "|" + x)[|a|] == '|'
    ensures '|' !in a ==> forall i :: 0 <= i < |a| ==> (a + "|" + x)[i] != '|'
    ensures '|' !in x ==> forall i :: |a| < i < |a| + 1 + |x| ==> (a + "|" + x)[i] != '|'
  {
    var s := a + "|" + x;
    assert forall i :: 0 <= i < |a| ==> s[i] == a[i];
    assert forall i :: |a| < i < |s| ==> s[i] == x[i - |a| - 1];
  }

  lemma SamePosition(a: string, x: string, b: string, y: string)
    requires |a| == |b| && a + "|" + x == b + "|" + y
    ensures a == b && x == y
  {
    assert a == (a + "|" + x)[..|a|] && b == (b + "|" + y)[..|b|];
    assert x == (a + "|" + x)[|a| + 1..] && y == (b + "|" + y)[|b| + 1..];
  }

  /** Text before the first bar is recovered when it holds no bar itself. */
  lemma FirstBar(a: string, x: string, b: string, y: string)
    requires '|' !in a && '|' !in b && a + "|" + x == b + "|" + y
    ensures a == b && x == y
  {
    BarPosition(a, x);
    BarPosition(b, y);
    SamePosition(a, x, b, y);
  }

  /** Text after the last bar likewise. */
  lemma LastBar(x: string, a: string, y: string, b: string)
    requires '|' !in a && '|' !in b && x + "|" + a == y + "|" + b
    ensures a == b && x == y
  {
    BarPosition(x, a);
    BarPosition(y, b);
    SamePosition(x, a, y, b);
  }

  ghost predicate BarFree(eventType: string, actor: string, target: string, action: string)
  {
    '|' !in eventType && '|' !in actor && '|' !in target && '|' !in action
  }

  lemma FrameSequence(s1: int, rest1: string, s2: int, rest2: string)
    requires Decimal(s1) + "|" + rest1 == Decimal(s2) + "|" + rest2
    ensures s1 == s2 && rest1 == rest2
  {
    DecimalNoBar(s1);
    DecimalNoBar(s2);
    FirstBar(Decimal(s1), rest1, Decimal(s2), rest2);
    DecimalInjective(s1, s2);
  }

  /** The framing is unambiguous: the payload may hold bars, the four named fields and the digest may not. */
  lemma FrameInjective(s1: int, e1: string, a1: string, t1: string, c1: string, p1: string, h1: string,
                       s2: int, e2: string, a2: string, t2: string, c2: string, p2: string, h2: string)
    requires BarFree(e1, a1, t1, c1) && BarFree(e2, a2, t2, c2) && '|' !in h1 && '|' !in h2
    requires Frame(s1, e1, a1, t1, c1, p1, h1) == Frame(s2, e2, a2, t2, c2, p2, h2)
    ensures s1 == s2 && e1 == e2 && a1 == a2 && t1 == t2 && c1 == c2 && p1 == p2 && h1 == h2
  {
    var payload1, payload2 := p1 + "|" + h1, p2 + "|" + h2;
    var action1, action2 := c1 + "|" + payload1, c2 + "|" + payload2;
    var target1, target2 := t1 + "|" + action1, t2 + "|" + action2;
    var actor1, actor2 := a1 + "|" + target1, a2 + "|" + target2;
    FrameSequence(s1, e1 + "|" + actor1, s2, e2 + "|" + actor2);
    FirstBar(e1, actor1, e2, actor2);
    FirstBar(a1, target1, a2, target2);
    FirstBar(t1, action1, t2, action2);
    FirstBar(c1, payload1, c2, payload2);
    LastBar(p1, h1, p2, h2);
  }

  /** Without the bar condition the framing is ambiguous, whatever the hash: two different records, one hash. */
  lemma BarsCollide(h: string -> string)
    ensures EntryHash(h, 1, "a|b", "c", None, "d", "{}", None) == EntryHash(h, 1, "a", "b|c", None, "d", "{}", None)
  {
    assert "a|b" + "|" + ("c" + "|" + ("" + "|" + ("d" + "|" + ("{}" + "|" + ""))))
        == "a" + "|" + ("b|c" + "|" + ("" + "|" + ("d" + "|" + ("{}" + "|" + ""))));
  }

  // ---- the log and its verifier ----

  datatype Entry = Entry(sequence: int, eventType: string, actor: string, targetUri: Option<string>, action: string,
                         payload: string, prevHash: Option<string>, entryHash: string)

  function HashOf(h: string -> string, e: Entry): string
  {
    EntryHash(h, e.sequence, e.eventType, e.actor, e.targetUri, e.action, e.payload, e.prevHash)
  }

  /** Row `i` points at the row before it and carries its own hash. */
  ghost predicate Linked(h: string -> string, log: seq<Entry>, i: nat)
    requires i < |log|
  {
    && Truthy(log[i].prevHash) == (if i == 0 then None else Some(log[i - 1].entryHash))
    && log[i].entryHash == HashOf(h, log[i])
  }

  ghost predicate Verifies(h: string -> string, log: seq<Entry>)
  {
    forall i :: 0 <= i < |log| ==> Linked(h, log, i)
  }

  datatype Reason = PrevHashMismatch | EntryHashMismatch

  datatype Report = Valid(entries: nat, lastHash: Option<string>)
                  | Broken(entries: nat, brokenAt: int, reason: Reason)

  /** `k` is the first row that is not linked, and `reason` says which of the two tests it fails. */
  ghost predicate FirstBreak(h: string -> string, log: seq<Entry>, k: nat, reason: Reason)
  {
    && k < |log|
    && Verifies(h, log[..k])
    && !Linked(h, log, k)
    && (reason == PrevHashMismatch <==> Truthy(log[k].prevHash) != (if k == 0 then None else Some(log[k - 1].entryHash)))
  }

  /** `verify_log_chain` over the rows in sequence order: sound, complete, and it names the first broken row. */
  method VerifyLogChain(h: string -> string, log: seq<Entry>) returns (r: Report)
    ensures r.Valid? <==> Verifies(h, log)
    ensures r.Valid? ==> r.lastHash == (if log == [] then None else Some(log[|log| - 1].entryHash))
    ensures r.Broken? ==> exists k: nat :: FirstBreak(h, log, k, r.reason) && r.brokenAt == log[k].sequence
    ensures r.entries == |log|
  {
    var prevHash: Option<string> := None;
    for i := 0 to |log|
      invariant forall j: nat :: j < i ==> Linked(h, log, j)
      invariant prevHash == (if i == 0 then None else Some(log[i - 1].entryHash))
    {
      var row := log[i];
      var actualPrev := Truthy(row.prevHash);
      if prevHash != actualPrev {
        PrefixLinked(h, log, i);
        assert FirstBreak(h, log, i, PrevHashMismatch);
        return Broken(|log|, row.sequence, PrevHashMismatch);
      }
      if row.entryHash != EntryHash(h, row.sequence, row.eventType, row.actor, Truthy(row.targetUri), row.action, row.payload, actualPrev) {
        PrefixLinked(h, log, i);
        assert FirstBreak(h, log, i, EntryHashMismatch);
        return Broken(|log|, row.sequence, EntryHashMismatch);
      }
      prevHash := Some(row.entryHash);
      assert Linked(h, log, i);
    }
    r := Valid(|log|, prevHash);
  }

  lemma PrefixLinked(h: string -> string, log: seq<Entry>, k: nat)
    requires k <= |log| && forall i: nat :: i < k ==> Linked(h, log, i)
    ensures Verifies(h, log[..k])
  {
    forall i: nat | i < k ensures Linked(h, log[..k], i) {
      assert Linked(h, log, i);
    }
  }

  // ---- a head hash determines the whole log ----

  ghost predicate BarFreeEntry(e: Entry)
  {
    BarFree(e.eventType, e.actor, Or(e.targetUri, ""), e.action)
  }

  /** Equal up to absent versus empty target and previous hash, which the record does not distinguish. */
  ghost predicate SameEntry(a: Entry, b: Entry)
  {
    a.(targetUri := Truthy(a.targetUri), prevHash := Truthy(a.prevHash)) ==
    b.(targetUri := Truthy(b.targetUri), prevHash := Truthy(b.prevHash))
  }

  lemma LinkedPrevNoBar(h: string -> string, log: seq<Entry>, i: nat)
    requires Digest(h) && Verifies(h, log) && i < |log|
    ensures '|' !in Or(log[i].prevHash, "")
    ensures Or(log[i].prevHash, "") == "" <==> i == 0
    ensures i > 0 ==> Or(log[i].prevHash, "") == log[i - 1].entryHash
  {
    assert Linked(h, log, i);
    if i > 0 {
      assert Linked(h, log, i - 1);
    }
  }

  lemma HeadsSame(h: string -> string, a: seq<Entry>, b: seq<Entry>)
    requires Digest(h) && Verifies(h, a) && Verifies(h, b) && a != [] && b != []
    requires BarFreeEntry(a[|a| - 1]) && BarFreeEntry(b[|b| - 1]) && a[|a| - 1].entryHash == b[|b| - 1].entryHash
    ensures SameEntry(a[|a| - 1], b[|b| - 1]) && (|a| == 1 <==> |b| == 1)
    ensures |a| > 1 && |b| > 1 ==> a[|a| - 2].entryHash == b[|b| - 2].entryHash
  {
    var m, n := |a| - 1, |b| - 1;
    var x, y := a[m], b[n];
    assert Linked(h, a, m) && Linked(h, b, n);
    LinkedPrevNoBar(h, a, m);
    LinkedPrevNoBar(h, b, n);
    FrameInjective(x.sequence, x.eventType, x.actor, Or(x.targetUri, ""), x.action, x.payload, Or(x.prevHash, ""),
                   y.sequence, y.eventType, y.actor, Or(y.targetUri, ""), y.action, y.payload, Or(y.prevHash, ""));
  }

  /** Backward induction: equal head hashes force equal logs. */
  lemma {:induction false} HeadDeterminesLog(h: string -> string, a: seq<Entry>, b: seq<Entry>)
    requires Digest(h) && Verifies(h, a) && Verifies(h, b)
    requires forall i :: 0 <= i < |a| ==> BarFreeEntry(a[i])
    requires forall i :: 0 <= i < |b| ==> BarFreeEntry(b[i])
    requires a != [] && b != [] && a[|a| - 1].entryHash == b[|b| - 1].entryHash
    ensures |a| == |b| && forall i :: 0 <= i < |a| ==> SameEntry(a[i], b[i])
  {
    var m, n := |a| - 1, |b| - 1;
    HeadsSame(h, a, b);
    if m > 0 {
      PrefixLinked(h, a, m);
      PrefixLinked(h, b, n);
      HeadDeterminesLog(h, a[..m], b[..n]);
      forall i | 0 <= i < |a| ensures SameEntry(a[i], b[i]) {
        if i < m {
          assert a[..m][i] == a[i] && b[..n][i] == b[i];
        }
      }
    }
  }

  // ---- the two writers ----

  datatype Write =
    | Append(eventType: string, actor: string, action: string, targetUri: Option<string>, payload: string)
    | Audit(eventType: string, actor: string, target: Option<string>, auditAction: Option<string>, payload: string)

  /** The guard of the mirror in `audit_event`. */
  predicate Mirrored(eventType: string, action: Option<string>)
  {
    "capability." <= eventType && Truthy(action).Some? && action.value !in ["read", "list", "status"]
  }

  /** `SELECT ... ORDER BY sequence DESC LIMIT 1` */
  function Newest(rows: seq<Entry>): (r: Option<Entry>)
    ensures r.None? <==> rows == []
    ensures r.Some? ==> r.value in rows && forall e :: e in rows ==> e.sequence <= r.value.sequence
  {
    if rows == [] then None
    else
      var rest := Newest(rows[..|rows| - 1]);
      var last := rows[|rows| - 1];
      assert rows == rows[..|rows| - 1] + [last];
      if rest.Some? && rest.value.sequence > last.sequence then rest else Some(last)
  }

  function NextEntry(h: string -> string, rows: seq<Entry>, eventType: string, actor: string, target: Option<string>,
                     action: string, payload: string): Entry
  {
    var newest := Newest(rows);
    var sequence := if newest.None? then 1 else newest.value.sequence + 1;
    var prev := if newest.None? then None else Some(newest.value.entryHash);
    Entry(sequence, eventType, actor, target, action, payload, prev,
          EntryHash(h, sequence, eventType, actor, target, action, payload, prev))
  }

  /** The UNIQUE constraints on `sequence` and `entry_hash`. */
  predicate Clashes(rows: seq<Entry>, e: Entry)
  {
    exists r :: r in rows && (r.sequence == e.sequence || r.entryHash == e.entryHash)
  }

  /** One write: what the statement inserts, or nothing when the guard or a UNIQUE constraint stops it. */
  function Apply(h: string -> string, rows: seq<Entry>, w: Write): seq<Entry>
  {
    match w
    case Append(eventType, actor, action, target, payload) =>
      var e := NextEntry(h, rows, eventType, actor, target, action, payload);
      if Clashes(rows, e) then rows else rows + [e]
    case Audit(eventType, actor, target, action, payload) =>
      if !Mirrored(eventType, action) then rows
      else
        var e := NextEntry(h, rows, eventType, actor, target, action.value, payload);
        if Clashes(rows, e) then rows else rows + [e]
  }

  function Run(h: string -> string, ws: seq<Write>): seq<Entry>
  {
    if ws == [] then [] else Apply(h, Run(h, ws[..|ws| - 1]), ws[|ws| - 1])
  }

  /** Number of writes that reach the log. */
  function Recorded(ws: seq<Write>): nat
  {
    if ws == [] then 0
    else
      var w := ws[|ws| - 1];
      Recorded(ws[..|ws| - 1]) + (if w.Audit? && !Mirrored(w.eventType, w.auditAction) then 0 else 1)
  }

  ghost predicate Healthy(h: string -> string, rows: seq<Entry>)
  {
    && Verifies(h, rows)
    && forall i :: 0 <= i < |rows| ==> rows[i].sequence == i + 1
  }

  /** The next entry never violates UNIQUE and keeps the chain, whatever the field values are. */
  lemma AppendHealthy(h: string -> string, rows: seq<Entry>, eventType: string, actor: string, target: Option<string>,
                      action: string, payload: string)
    requires Digest(h) && Healthy(h, rows)
    ensures var e := NextEntry(h, rows, eventType, actor, target, action, payload);
      !Clashes(rows, e) && Healthy(h, rows + [e])
  {
    var e := NextEntry(h, rows, eventType, actor, target, action, payload);
    var longer := rows + [e];
    NewestIsLast(rows);
    forall r | r in rows ensures r.sequence != e.sequence && r.entryHash != e.entryHash {
      var i :| 0 <= i < |rows| && rows[i] == r;
      assert Linked(h, rows, i);
      FramesDiffer(r, e);
    }
    forall i: nat | i < |longer| ensures Linked(h, longer, i) {
      if i < |rows| {
        assert Linked(h, rows, i);
      } else if i > 0 {
        assert Linked(h, rows, i - 1);
      }
    }
  }

  lemma FramesDiffer(r: Entry, e: Entry)
    requires r.sequence != e.sequence
    ensures Frame(r.sequence, r.eventType, r.actor, Or(r.targetUri, ""), r.action, r.payload, Or(r.prevHash, ""))
         != Frame(e.sequence, e.eventType, e.actor, Or(e.targetUri, ""), e.action, e.payload, Or(e.prevHash, ""))
  {
    var s := r.eventType + "|" + (r.actor + "|" + (Or(r.targetUri, "") + "|" + (r.action + "|" + (r.payload + "|" + Or(r.prevHash, "")))));
    var t := e.eventType + "|" + (e.actor + "|" + (Or(e.targetUri, "") + "|" + (e.action + "|" + (e.payload + "|" + Or(e.prevHash, "")))));
    if Decimal(r.sequence) + "|" + s == Decimal(e.sequence) + "|" + t {
      FrameSequence(r.sequence, s, e.sequence, t);
    }
  }

  lemma NewestIsLast(rows: seq<Entry>)
    requires forall i :: 0 <= i < |rows| ==> rows[i].sequence == i + 1
    ensures rows != [] ==> Newest(rows) == Some(rows[|rows| - 1])
  {
    if rows != [] {
      var k :| 0 <= k < |rows| && rows[k] == Newest(rows).value;
      assert rows[|rows| - 1] in rows;
    }
  }

  /** Any interleaving of the two writers leaves a log that verifies, numbered 1..n, with one row per recorded write. */
  lemma {:induction false} RunHealthy(h: string -> string, ws: seq<Write>)
    requires Digest(h)
    ensures Healthy(h, Run(h, ws)) && |Run(h, ws)| == Recorded(ws)
  {
    if ws != [] {
      var before, w := ws[..|ws| - 1], ws[|ws| - 1];
      RunHealthy(h, before);
      var rows := Run(h, before);
      match w
      case Append(eventType, actor, action, target, payload) =>
        AppendHealthy(h, rows, eventType, actor, target, action, payload);
      case Audit(eventType, actor, target, action, payload) =>
        if Mirrored(eventType, action) {
          AppendHealthy(h, rows, eventType, actor, target, action.value, payload);
        }
    }
  }

  // ---- what the log records ----

  /** An append always reaches the log; an audit event does when it is about a capability and is an action other than looking. */
  ghost predicate Reaches(w: Write)
  {
    match w
    case Append(_, _, _, _, _) => true
    case Audit(eventType, _, _, action, _) =>
      (exists rest :: eventType == "capability." + rest) && exists a :: action == Some(a) && a !in {"", "read", "list", "status"}
  }

  ghost function Reaching(ws: seq<Write>): seq<Write>
  {
    if ws == [] then [] else Reaching(ws[..|ws| - 1]) + (if Reaches(ws[|ws| - 1]) then [ws[|ws| - 1]] else [])
  }

  /** The entry is number `n` and says who did what to which target, as it was given. */
  ghost predicate Records(e: Entry, n: nat, w: Write)
  {
    && e.sequence == n
    && match w
       case Append(eventType, actor, action, target, payload) =>
         e.eventType == eventType && e.actor == actor && e.action == action && e.targetUri == target && e.payload == payload
       case Audit(eventType, actor, target, action, payload) =>
         e.eventType == eventType && e.actor == actor && Some(e.action) == action && e.targetUri == target && e.payload == payload
  }

  lemma MirroredIff(eventType: string, action: Option<string>)
    ensures Mirrored(eventType, action) <==>
      (exists rest :: eventType == "capability." + rest) && exists a :: action == Some(a) && a !in {"", "read", "list", "status"}
  {
    var topic := "capability.";
    if topic <= eventType {
      assert eventType == topic + eventType[|topic|..];
    }
  }

  lemma ApplyRecords(h: string -> string, rows: seq<Entry>, w: Write)
    requires Digest(h) && Healthy(h, rows)
    ensures var after := Apply(h, rows, w);
      if Reaches(w) then |after| == |rows| + 1 && rows == after[..|rows|] && Records(after[|rows|], |rows| + 1, w) else after == rows
  {
    NewestIsLast(rows);
    match w
    case Append(eventType, actor, action, target, payload) =>
      AppendHealthy(h, rows, eventType, actor, target, action, payload);
    case Audit(eventType, actor, target, action, payload) =>
      MirroredIff(eventType, action);
      if Mirrored(eventType, action) {
        AppendHealthy(h, rows, eventType, actor, target, action.value, payload);
      }
  }

  /** After any run the log holds exactly the writes that reach it, in order, each as it was given. */
  lemma {:induction false} LogRecordsRun(h: string -> string, ws: seq<Write>)
    requires Digest(h)
    ensures |Run(h, ws)| == |Reaching(ws)|
    ensures forall i :: 0 <= i < |Run(h, ws)| ==> Records(Run(h, ws)[i], i + 1, Reaching(ws)[i])
  {
    if ws != [] {
      var before, w := ws[..|ws| - 1], ws[|ws| - 1];
      LogRecordsRun(h, before);
      RunHealthy(h, before);
      ApplyRecords(h, Run(h, before), w);
      var log := Run(h, ws);
      forall i | 0 <= i < |log| ensures Records(log[i], i + 1, Reaching(ws)[i]) {
        if i < |Run(h, before)| {
          assert log[i] == Run(h, before)[i];
        }
      }
    }
  }

  /** The `registry_log` table with the two writers. */
  class LogTable {
    const h: string -> string
    var rows: seq<Entry>

    ghost predicate Valid()
      reads this
    {
      Digest(h) && Healthy(h, rows)
    }

    constructor (h: string -> string)
      requires Digest(h)
      ensures Valid() && this.h == h && rows == []
    {
      this.h, rows := h, [];
    }

    method AppendLogEntry(eventType: string, actor: string, action: string, targetUri: Option<string>, payload: string)
      returns (entry: Entry)
      requires Valid()
      modifies this
      ensures Valid() && rows == old(rows) + [entry]
      ensures rows == Apply(h, old(rows), Append(eventType, actor, action, targetUri, payload))
      ensures Records(entry, |rows|, Append(eventType, actor, action, targetUri, payload))
    {
      AppendHealthy(h, rows, eventType, actor, targetUri, action, payload);
      NewestIsLast(rows);
      var last := Newest(rows);
      var sequence, prevHash := 1, None;
      if last.Some? {
        sequence, prevHash := last.value.sequence + 1, Some(last.value.entryHash);
      }
      var entryHash := EntryHash(h, sequence, eventType, actor, targetUri, action, payload, prevHash);
      entry := Entry(sequence, eventType, actor, targetUri, action, payload, prevHash, entryHash);
      rows := rows + [entry];
    }

    /** The mirror in `audit_event`; events outside the guard leave the log alone. */
    method AuditEvent(eventType: string, actor: string, target: Option<string>, action: Option<string>, payload: string)
      requires Valid()
      modifies this
      ensures Valid()
      ensures rows == Apply(h, old(rows), Audit(eventType, actor, target, action, payload))
      ensures var w := Audit(eventType, actor, target, action, payload);
        if Reaches(w) then |rows| == |old(rows)| + 1 && old(rows) <= rows && Records(rows[|old(rows)|], |rows|, w) else rows == old(rows)
    {
      MirroredIff(eventType, action);
      if Mirrored(eventType, action) {
        var entry := AppendLogEntry(eventType, actor, action.value, target, payload);
      }
    }
  }
}
