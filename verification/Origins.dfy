/**
 What an ingest does to the rows, told from the tables before it: which row each
 capability of the batch refreshes, where it is stored, and which rows have been
 moved away by then.  Nothing is assumed of the rows or of the governance fields
 the batch brings.
 */
module Origins {
  import opened Types
  import opened Model
  import opened Catalog
  import opened Ingest

  predicate RejectedAs(c: Capability, hash: string)
  {
    c.hash == hash && c.gov.approvalState == "rejected"
  }

  /** The row stored for `e` when it refreshes row `from`. */
  ghost predicate StoredFrom(c: Capability, e: Capability, rows: map<string, Row>, from: Option<string>)
    requires from.Some? ==> from.value in rows
  {
    && c.key == e.key && c.hash == e.hash && c.tenant == e.tenant && c.sourceKind == e.sourceKind
    && (e.gov.approvalState != "rejected" ==>
          (c.gov.approvalState == "rejected" <==> from.Some? && RejectedAs(rows[from.value].cap, e.hash)))
  }

  /** A capability nothing stood for is stored with the governance it brings, unless it is held. */
  ghost predicate StoredAsGiven(c: Capability, e: Capability, from: Option<string>, holds: set<HoldKey>)
  {
    from.None? && HoldKeyOf(e) !in holds ==> c.gov == e.gov
  }

  /** One turn on the rows: `e` is stored where it lands, a row it moved leaves its old address, nothing else changes. */
  ghost predicate RowTurn(t: Tables, e: Capability, t': Tables, holds: set<HoldKey>)
  {
    && Keyed(t.rows, t.nextId)
    && Landing(t, e) in t'.rows
    && StoredFrom(t'.rows[Landing(t, e)].cap, e, t.rows, Previous(t, e))
    && StoredAsGiven(t'.rows[Landing(t, e)].cap, e, Previous(t, e), holds)
    && (forall u :: u != Landing(t, e) ==> (u in t'.rows <==> u in t.rows && MigratedFrom(t, e) != Some(u)))
    && (forall u :: u != Landing(t, e) && u in t'.rows ==> t'.rows[u] == t.rows[u])
  }

  lemma StoredApproval(t: Tables, c: Capability)
    requires Keyed(t.rows, t.nextId) && c.gov.approvalState != "rejected"
    ensures StoredRow(t, c).cap.gov.approvalState == "rejected" <==> c.uri in t.rows && RejectedAs(t.rows[c.uri].cap, c.hash)
  {
  }

  /** What stands at the landing once a refreshed row has moved there. */
  lemma MovedRow(t: Tables, e: Capability)
    requires Keyed(t.rows, t.nextId) && Moved(t, e).Ok?
    ensures Landing(t, e) in Moved(t, e).value.rows <==> Previous(t, e).Some?
    ensures Previous(t, e).Some? ==> Moved(t, e).value.rows[Landing(t, e)].cap == t.rows[Previous(t, e).value].cap.(uri := Landing(t, e))
  {
  }

  lemma LandStored(t: Tables, e: Capability, holds: set<HoldKey>)
    requires Keyed(t.rows, t.nextId) && Land(t, e, holds).Ok?
    ensures Landing(t, e) in Land(t, e, holds).value.rows
    ensures StoredFrom(Land(t, e, holds).value.rows[Landing(t, e)].cap, e, t.rows, Previous(t, e))
  {
    var t1, c := Moved(t, e).value, Held(Prepared(t, e), holds);
    MovedKeyed(t, e);
    MovedRow(t, e);
    if e.gov.approvalState != "rejected" {
      StoredApproval(t1, c);
    }
  }

  lemma LandStoredAsGiven(t: Tables, e: Capability, holds: set<HoldKey>)
    requires Keyed(t.rows, t.nextId) && Land(t, e, holds).Ok? && Previous(t, e).None? && HoldKeyOf(e) !in holds
    ensures e.uri in Land(t, e, holds).value.rows && Land(t, e, holds).value.rows[e.uri].cap.gov == e.gov
  {
  }

  lemma LandRowTurn(t: Tables, e: Capability, holds: set<HoldKey>)
    requires Keyed(t.rows, t.nextId) && Land(t, e, holds).Ok?
    ensures RowTurn(t, e, Land(t, e, holds).value, holds)
  {
    var t' := Land(t, e, holds).value;
    LandStored(t, e, holds);
    if Previous(t, e).None? && HoldKeyOf(e) !in holds {
      LandStoredAsGiven(t, e, holds);
    }
    forall u | u != Landing(t, e)
      ensures u in t'.rows <==> u in t.rows && MigratedFrom(t, e) != Some(u)
      ensures u in t'.rows ==> t'.rows[u] == t.rows[u]
    {
      LandRows(t, e, holds, u);
    }
  }

  ghost predicate LandsAt(t: Tables, e: Capability, l: string)
  {
    Keyed(t.rows, t.nextId) && Landing(t, e) == l
  }

  /** The states a batch runs through, and where each capability lands. */
  ghost predicate RowTrace(ts: seq<Tables>, caps: seq<Capability>, ls: seq<string>, holds: set<HoldKey>)
  {
    && |ts| == |caps| + 1 && |ls| == |caps|
    && forall i :: 0 <= i < |caps| ==> RowTurn(ts[i], caps[i], ts[i + 1], holds) && LandsAt(ts[i], caps[i], ls[i])
  }

  lemma {:induction false} RowTraceOf(t: Tables, caps: seq<Capability>, holds: set<HoldKey>) returns (ts: seq<Tables>)
    requires Keyed(t.rows, t.nextId) && LandAll(t, caps, holds).Ok?
    ensures RowTrace(ts, caps, Landings(t, caps, holds), holds) && ts[0] == t && ts[|caps|] == LandAll(t, caps, holds).value
    decreases |caps|
  {
    if caps == [] {
      ts := [t];
    } else {
      var t1, l := FirstRowTurn(t, caps, holds);
      var rest := RowTraceOf(t1, caps[1..], holds);
      ts := PrecededBy(t, caps, l, rest, Landings(t1, caps[1..], holds), holds);
      assert ts[|caps|] == rest[|caps| - 1];
    }
  }

  lemma FirstRowTurn(t: Tables, caps: seq<Capability>, holds: set<HoldKey>) returns (t1: Tables, l: string)
    requires Keyed(t.rows, t.nextId) && LandAll(t, caps, holds).Ok? && caps != []
    ensures RowTurn(t, caps[0], t1, holds) && LandsAt(t, caps[0], l) && Keyed(t1.rows, t1.nextId)
    ensures LandAll(t1, caps[1..], holds) == LandAll(t, caps, holds)
    ensures Landings(t, caps, holds) == [l] + Landings(t1, caps[1..], holds)
  {
    t1, l := Land(t, caps[0], holds).value, Landing(t, caps[0]);
    LandKeyed(t, caps[0], holds);
    LandRowTurn(t, caps[0], holds);
  }

  lemma PrecededBy(t: Tables, caps: seq<Capability>, l: string, rest: seq<Tables>, ls: seq<string>, holds: set<HoldKey>) returns (ts: seq<Tables>)
    requires caps != [] && RowTrace(rest, caps[1..], ls, holds) && RowTurn(t, caps[0], rest[0], holds) && LandsAt(t, caps[0], l)
    ensures ts == [t] + rest && RowTrace(ts, caps, [l] + ls, holds)
  {
    ts := [t] + rest;
    forall i | 0 <= i < |caps| ensures RowTurn(ts[i], caps[i], ts[i + 1], holds) && LandsAt(ts[i], caps[i], ([l] + ls)[i]) {
      if i > 0 {
        assert RowTurn(rest[i - 1], caps[1..][i - 1], rest[i], holds) && LandsAt(rest[i - 1], caps[1..][i - 1], ls[i - 1]);
      }
    }
  }

  // ---- told from the original rows ----

  /** Before turn `i`, row `u` has been moved to the URI of an earlier capability with its key; an approved promotion never moves. */
  predicate Gone(rows: map<string, Row>, caps: seq<Capability>, i: nat, u: string)
    requires i <= |caps| && u in rows
    decreases i, 0
  {
    !Pinned(rows[u].cap) && exists k :: 0 <= k < i && caps[k].key == rows[u].cap.key && !Occupied(rows, caps, k)
  }

  /** At turn `i` the URI of the capability holds a row. */
  predicate Occupied(rows: map<string, Row>, caps: seq<Capability>, i: nat)
    requires i < |caps|
    decreases i, 1
  {
    caps[i].uri in rows && !Gone(rows, caps, i, caps[i].uri)
  }

  ghost predicate NamedBefore(caps: seq<Capability>, i: nat, u: string)
    requires i <= |caps|
  {
    exists k :: 0 <= k < i && caps[k].uri == u
  }

  ghost predicate Distinct(caps: seq<Capability>)
  {
    forall i, j :: 0 <= i < j < |caps| ==> caps[i].key != caps[j].key && caps[i].uri != caps[j].uri
  }

  ghost predicate KeptFor(rows: map<string, Row>, caps: seq<Capability>, i: nat, v: string)
    requires i < |caps|
  {
    Owns(rows, v, caps[i].key) && !NamedBefore(caps, i, v)
  }

  /** The original row capability `i` refreshes: the one at its URI, else the one with its key. */
  ghost function Origin(rows: map<string, Row>, caps: seq<Capability>, i: nat): (r: Option<string>)
    requires i < |caps|
    ensures r.Some? ==> r.value in rows && (r.value == caps[i].uri || KeptFor(rows, caps, i, r.value))
    ensures r.Some? && r.value != caps[i].uri ==> !Occupied(rows, caps, i)
  {
    if Occupied(rows, caps, i) then Some(caps[i].uri)
    else if exists v :: KeptFor(rows, caps, i, v) then
      var v :| KeptFor(rows, caps, i, v);
      Some(v)
    else None
  }

  /** Where capability `i` is stored: at its URI, or at the approved promotion it refreshes. */
  ghost function Address(rows: map<string, Row>, caps: seq<Capability>, i: nat): string
    requires i < |caps|
  {
    var origin := Origin(rows, caps, i);
    if origin.Some? && Pinned(rows[origin.value].cap) then origin.value else caps[i].uri
  }

  ghost predicate TakenBefore(rows: map<string, Row>, caps: seq<Capability>, i: nat, u: string)
    requires i <= |caps|
  {
    exists k :: 0 <= k < i && Address(rows, caps, k) == u
  }

  lemma GoneNext(rows: map<string, Row>, caps: seq<Capability>, i: nat, u: string)
    requires i < |caps| && u in rows
    ensures Gone(rows, caps, i + 1, u) <==>
      Gone(rows, caps, i, u) || (!Pinned(rows[u].cap) && caps[i].key == rows[u].cap.key && !Occupied(rows, caps, i))
  {
    if k :| 0 <= k < i && caps[k].key == rows[u].cap.key && !Occupied(rows, caps, k) {
      assert 0 <= k < i + 1;
    }
  }

  lemma GoneStays(rows: map<string, Row>, caps: seq<Capability>, k: nat, i: nat, u: string)
    requires k <= i <= |caps| && u in rows && Gone(rows, caps, k, u)
    ensures Gone(rows, caps, i, u)
  {
    var m :| 0 <= m < k && caps[m].key == rows[u].cap.key && !Occupied(rows, caps, m);
    assert 0 <= m < i;
  }

  /** Row `u` is at turn `i` what it was originally, gone or in place. */
  ghost predicate AsBefore(rows0: map<string, Row>, caps: seq<Capability>, i: nat, rows: map<string, Row>, u: string)
    requires i <= |caps|
  {
    (u in rows <==> u in rows0 && !Gone(rows0, caps, i, u)) && (u in rows ==> rows[u] == rows0[u])
  }

  /** Address `u` holds a row with the key of one of the first `i` capabilities. */
  ghost predicate HeldByBatch(caps: seq<Capability>, i: nat, rows: map<string, Row>, u: string)
    requires i <= |caps|
  {
    u in rows && exists m :: 0 <= m < i && rows[u].cap.key == caps[m].key
  }

  /** What is known of address `u` before turn `i`. */
  ghost predicate Known(rows0: map<string, Row>, caps: seq<Capability>, i: nat, rows: map<string, Row>, u: string)
    requires i <= |caps|
  {
    if TakenBefore(rows0, caps, i, u) then HeldByBatch(caps, i, rows, u) else AsBefore(rows0, caps, i, rows, u)
  }

  // ---- one turn, from what is known before it ----

  lemma OccupiedKnown(rows0: map<string, Row>, caps: seq<Capability>, i: nat, rows: map<string, Row>)
    requires i < |caps| && Distinct(caps) && Known(rows0, caps, i, rows, caps[i].uri)
    ensures caps[i].uri in rows <==> Occupied(rows0, caps, i)
  {
    if k :| 0 <= k < i && Address(rows0, caps, k) == caps[i].uri {
      assert caps[k].uri != caps[i].uri;
      assert Pinned(rows0[caps[i].uri].cap);
    }
  }

  lemma OwnerKnown(rows0: map<string, Row>, caps: seq<Capability>, i: nat, rows: map<string, Row>, v: string)
    requires i < |caps| && Distinct(caps) && Known(rows0, caps, i, rows, v)
    ensures Owns(rows, v, caps[i].key) <==> KeptFor(rows0, caps, i, v)
    ensures Owns(rows, v, caps[i].key) ==> v in rows0 && rows[v] == rows0[v]
  {
    if k :| 0 <= k < i && Address(rows0, caps, k) == v {
      TakenNotKept(rows0, caps, i, k);
    } else if v in rows0 && NamedBefore(caps, i, v) {
      var k :| 0 <= k < i && caps[k].uri == v;
      NamedUntakenGone(rows0, caps, k, v);
      GoneStays(rows0, caps, k, i, v);
    }
  }

  lemma TakenNotKept(rows0: map<string, Row>, caps: seq<Capability>, i: nat, k: nat)
    requires k < i < |caps| && Distinct(caps)
    ensures !KeptFor(rows0, caps, i, Address(rows0, caps, k))
  {
    var v := Address(rows0, caps, k);
    if v != caps[k].uri {
      assert Owns(rows0, v, caps[k].key);
    }
  }

  /** A row at a named address that the naming capability did not take has been moved away before. */
  lemma NamedUntakenGone(rows0: map<string, Row>, caps: seq<Capability>, k: nat, v: string)
    requires k < |caps| && v in rows0 && caps[k].uri == v && Address(rows0, caps, k) != v
    ensures Gone(rows0, caps, k, v)
  {
    assert Origin(rows0, caps, k) != Some(v);
  }

  /** Turn `i` finds its URI occupied, its row to refresh and its landing as computed from the original rows. */
  ghost predicate AsComputed(rows0: map<string, Row>, caps: seq<Capability>, i: nat, t: Tables)
    requires i < |caps|
  {
    && Keyed(t.rows, t.nextId)
    && (caps[i].uri in t.rows <==> Occupied(rows0, caps, i))
    && Previous(t, caps[i]) == Origin(rows0, caps, i)
    && Landing(t, caps[i]) == Address(rows0, caps, i)
  }

  /** The row refreshed and the landing in mid-batch are those computed from the original rows. */
  lemma TurnKnown(rows0: map<string, Row>, caps: seq<Capability>, i: nat, t: Tables, n: nat)
    requires Keyed(rows0, n) && Keyed(t.rows, t.nextId) && i < |caps| && Distinct(caps)
    requires forall u :: Known(rows0, caps, i, t.rows, u)
    ensures AsComputed(rows0, caps, i, t)
    ensures !Occupied(rows0, caps, i) && Previous(t, caps[i]).Some? ==>
      t.rows[Previous(t, caps[i]).value] == rows0[Previous(t, caps[i]).value]
  {
    OccupiedKnown(rows0, caps, i, t.rows);
    forall v
      ensures Owns(t.rows, v, caps[i].key) <==> KeptFor(rows0, caps, i, v)
      ensures Owns(t.rows, v, caps[i].key) ==> v in rows0 && t.rows[v] == rows0[v]
    {
      OwnerKnown(rows0, caps, i, t.rows, v);
    }
  }

  lemma KnownNext(rows0: map<string, Row>, caps: seq<Capability>, i: nat, t: Tables, t': Tables, holds: set<HoldKey>, u: string)
    requires i < |caps| && Distinct(caps) && RowTurn(t, caps[i], t', holds) && Known(rows0, caps, i, t.rows, u)
    requires AsComputed(rows0, caps, i, t)
    ensures Known(rows0, caps, i + 1, t'.rows, u)
  {
    if u == Address(rows0, caps, i) {
      assert t'.rows[u].cap.key == caps[i].key;
    } else if TakenBefore(rows0, caps, i, u) {
      TakenStays(rows0, caps, i, t, t', holds, u);
    } else {
      UntakenNext(rows0, caps, i, t, t', holds, u);
    }
  }

  lemma TakenStays(rows0: map<string, Row>, caps: seq<Capability>, i: nat, t: Tables, t': Tables, holds: set<HoldKey>, u: string)
    requires i < |caps| && Distinct(caps) && RowTurn(t, caps[i], t', holds) && HeldByBatch(caps, i, t.rows, u)
    requires u != Landing(t, caps[i]) && TakenBefore(rows0, caps, i, u)
    ensures Known(rows0, caps, i + 1, t'.rows, u)
  {
    var m :| 0 <= m < i && t.rows[u].cap.key == caps[m].key;
    assert caps[m].key != caps[i].key;
    assert !Owns(t.rows, u, caps[i].key);
    assert t'.rows[u].cap.key == caps[m].key;
    var k :| 0 <= k < i && Address(rows0, caps, k) == u;
    assert 0 <= k < i + 1;
  }

  lemma UntakenNext(rows0: map<string, Row>, caps: seq<Capability>, i: nat, t: Tables, t': Tables, holds: set<HoldKey>, u: string)
    requires i < |caps| && RowTurn(t, caps[i], t', holds) && AsBefore(rows0, caps, i, t.rows, u)
    requires !TakenBefore(rows0, caps, i, u) && u != Address(rows0, caps, i)
    requires AsComputed(rows0, caps, i, t)
    ensures Known(rows0, caps, i + 1, t'.rows, u)
  {
    assert !TakenBefore(rows0, caps, i + 1, u);
    if u in t.rows {
      GoneNext(rows0, caps, i, u);
      MovesIff(rows0, caps, i, t, u);
    } else if u in rows0 {
      GoneStays(rows0, caps, i, i + 1, u);
    }
  }

  /** An original row not landed on moves exactly when it has the key, is no approved promotion, and the URI is free. */
  lemma MovesIff(rows0: map<string, Row>, caps: seq<Capability>, i: nat, t: Tables, u: string)
    requires i < |caps| && Keyed(t.rows, t.nextId) && u in t.rows && u in rows0 && t.rows[u] == rows0[u] && u != Address(rows0, caps, i)
    requires AsComputed(rows0, caps, i, t)
    ensures MigratedFrom(t, caps[i]) == Some(u) <==> !Pinned(rows0[u].cap) && caps[i].key == rows0[u].cap.key && !Occupied(rows0, caps, i)
  {
    assert Owns(t.rows, u, caps[i].key) <==> t.rows[u].cap.key == caps[i].key;
  }

  // ---- over the whole batch ----

  ghost predicate AllKnown(ts: seq<Tables>, caps: seq<Capability>, i: nat)
    requires i <= |caps| && |ts| == |caps| + 1
  {
    forall u :: Known(ts[0].rows, caps, i, ts[i].rows, u)
  }

  lemma {:induction false} BatchKnown(ts: seq<Tables>, caps: seq<Capability>, ls: seq<string>, holds: set<HoldKey>, i: nat)
    requires RowTrace(ts, caps, ls, holds) && Distinct(caps) && i <= |caps| && (caps == [] ==> Keyed(ts[0].rows, ts[0].nextId))
    ensures AllKnown(ts, caps, i)
    decreases i
  {
    if i == 0 {
      forall u ensures Known(ts[0].rows, caps, 0, ts[0].rows, u) {}
    } else {
      var j := i - 1;
      BatchKnown(ts, caps, ls, holds, j);
      assert RowTurn(ts[0], caps[0], ts[1], holds) && RowTurn(ts[j], caps[j], ts[i], holds);
      TurnKnown(ts[0].rows, caps, j, ts[j], ts[0].nextId);
      forall u ensures Known(ts[0].rows, caps, i, ts[i].rows, u) {
        KnownNext(ts[0].rows, caps, j, ts[j], ts[i], holds, u);
      }
    }
  }

  /** In mid-batch, the row refreshed and the landing are the ones computed from the tables before the batch. */
  lemma OriginIsPrevious(ts: seq<Tables>, caps: seq<Capability>, ls: seq<string>, holds: set<HoldKey>, i: nat)
    requires RowTrace(ts, caps, ls, holds) && Distinct(caps) && i < |caps|
    ensures AsComputed(ts[0].rows, caps, i, ts[i]) && ls[i] == Address(ts[0].rows, caps, i)
    ensures !Occupied(ts[0].rows, caps, i) && Previous(ts[i], caps[i]).Some? ==>
      ts[i].rows[Previous(ts[i], caps[i]).value] == ts[0].rows[Previous(ts[i], caps[i]).value]
  {
    BatchKnown(ts, caps, ls, holds, i);
    assert RowTurn(ts[0], caps[0], ts[1], holds) && RowTurn(ts[i], caps[i], ts[i + 1], holds);
    TurnKnown(ts[0].rows, caps, i, ts[i], ts[0].nextId);
  }

  /** An address at which nothing of the batch is stored holds its original row, unless the row was moved away. */
  lemma UntakenAsBefore(ts: seq<Tables>, caps: seq<Capability>, ls: seq<string>, holds: set<HoldKey>, u: string)
    requires RowTrace(ts, caps, ls, holds) && Distinct(caps) && !TakenBefore(ts[0].rows, caps, |caps|, u)
    requires caps == [] ==> Keyed(ts[0].rows, ts[0].nextId)
    ensures AsBefore(ts[0].rows, caps, |caps|, ts[|caps|].rows, u)
  {
    BatchKnown(ts, caps, ls, holds, |caps|);
    assert Known(ts[0].rows, caps, |caps|, ts[|caps|].rows, u);
  }

  // ---- what is stored in the end ----

  ghost predicate NoneRejected(caps: seq<Capability>)
  {
    forall i :: 0 <= i < |caps| ==> caps[i].gov.approvalState != "rejected"
  }

  /** An approved promotion stays at its address and is not rejected by a batch. */
  lemma {:induction false} PromotionStays(ts: seq<Tables>, caps: seq<Capability>, ls: seq<string>, holds: set<HoldKey>, i: nat, u: string)
    requires RowTrace(ts, caps, ls, holds) && Distinct(caps) && NoneRejected(caps) && i <= |caps|
    requires u in ts[0].rows && Pinned(ts[0].rows[u].cap)
    ensures u in ts[i].rows && ts[i].rows[u].cap.gov.approvalState != "rejected"
    decreases i
  {
    if i > 0 {
      PromotionStays(ts, caps, ls, holds, i - 1, u);
      BatchKnown(ts, caps, ls, holds, i);
      assert Known(ts[0].rows, caps, i, ts[i].rows, u);
      PromotionTurn(ts[i - 1], caps[i - 1], ts[i], holds, u);
    }
  }

  lemma PromotionTurn(t: Tables, e: Capability, t': Tables, holds: set<HoldKey>, u: string)
    requires RowTurn(t, e, t', holds) && u in t.rows && u in t'.rows && e.gov.approvalState != "rejected"
    requires t.rows[u].cap.gov.approvalState != "rejected"
    ensures t'.rows[u].cap.gov.approvalState != "rejected"
  {
    if u == Landing(t, e) {
      assert Previous(t, e) == Some(u);
    }
  }

  /** Nothing after capability `j` lands on its row. */
  ghost predicate LastAt(ls: seq<string>, j: nat)
    requires j < |ls|
  {
    forall k :: j < k < |ls| ==> ls[k] != ls[j]
  }

  /** The row stored by the last capability to land on it stays untouched for the rest of the batch. */
  lemma {:induction false} StoredStays(ts: seq<Tables>, caps: seq<Capability>, ls: seq<string>, holds: set<HoldKey>, j: nat, m: nat)
    requires RowTrace(ts, caps, ls, holds) && Distinct(caps) && j < m <= |caps| && LastAt(ls, j)
    ensures ls[j] in ts[m].rows && ts[m].rows[ls[j]] == ts[j + 1].rows[ls[j]] && ts[m].rows[ls[j]].cap.key == caps[j].key
    decreases m
  {
    assert RowTurn(ts[j], caps[j], ts[j + 1], holds) && LandsAt(ts[j], caps[j], ls[j]);
    if m > j + 1 {
      StoredStays(ts, caps, ls, holds, j, m - 1);
      assert RowTurn(ts[m - 1], caps[m - 1], ts[m], holds) && LandsAt(ts[m - 1], caps[m - 1], ls[m - 1]);
      OtherKeyStays(ts[m - 1], caps[m - 1], ts[m], holds, ls[j]);
    }
  }

  /** A turn of another key that lands elsewhere leaves a row alone. */
  lemma OtherKeyStays(t: Tables, e: Capability, t': Tables, holds: set<HoldKey>, u: string)
    requires RowTurn(t, e, t', holds) && u in t.rows && u != Landing(t, e) && t.rows[u].cap.key != e.key
    ensures u in t'.rows && t'.rows[u] == t.rows[u]
  {
    assert !Owns(t.rows, u, e.key);
  }

  /** The refreshed row is rejected for some content exactly when the origin was. */
  lemma OriginRejectedIff(ts: seq<Tables>, caps: seq<Capability>, ls: seq<string>, holds: set<HoldKey>, j: nat, v: string)
    requires RowTrace(ts, caps, ls, holds) && Distinct(caps) && NoneRejected(caps) && j < |caps| && Origin(ts[0].rows, caps, j) == Some(v)
    ensures v in ts[j].rows && (RejectedAs(ts[j].rows[v].cap, caps[j].hash) <==> RejectedAs(ts[0].rows[v].cap, caps[j].hash))
  {
    OriginIsPrevious(ts, caps, ls, holds, j);
    if Occupied(ts[0].rows, caps, j) {
      BatchKnown(ts, caps, ls, holds, j);
      assert Known(ts[0].rows, caps, j, ts[j].rows, v);
      if k :| 0 <= k < j && Address(ts[0].rows, caps, k) == v {
        assert caps[k].uri != caps[j].uri;
        PromotionStays(ts, caps, ls, holds, j, v);
      }
    }
  }

  /** The row of a batch capability after the batch, from its origin before it. */
  lemma BatchRow(ts: seq<Tables>, caps: seq<Capability>, ls: seq<string>, holds: set<HoldKey>, j: nat)
    requires RowTrace(ts, caps, ls, holds) && Distinct(caps) && NoneRejected(caps) && j < |caps| && LastAt(ls, j)
    ensures ls[j] == Address(ts[0].rows, caps, j) && ls[j] in ts[|caps|].rows
    ensures StoredFrom(ts[|caps|].rows[ls[j]].cap, caps[j], ts[0].rows, Origin(ts[0].rows, caps, j))
    ensures StoredAsGiven(ts[|caps|].rows[ls[j]].cap, caps[j], Origin(ts[0].rows, caps, j), holds)
  {
    assert RowTurn(ts[j], caps[j], ts[j + 1], holds) && LandsAt(ts[j], caps[j], ls[j]);
    OriginIsPrevious(ts, caps, ls, holds, j);
    StoredStays(ts, caps, ls, holds, j, |caps|);
    if Origin(ts[0].rows, caps, j).Some? {
      OriginRejectedIff(ts, caps, ls, holds, j, Origin(ts[0].rows, caps, j).value);
    }
  }

  /** Of the capabilities stored at `u`, the last. */
  lemma {:induction false} LastLander(rows0: map<string, Row>, caps: seq<Capability>, ls: seq<string>, n: nat, u: string) returns (j: nat)
    requires |ls| == |caps| && n <= |caps| && (forall i :: 0 <= i < |caps| ==> ls[i] == Address(rows0, caps, i))
    requires TakenBefore(rows0, caps, n, u) && forall k :: n <= k < |ls| ==> ls[k] != u
    ensures j < n && ls[j] == u && LastAt(ls, j)
    decreases n
  {
    if ls[n - 1] == u {
      j := n - 1;
    } else {
      j := LastLander(rows0, caps, ls, n - 1, u);
    }
  }

  // ---- when two capabilities share a row ----

  /** Capability `i` is carried over to the address that `j` names. */
  predicate CarriedOnto(rows: map<string, Row>, caps: seq<Capability>, i: nat, j: nat)
    requires i < |caps| && j < |caps|
  {
    && caps[j].uri in rows && Pinned(rows[caps[j].uri].cap) && rows[caps[j].uri].cap.key == caps[i].key
    && !Occupied(rows, caps, i)
  }

  /** No capability is carried over to the address of a later one. */
  predicate Uncontested(rows: map<string, Row>, caps: seq<Capability>)
  {
    forall i, j :: 0 <= i < j < |caps| ==> !CarriedOnto(rows, caps, i, j)
  }

  lemma CarriedOntoIff(rows: map<string, Row>, nextId: nat, caps: seq<Capability>, i: nat, j: nat)
    requires Keyed(rows, nextId) && Distinct(caps) && i < j < |caps|
    ensures Address(rows, caps, i) == caps[j].uri <==> CarriedOnto(rows, caps, i, j)
  {
    if CarriedOnto(rows, caps, i, j) {
      assert KeptFor(rows, caps, i, caps[j].uri);
    }
    assert caps[i].uri != caps[j].uri;
  }
}
