/**
 Text order shared by the other modules.  Python's `sorted` compares `str`
 values by code point; SQLite's `ORDER BY` on TEXT does the same for the values
 stored here.  The module proves that order total and gives the two forms of
 `sorted` the registry uses: over a set (a generator over a `set`, or
 `SELECT ... ORDER BY` on a unique column) and over a list with repetitions.
 */
module Text {

  /** `a <= b` in Python's string order. */
  predicate Leq(a: string, b: string)
  {
    a == [] || (b != [] && (a[0] < b[0] || (a[0] == b[0] && Leq(a[1..], b[1..]))))
  }

  /** Python's `token in s`. */
  predicate Contains(s: string, token: string)
  {
    token <= s || (s != "" && Contains(s[1..], token))
  }

  predicate Less(a: string, b: string)
  {
    a != b && Leq(a, b)
  }

  lemma {:induction false} LeqReflexive(a: string)
    ensures Leq(a, a)
  {
    if a != [] {
      LeqReflexive(a[1..]);
    }
  }

  lemma {:induction false} LeqTotal(a: string, b: string)
    ensures Leq(a, b) || Leq(b, a)
  {
    if a != [] && b != [] && a[0] == b[0] {
      LeqTotal(a[1..], b[1..]);
    }
  }

  lemma {:induction false} LeqAntisymmetric(a: string, b: string)
    requires Leq(a, b) && Leq(b, a)
    ensures a == b
  {
    if a != [] && b != [] {
      LeqAntisymmetric(a[1..], b[1..]);
      assert a == [a[0]] + a[1..] && b == [b[0]] + b[1..];
    }
  }

  lemma {:induction false} LeqTransitive(a: string, b: string, c: string)
    requires Leq(a, b) && Leq(b, c)
    ensures Leq(a, c)
  {
    if a != [] && a[0] == b[0] && b[0] == c[0] {
      LeqTransitive(a[1..], b[1..], c[1..]);
    }
  }

  lemma {:induction false} LessTransitive(a: string, b: string, c: string)
    requires Less(a, b) && Leq(b, c)
    ensures Less(a, c)
  {
    LeqTransitive(a, b, c);
    if a == c {
      LeqAntisymmetric(a, b);
    }
  }

  /** The order is the usual one: the first character that differs decides, by code point, and a proper prefix comes first. */
  lemma {:induction false} LeqIff(a: string, b: string)
    ensures Leq(a, b) <==> a <= b || exists k :: 0 <= k < |a| && k < |b| && a[..k] == b[..k] && a[k] < b[k]
  {
    if a != [] && b != [] {
      var x, y := a[1..], b[1..];
      assert a == [a[0]] + x && b == [b[0]] + y;
      if a[0] < b[0] {
        assert a[..0] == b[..0];
      } else if a[0] == b[0] {
        LeqIff(x, y);
        if k :| 0 <= k < |x| && k < |y| && x[..k] == y[..k] && x[k] < y[k] {
          assert a[..k + 1] == [a[0]] + x[..k] && b[..k + 1] == [b[0]] + y[..k];
          assert a[k + 1] < b[k + 1];
        }
        if k :| 0 <= k < |a| && k < |b| && a[..k] == b[..k] && a[k] < b[k] {
          FirstDifference(a, b, k);
        }
      } else {
        assert forall k :: 0 < k < |a| && k < |b| && a[..k] == b[..k] ==> a[..k][0] == b[..k][0];
      }
    }
  }

  lemma FirstDifference(a: string, b: string, k: nat)
    requires k < |a| && k < |b| && a[..k] == b[..k] && a[k] < b[k] && a[0] == b[0]
    ensures k > 0 && a[1..][..k - 1] == b[1..][..k - 1] && a[1..][k - 1] < b[1..][k - 1]
  {
    assert a[1..][..k - 1] == a[..k][1..] && b[1..][..k - 1] == b[..k][1..];
  }

  /** `word` occurs in `s`. */
  ghost predicate Occurs(s: string, word: string)
  {
    exists before, after :: s == before + word + after
  }

  lemma {:induction false} ContainsIff(s: string, word: string)
    ensures Contains(s, word) <==> Occurs(s, word)
  {
    if word <= s {
      assert s == "" + word + s[|word|..];
    } else if s != "" {
      ContainsIff(s[1..], word);
      if Contains(s[1..], word) {
        var before, after :| s[1..] == before + word + after;
        assert s == ([s[0]] + before) + word + after;
      }
      if before, after :| s == before + word + after {
        LaterOccurrence(s, before, word, after);
      }
    }
  }

  lemma LaterOccurrence(s: string, before: string, word: string, after: string)
    requires s == before + word + after && !(word <= s)
    ensures s != "" && Occurs(s[1..], word)
  {
    assert before != "" by {
      assert "" + word + after == word + after;
    }
    assert s[1..] == before[1..] + word + after;
  }

  ghost predicate Sorted(s: seq<string>)
  {
    forall i, j :: 0 <= i < j < |s| ==> Leq(s[i], s[j])
  }

  ghost predicate StrictlySorted(s: seq<string>)
  {
    forall i, j :: 0 <= i < j < |s| ==> Less(s[i], s[j])
  }

  predicate NoDuplicates<T(==)>(s: seq<T>)
  {
    forall i, j :: 0 <= i < j < |s| ==> s[i] != s[j]
  }

  function Elements<T>(s: seq<T>): set<T>
  {
    set x | x in s
  }

  // ---- sorted(list) ----

  function Insert(x: string, s: seq<string>): (r: seq<string>)
    ensures multiset(r) == multiset(s) + multiset{x}
  {
    if s == [] then [x]
    else if Leq(x, s[0]) then [x] + s
    else
      assert s == [s[0]] + s[1..];
      [s[0]] + Insert(x, s[1..])
  }

  function Sort(s: seq<string>): (r: seq<string>)
    ensures multiset(r) == multiset(s)
  {
    if s == [] then []
    else
      assert s == [s[0]] + s[1..];
      Insert(s[0], Sort(s[1..]))
  }

  lemma {:induction false} InsertSorted(x: string, s: seq<string>)
    requires Sorted(s)
    ensures Sorted(Insert(x, s))
  {
    if s == [] {
    } else if Leq(x, s[0]) {
      var r := [x] + s;
      forall j | 0 < j < |r| ensures Leq(r[0], r[j]) {
        if j > 1 { LeqTransitive(x, s[0], s[j - 1]); }
      }
    } else {
      LeqTotal(x, s[0]);
      InsertSorted(x, s[1..]);
      var rest := Insert(x, s[1..]);
      forall j | 0 <= j < |rest| ensures Leq(s[0], rest[j]) {
        assert rest[j] in multiset(rest);
        assert rest[j] == x || rest[j] in s[1..];
      }
    }
  }

  lemma {:induction false} SortSorted(s: seq<string>)
    ensures Sorted(Sort(s))
  {
    if s != [] {
      SortSorted(s[1..]);
      InsertSorted(s[0], Sort(s[1..]));
    }
  }

  lemma {:induction false} HeadLeast(a: seq<string>, x: string)
    requires Sorted(a) && x in a
    ensures Leq(a[0], x)
  {
    LeqReflexive(x);
  }

  lemma {:induction false} TailMultiset(a: seq<string>)
    requires a != []
    ensures multiset(a[1..]) == multiset(a) - multiset{a[0]}
  {
    assert a == [a[0]] + a[1..];
  }

  /** A sorted list is determined by the multiset of its elements. */
  lemma {:induction false} SortedUnique(a: seq<string>, b: seq<string>)
    requires Sorted(a) && Sorted(b) && multiset(a) == multiset(b)
    ensures a == b
  {
    assert |a| == |multiset(a)| == |multiset(b)| == |b|;
    if a != [] {
      assert a[0] == b[0] by {
        assert a[0] in multiset(b) && b[0] in multiset(a);
        HeadLeast(a, b[0]);
        HeadLeast(b, a[0]);
        LeqAntisymmetric(a[0], b[0]);
      }
      TailMultiset(a);
      TailMultiset(b);
      SortedUnique(a[1..], b[1..]);
      assert a == [a[0]] + a[1..] && b == [b[0]] + b[1..];
    }
  }

  lemma {:induction false} SortPermutation(a: seq<string>, b: seq<string>)
    requires multiset(a) == multiset(b)
    ensures Sort(a) == Sort(b)
  {
    SortSorted(a);
    SortSorted(b);
    SortedUnique(Sort(a), Sort(b));
  }

  // ---- sorted(set) ----

  lemma {:induction false} LeastExists(s: set<string>) returns (m: string)
    requires s != {}
    ensures m in s && forall x :: x in s ==> Leq(m, x)
  {
    m :| m in s;
    LeqReflexive(m);
    if s != {m} {
      var n := LeastExists(s - {m});
      LeqTotal(m, n);
      if Leq(m, n) {
        forall x | x in s ensures Leq(m, x) {
          if x != m { LeqTransitive(m, n, x); }
        }
      } else {
        m := n;
      }
    }
  }

  lemma {:induction false} LeastUnique(s: set<string>)
    requires s != {}
    ensures exists m :: m in s && forall x :: x in s ==> Leq(m, x)
    ensures forall m, n :: m in s && n in s && (forall x :: x in s ==> Leq(m, x)) && (forall x :: x in s ==> Leq(n, x)) ==> m == n
  {
    var m := LeastExists(s);
    forall a, b | a in s && b in s && (forall x :: x in s ==> Leq(a, x)) && (forall x :: x in s ==> Leq(b, x))
      ensures a == b
    {
      LeqAntisymmetric(a, b);
    }
  }

  function Least(s: set<string>): (m: string)
    requires s != {}
    ensures m in s && forall x :: x in s ==> Leq(m, x)
  {
    LeastUnique(s);
    var m :| m in s && forall x :: x in s ==> Leq(m, x);
    m
  }

  function SortedSet(s: set<string>): (r: seq<string>)
    ensures Elements(r) == s && |r| == |s|
  {
    if s == {} then []
    else
      var m := Least(s);
      var r := [m] + SortedSet(s - {m});
      assert Elements(r) == {m} + Elements(SortedSet(s - {m}));
      r
  }

  lemma {:induction false} SortedSetSorted(s: set<string>)
    ensures StrictlySorted(SortedSet(s)) && NoDuplicates(SortedSet(s))
  {
    if s != {} {
      var m := Least(s);
      SortedSetSorted(s - {m});
      var rest := SortedSet(s - {m});
      forall j | 0 <= j < |rest| ensures Less(m, rest[j]) {
        assert rest[j] in Elements(rest);
      }
    }
  }

  /** A strictly sorted list is determined by its elements. */
  lemma {:induction false} StrictlySortedUnique(a: seq<string>, b: seq<string>)
    requires StrictlySorted(a) && StrictlySorted(b) && Elements(a) == Elements(b)
    ensures a == b
  {
    assert b == [] || b[0] in Elements(b);
    if a != [] {
      assert a[0] in Elements(a);
      assert a[0] in b;
      assert b[0] in Elements(b);
      assert b[0] in a;
      LeqReflexive(a[0]);
      LeqReflexive(b[0]);
      LeqAntisymmetric(a[0], b[0]);
      assert Elements(a[1..]) == Elements(a) - {a[0]} by {
        assert a == [a[0]] + a[1..];
        forall x ensures x in a[1..] <==> x in a && x != a[0] {}
      }
      assert Elements(b[1..]) == Elements(b) - {b[0]} by {
        assert b == [b[0]] + b[1..];
        forall x ensures x in b[1..] <==> x in b && x != b[0] {}
      }
      StrictlySortedUnique(a[1..], b[1..]);
      assert b == [b[0]] + b[1..];
    }
  }

  /** The elements in the order they first appear: the key order of a dictionary filled from `s`. */
  function FirstSeen(s: seq<string>): seq<string>
  {
    if s == [] then []
    else
      var front, last := FirstSeen(s[..|s| - 1]), s[|s| - 1];
      if last in front then front else front + [last]
  }

  lemma FirstSeenAppend(s: seq<string>, x: string)
    ensures FirstSeen(s + [x]) == if x in FirstSeen(s) then FirstSeen(s) else FirstSeen(s) + [x]
  {
    assert (s + [x])[..|s|] == s;
  }
}
