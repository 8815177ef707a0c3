/** Sequence helpers shared by the model: duplicate-freedom and LINQ-style Distinct and Except. */
module Seqs {
  predicate NoDup<T(==)>(s: seq<T>) {
    forall i, j :: 0 <= i < j < |s| ==> s[i] != s[j]
  }

  /** Enumerable.Distinct: first occurrences, in their original order (DistinctOrder proves the order). */
  function Distinct<T(==)>(s: seq<T>): (r: seq<T>)
    ensures NoDup(r)
    ensures forall i :: 0 <= i < |r| ==> r[i] in s
    ensures forall i :: 0 <= i < |s| ==> s[i] in r
    ensures |r| <= |s|
  {
    if s == [] then []
    else
      var p := Distinct(s[..|s| - 1]);
      assert s == s[..|s| - 1] + [s[|s| - 1]];
      if s[|s| - 1] in p then p else p + [s[|s| - 1]]
  }

  lemma DistinctHas<T>(s: seq<T>, x: T)
    ensures x in Distinct(s) <==> x in s
  {
    if x in Distinct(s) {
      var i :| 0 <= i < |Distinct(s)| && Distinct(s)[i] == x;
    }
    if x in s {
      var i :| 0 <= i < |s| && s[i] == x;
    }
  }

  /**
   * Enumerable.Except: the elements of s not in xs, in their order in s (s is duplicate-free
   * wherever it is used; ExceptOrder proves the order).
   */
  function Except<T(==)>(s: seq<T>, xs: seq<T>): (r: seq<T>)
    ensures forall i :: 0 <= i < |r| ==> r[i] in s && r[i] !in xs
    ensures forall i :: 0 <= i < |s| && s[i] !in xs ==> s[i] in r
    ensures |r| <= |s|
    ensures NoDup(s) ==> NoDup(r)
  {
    if s == [] then []
    else if s[0] in xs then Except(s[1..], xs)
    else [s[0]] + Except(s[1..], xs)
  }

  /** The position of the first occurrence of x in s. */
  function IndexOf<T(==)>(s: seq<T>, x: T): (i: nat)
    requires x in s
    ensures i < |s| && s[i] == x
    ensures forall j :: 0 <= j < i ==> s[j] != x
  {
    if s[0] == x then 0 else 1 + IndexOf(s[1..], x)
  }

  /** Extending a sequence does not move the first occurrence of an element already in it. */
  lemma IndexOfPrefix<T>(s: seq<T>, t: seq<T>, x: T)
    requires x in s
    ensures IndexOf(s + t, x) == IndexOf(s, x)
  {
    var i, k := IndexOf(s, x), IndexOf(s + t, x);
    assert (s + t)[i] == x;
    assert k <= i;
    assert s[k] == (s + t)[k];
  }

  /** r lists elements of s in the order of their first occurrences in s. */
  ghost predicate InFirstOccurrenceOrder<T>(r: seq<T>, s: seq<T>)
    requires forall i :: 0 <= i < |r| ==> r[i] in s
  {
    forall i, j :: 0 <= i < j < |r| ==> IndexOf(s, r[i]) < IndexOf(s, r[j])
  }

  /**
   * Distinct keeps each element at its first occurrence: its result is ordered by first
   * occurrence in s, which together with its other properties determines it.
   */
  lemma {:induction false} DistinctOrder<T>(s: seq<T>)
    ensures InFirstOccurrenceOrder(Distinct(s), s)
  {
    if s != [] {
      var init, x := s[..|s| - 1], s[|s| - 1];
      assert s == init + [x];
      DistinctOrder(init);
      var p := Distinct(init);
      if x in p {
        OrderExtend(p, init, [x]);
      } else {
        OrderSnoc(p, init, x);
      }
    }
  }

  /** Extending s keeps an order by first occurrence in s. */
  lemma OrderExtend<T>(r: seq<T>, s: seq<T>, t: seq<T>)
    requires forall i :: 0 <= i < |r| ==> r[i] in s
    requires InFirstOccurrenceOrder(r, s)
    ensures forall i :: 0 <= i < |r| ==> r[i] in s + t
    ensures InFirstOccurrenceOrder(r, s + t)
  {
    forall i | 0 <= i < |r| ensures IndexOf(s + t, r[i]) == IndexOf(s, r[i]) {
      IndexOfPrefix(s, t, r[i]);
    }
  }

  /** A new last element of s may be appended to an order by first occurrence in s. */
  lemma OrderSnoc<T>(r: seq<T>, s: seq<T>, x: T)
    requires forall i :: 0 <= i < |r| ==> r[i] in s
    requires InFirstOccurrenceOrder(r, s) && x !in s
    ensures forall i :: 0 <= i < |r + [x]| ==> (r + [x])[i] in s + [x]
    ensures InFirstOccurrenceOrder(r + [x], s + [x])
  {
    OrderExtend(r, s, [x]);
    assert IndexOf(s + [x], x) == |s| by {
      assert (s + [x])[|s|] == x;
    }
    var q := r + [x];
    forall i, j | 0 <= i < j < |q| ensures IndexOf(s + [x], q[i]) < IndexOf(s + [x], q[j]) {
      assert q[i] == r[i];
      if j < |r| {
        assert q[j] == r[j];
      }
    }
  }

  lemma NoDupTail<T>(s: seq<T>)
    requires NoDup(s) && s != []
    ensures NoDup(s[1..]) && s[0] !in s[1..]
  {
    var tail := s[1..];
    forall i, j | 0 <= i < j < |tail| ensures tail[i] != tail[j] {
      assert tail[i] == s[i + 1] && tail[j] == s[j + 1];
    }
    forall k | 0 <= k < |tail| ensures tail[k] != s[0] {
      assert tail[k] == s[k + 1];
    }
  }

  lemma IndexOfTail<T>(s: seq<T>, y: T)
    requires s != [] && y in s[1..] && y != s[0]
    ensures IndexOf(s, y) == 1 + IndexOf(s[1..], y)
  {
  }

  /**
   * Except keeps the survivors of a duplicate-free s in their original order: the result
   * is ordered by position in s.
   */
  lemma {:induction false} ExceptOrder<T>(s: seq<T>, xs: seq<T>)
    requires NoDup(s)
    ensures InFirstOccurrenceOrder(Except(s, xs), s)
  {
    if s != [] {
      var tail := s[1..];
      NoDupTail(s);
      ExceptOrder(tail, xs);
      var e := Except(tail, xs);
      ExceptShift(s, e);
      if s[0] !in xs {
        assert Except(s, xs) == [s[0]] + e;
        OrderCons(s, e);
      }
    }
  }

  /** The head of s may be put in front of an order by first occurrence in s that omits it. */
  lemma OrderCons<T>(s: seq<T>, e: seq<T>)
    requires s != [] && forall i :: 0 <= i < |e| ==> e[i] in s[1..] && e[i] != s[0]
    requires forall i :: 0 <= i < |e| ==> IndexOf(s, e[i]) == 1 + IndexOf(s[1..], e[i])
    requires InFirstOccurrenceOrder(e, s)
    ensures forall i :: 0 <= i < |[s[0]] + e| ==> ([s[0]] + e)[i] in s
    ensures InFirstOccurrenceOrder([s[0]] + e, s)
  {
    var r := [s[0]] + e;
    forall i, j | 0 <= i < j < |r| ensures IndexOf(s, r[i]) < IndexOf(s, r[j]) {
      assert r[j] == e[j - 1];
      if i > 0 {
        assert r[i] == e[i - 1];
      }
    }
  }

  /** The order of a tail's elements carries over to the whole sequence. */
  lemma ExceptShift<T>(s: seq<T>, e: seq<T>)
    requires s != [] && forall i :: 0 <= i < |e| ==> e[i] in s[1..] && e[i] != s[0]
    requires InFirstOccurrenceOrder(e, s[1..])
    ensures forall i :: 0 <= i < |e| ==> IndexOf(s, e[i]) == 1 + IndexOf(s[1..], e[i])
    ensures InFirstOccurrenceOrder(e, s)
  {
    forall i | 0 <= i < |e| ensures IndexOf(s, e[i]) == 1 + IndexOf(s[1..], e[i]) {
      IndexOfTail(s, e[i]);
    }
  }

  lemma NoDupAppend<T>(s: seq<T>, x: T)
    requires NoDup(s) && x !in s
    ensures NoDup(s + [x])
  {
  }

  /** Appending keeps a sequence duplicate-free exactly when the new element is not already in it. */
  lemma NoDupSnoc<T>(s: seq<T>, x: T)
    ensures NoDup(s + [x]) <==> NoDup(s) && x !in s
  {
    var t := s + [x];
    if NoDup(t) {
      forall i, j | 0 <= i < j < |s| ensures s[i] != s[j] {
        assert t[i] == s[i] && t[j] == s[j];
      }
      forall i | 0 <= i < |s| ensures s[i] != x {
        assert t[i] == s[i] && t[|s|] == x;
      }
    }
  }

  /** A duplicate-free sequence holds each of its elements exactly once. */
  lemma {:induction false} NoDupMultiset<T>(s: seq<T>, x: T)
    requires NoDup(s)
    ensures multiset(s)[x] == if x in s then 1 else 0
  {
    if s != [] {
      assert s == [s[0]] + s[1..];
      assert NoDup(s[1..]) by {
        forall i, j | 0 <= i < j < |s[1..]| ensures s[1..][i] != s[1..][j] {
          assert s[1..][i] == s[i + 1] && s[1..][j] == s[j + 1];
        }
      }
      NoDupMultiset(s[1..], x);
      assert s[0] !in s[1..] by {
        forall k | 0 <= k < |s[1..]| ensures s[1..][k] != s[0] { assert s[1..][k] == s[k + 1]; }
      }
    }
  }

  /**
   * Appends, in order, each element of c that is not already present: the effect of a
   * loop of "if (!list.Contains(x)) list.Add(x)" and of HashSet.Add into an ordered set.
   */
  function AppendMissing<T(==)>(l: seq<T>, c: seq<T>): seq<T>
  {
    if c == [] then l
    else
      var p := AppendMissing(l, c[..|c| - 1]);
      var x := c[|c| - 1];
      if x in p then p else p + [x]
  }

  /** The result extends l, holds exactly the elements of l and c, and stays duplicate-free. */
  lemma {:induction false} AppendMissingFacts<T>(l: seq<T>, c: seq<T>, x: T)
    ensures |l| <= |AppendMissing(l, c)| && AppendMissing(l, c)[..|l|] == l
    ensures x in AppendMissing(l, c) <==> x in l || x in c
    ensures NoDup(l) ==> NoDup(AppendMissing(l, c))
  {
    if c != [] {
      var init := c[..|c| - 1];
      AppendMissingFacts(l, init, x);
      AppendMissingFacts(l, init, c[|c| - 1]);
      assert c == init + [c[|c| - 1]];
      var p := AppendMissing(l, init);
      if c[|c| - 1] !in p {
        assert (p + [c[|c| - 1]])[..|l|] == p[..|l|];
        if NoDup(l) { NoDupAppend(p, c[|c| - 1]); }
      }
    }
  }

  /** Appending only elements that are already present changes nothing. */
  lemma {:induction false} AppendMissingKnown<T>(l: seq<T>, c: seq<T>)
    requires forall i :: 0 <= i < |c| ==> c[i] in l
    ensures AppendMissing(l, c) == l
  {
    if c != [] {
      assert forall i :: 0 <= i < |c| - 1 ==> c[..|c| - 1][i] == c[i];
      AppendMissingKnown(l, c[..|c| - 1]);
    }
  }

  /** Appending a duplicate-free sequence to nothing yields that sequence. */
  lemma {:induction false} AppendMissingFresh<T>(c: seq<T>)
    requires NoDup(c)
    ensures AppendMissing([], c) == c
  {
    if c != [] {
      var init := c[..|c| - 1];
      assert NoDup(init) by {
        forall i, j | 0 <= i < j < |init| ensures init[i] != init[j] {
          assert init[i] == c[i] && init[j] == c[j];
        }
      }
      AppendMissingFresh(init);
      assert c[|c| - 1] !in init by {
        forall i | 0 <= i < |init| ensures init[i] != c[|c| - 1] { assert init[i] == c[i]; }
      }
      assert init + [c[|c| - 1]] == c;
    }
  }

  lemma AppendMissingStep<T>(l: seq<T>, c: seq<T>, x: T)
    ensures AppendMissing(l, c + [x]) ==
      (if x in AppendMissing(l, c) then AppendMissing(l, c) else AppendMissing(l, c) + [x])
  {
    assert (c + [x])[..|c + [x]| - 1] == c;
  }

  lemma {:induction false} AppendMissingConcat<T>(l: seq<T>, a: seq<T>, b: seq<T>)
    ensures AppendMissing(AppendMissing(l, a), b) == AppendMissing(l, a + b)
  {
    if b != [] {
      var init := b[..|b| - 1];
      var x := b[|b| - 1];
      AppendMissingConcat(l, a, init);
      assert (a + b)[..|a + b| - 1] == a + init;
    } else {
      assert a + b == a;
    }
  }
}
