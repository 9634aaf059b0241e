/**
 The Fisher-Yates shuffle the playlist runs over slices of track indices.

 `rand.Intn(i + 1)` is a parameter: a `Draws` value answers it for each loop index `i`. The lemmas show that
 the draws stand for exactly the rearrangements of the input, each of them reached by one way of drawing.
 */
module Shuffle {

  ghost predicate InRange(f: nat -> nat) {
    forall i: nat :: f(i) <= i
  }

  /** What rand.Intn(i + 1) returns while the loop is at index i. */
  type Draws = f: nat -> nat | InRange(f) witness (i: nat) => 0

  function Swapped<T>(s: seq<T>, i: nat, j: nat): (r: seq<T>)
    requires i < |s| && j < |s|
    ensures |r| == |s|
    ensures r[i] == s[j] && r[j] == s[i]
    ensures forall k :: 0 <= k < |s| && k != i && k != j ==> r[k] == s[k]
  {
    s[i := s[j]][j := s[i]]
  }

  lemma SwapRearranges<T>(s: seq<T>, i: nat, j: nat)
    requires i < |s| && j < |s|
    ensures multiset(Swapped(s, i, j)) == multiset(s)
  {
  }

  /** One turn of the loop, seen on the part it has yet to visit. */
  lemma ShuffleStep<T>(r: seq<T>, i: nat, rng: Draws)
    requires 0 < i < |r|
    ensures var t := Swapped(r, i, rng(i));
            Shuffled(r[..i + 1], rng) + r[i + 1..] == Shuffled(t[..i], rng) + t[i..]
  {
    var j := rng(i);
    var t := Swapped(r, i, j);
    assert t[..i + 1] == Swapped(r[..i + 1], i, j);
    assert t[..i + 1][..i] == t[..i];
    assert [t[i]] + r[i + 1..] == t[i..];
  }

  /** The result of the loop that runs from the last index of s down to 1. */
  function Shuffled<T>(s: seq<T>, rng: Draws): (r: seq<T>)
    ensures |r| == |s|
    decreases |s|
  {
    if |s| <= 1 then s
    else
      var last := |s| - 1;
      var t := Swapped(s, last, rng(last));
      Shuffled(t[..last], rng) + [t[last]]
  }

  method FisherYates<T>(s: seq<T>, rng: Draws) returns (r: seq<T>)
    ensures r == Shuffled(s, rng)
  {
    r := s;
    var i := |s| - 1;
    assert r[..i + 1] == s && r[i + 1..] == [];
    while i > 0
      invariant |r| == |s|
      invariant -1 <= i < |s|
      invariant Shuffled(s, rng) == Shuffled(r[..i + 1], rng) + r[i + 1..]
    {
      ShuffleStep(r, i, rng);
      var j := rng(i);
      r := r[i := r[j]][j := r[i]];
      i := i - 1;
    }
    assert r[..i + 1] + r[i + 1..] == r;
  }

  /** Shuffling rearranges: it neither loses, invents nor repeats an element. */
  lemma {:induction false} ShuffledRearranges<T>(s: seq<T>, rng: Draws)
    ensures multiset(Shuffled(s, rng)) == multiset(s)
    decreases |s|
  {
    hide Swapped;
    if |s| > 1 {
      var last := |s| - 1;
      var t := Swapped(s, last, rng(last));
      assert Shuffled(s, rng) == Shuffled(t[..last], rng) + [t[last]];
      hide Shuffled;
      ShuffledRearranges(t[..last], rng);
      SwapRearranges(s, last, rng(last));
      LastApart(t);
    }
  }

  lemma LastApart<T>(t: seq<T>)
    requires t != []
    ensures var last := |t| - 1;
            multiset(t) == multiset(t[..last]) + multiset([t[last]]) && t == t[..last] + [t[last]]
  {
    var last := |t| - 1;
    assert t == t[..last] + [t[last]];
  }

  /** Only the draws for the indices 1 .. |s|-1 matter. */
  lemma {:induction false} ShuffledReadsOnlyItsDraws<T>(s: seq<T>, a: Draws, b: Draws)
    requires forall i: nat :: 0 < i < |s| ==> a(i) == b(i)
    ensures Shuffled(s, a) == Shuffled(s, b)
    decreases |s|
  {
    if |s| > 1 {
      var last := |s| - 1;
      ShuffledReadsOnlyItsDraws(Swapped(s, last, a(last))[..last], a, b);
    }
  }

  /** Every rearrangement of s is the outcome of some draws. */
  lemma {:induction false} EveryArrangementIsDrawn<T>(s: seq<T>, q: seq<T>) returns (rng: Draws)
    requires multiset(q) == multiset(s)
    ensures Shuffled(s, rng) == q
    decreases |s|
  {
    hide Shuffled, Swapped, WithDraw;
    SameLength(s, q);
    if |s| <= 1 {
      rng := (i: nat) => 0;
      ShortArrangement(s, q, rng);
    } else {
      var last := |s| - 1;
      var j := DrawForLast(s, q);
      var t := Swapped(s, last, j);
      var inner := EveryArrangementIsDrawn(t[..last], q[..last]);
      rng := WithDraw(inner, last, j);
      ShuffledReadsOnlyItsDraws(t[..last], inner, rng);
      SplitAtLast(s, rng);
      assert q == q[..last] + [q[last]];
      assert Shuffled(s, rng) == Shuffled(s, rng)[..last] + [Shuffled(s, rng)[last]];
    }
  }

  lemma ShortArrangement<T>(s: seq<T>, q: seq<T>, rng: Draws)
    requires multiset(q) == multiset(s) && |q| == |s| <= 1
    ensures Shuffled(s, rng) == q
  {
    if |s| == 1 {
      assert q[0] in multiset(s);
    }
  }

  /** The draws f, except that index i answers j. */
  ghost function WithDraw(f: Draws, i: nat, j: nat): (g: Draws)
    requires j <= i
    ensures g(i) == j
    ensures forall k: nat :: k != i ==> g(k) == f(k)
  {
    var g := (k: nat) => if k == i then j else f(k);
    assert InRange(g);
    g
  }

  /** The draw that puts the last element of q in place leaves a rearrangement of the rest of q. */
  lemma DrawForLast<T>(s: seq<T>, q: seq<T>) returns (j: nat)
    requires multiset(q) == multiset(s) && |q| == |s| > 0
    ensures j < |s| && s[j] == q[|s| - 1]
    ensures var t := Swapped(s, |s| - 1, j);
            t[|s| - 1] == q[|s| - 1] && multiset(t[..|s| - 1]) == multiset(q[..|s| - 1])
  {
    hide Swapped;
    var last := |s| - 1;
    assert q[last] in multiset(s);
    j :| j <= last && s[j] == q[last];
    var t := Swapped(s, last, j);
    SwapRearranges(s, last, j);
    WithoutLast(t);
    WithoutLast(q);
  }

  lemma WithoutLast<T>(s: seq<T>)
    requires |s| > 0
    ensures multiset(s[..|s| - 1]) == multiset(s) - multiset{s[|s| - 1]}
  {
    assert s == s[..|s| - 1] + [s[|s| - 1]];
  }

  /** Different draws give different orders, so with fair draws every order is equally likely. */
  lemma {:induction false} DrawsAreDetermined<T>(s: seq<T>, a: Draws, b: Draws)
    requires forall i, j :: 0 <= i < j < |s| ==> s[i] != s[j]
    requires Shuffled(s, a) == Shuffled(s, b)
    ensures forall i: nat :: 0 < i < |s| ==> a(i) == b(i)
    decreases |s|
  {
    if |s| > 1 {
      var last := |s| - 1;
      var t, u := Swapped(s, last, a(last)), Swapped(s, last, b(last));
      SplitAtLast(s, a);
      SplitAtLast(s, b);
      assert t[last] == u[last];
      DistinctAfterSwap(s, last, a(last));
      DrawsAreDetermined(t[..last], a, b);
    }
  }

  lemma SplitAtLast<T>(s: seq<T>, rng: Draws)
    requires |s| > 1
    ensures var last := |s| - 1;
            var t := Swapped(s, last, rng(last));
            Shuffled(s, rng)[last] == t[last] == s[rng(last)] && Shuffled(s, rng)[..last] == Shuffled(t[..last], rng)
  {
  }

  lemma DistinctAfterSwap<T>(s: seq<T>, i: nat, j: nat)
    requires i < |s| && j < |s|
    requires forall i, j :: 0 <= i < j < |s| ==> s[i] != s[j]
    ensures var t := Swapped(s, i, j); forall i, j :: 0 <= i < j < |s| ==> t[i] != t[j]
  {
  }

  lemma SameLength<T>(s: seq<T>, q: seq<T>)
    requires multiset(q) == multiset(s)
    ensures |q| == |s|
  {
    assert |multiset(q)| == |q| && |multiset(s)| == |s|;
  }
}
