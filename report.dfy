/**
 * The P99 column of `print_results`: for a list of more than ten samples, the sample at
 * index int(n * 0.99) of the sorted list; for ten or fewer, the largest sample. The
 * source prints that sample times 1000, in milliseconds; the model keeps it in seconds.
 */
module Report {
  import Sorting

  predicate RealLe(a: real, b: real)
  {
    a <= b
  }

  lemma RealLeTotalPreorder()
    ensures Sorting.TotalPreorder(RealLe)
  {
  }

  /** `max(times)` */
  function Max(s: seq<real>): (m: real)
    requires |s| > 0
    ensures m in s && forall x :: x in s ==> x <= m
  {
    if |s| == 1 then s[0]
    else
      var rest := Max(s[1..]);
      assert forall x :: x in s[1..] ==> x in s;
      assert forall x :: x in s ==> x == s[0] || x in s[1..];
      if s[0] >= rest then s[0] else rest
  }

  /** `int(len(times) * 0.99)`, taken as exact arithmetic. */
  function P99Index(n: nat): nat
  {
    (99 * n) / 100
  }

  /** The P99 value of a non-empty list of samples (`print_results` skips empty lists). */
  function P99(times: seq<real>): real
    requires |times| > 0
  {
    if |times| > 10 then
      PositionInRange(|times|);
      Sorting.Sort(times, RealLe)[P99Index(|times|)]
    else Max(times)
  }

  /** The index is always a valid position of the sorted list. */
  lemma PositionInRange(n: nat)
    requires n > 0
    ensures P99Index(n) < n
  {
  }

  // ---------------------------------------------------------------------------------------
  // Properties

  /** P99 is one of the samples. */
  lemma {:induction false} P99IsSample(times: seq<real>)
    requires |times| > 0
    ensures P99(times) in times
  {
    if |times| > 10 {
      var sorted := Sorting.Sort(times, RealLe);
      PositionInRange(|times|);
      assert sorted[P99Index(|times|)] in multiset(sorted);
    }
  }

  /** For ten samples or fewer, P99 is the largest: no sample exceeds it. */
  lemma {:induction false} P99OfFew(times: seq<real>)
    requires 0 < |times| <= 10
    ensures forall x :: x in times ==> x <= P99(times)
  {
  }

  /** How many elements of s are below x. */
  function CountBelow(s: seq<real>, x: real): (c: nat)
    ensures c <= |s|
  {
    if s == [] then 0 else (if s[0] < x then 1 else 0) + CountBelow(s[1..], x)
  }

  /** How many elements of s are at most x. */
  function CountAtMost(s: seq<real>, x: real): (c: nat)
    ensures c <= |s|
  {
    if s == [] then 0 else (if s[0] <= x then 1 else 0) + CountAtMost(s[1..], x)
  }

  /**
   * For more than ten samples, P99 is the sample of rank P99Index(n): at most that many
   * samples lie below it and more than that many lie at or below it, whatever order the
   * samples were recorded in.
   */
  lemma {:induction false} P99Rank(times: seq<real>)
    requires |times| > 10
    ensures var p := P99(times);
            var i := P99Index(|times|);
            CountBelow(times, p) <= i && i < CountAtMost(times, p)
  {
    var sorted := Sorting.Sort(times, RealLe);
    PositionInRange(|times|);
    RealLeTotalPreorder();
    Sorting.SortSorted(times, RealLe);
    SortedRank(sorted, P99Index(|times|));
    CountsOfPermutation(times, sorted, sorted[P99Index(|times|)]);
  }

  /** In a sorted list, at most i elements lie below the one at i and more than i at or below it. */
  lemma {:induction false} SortedRank(sorted: seq<real>, i: nat)
    requires i < |sorted| && Sorting.SortedBy(sorted, RealLe)
    ensures CountBelow(sorted, sorted[i]) <= i < CountAtMost(sorted, sorted[i])
  {
    var p := sorted[i];
    assert sorted == sorted[..i] + sorted[i..];
    CountsOfSplit(sorted[..i], sorted[i..], p);
    CountBelowNone(sorted[i..], p);
    assert sorted == sorted[..i + 1] + sorted[i + 1..];
    CountsOfSplit(sorted[..i + 1], sorted[i + 1..], p);
    CountAtMostAll(sorted[..i + 1], p);
  }

  /** Counting distributes over concatenation. */
  lemma {:induction false} CountsOfSplit(a: seq<real>, b: seq<real>, x: real)
    ensures CountBelow(a + b, x) == CountBelow(a, x) + CountBelow(b, x)
    ensures CountAtMost(a + b, x) == CountAtMost(a, x) + CountAtMost(b, x)
  {
    if a != [] {
      assert (a + b)[1..] == a[1..] + b;
      CountsOfSplit(a[1..], b, x);
    } else {
      assert a + b == b;
    }
  }

  /** A sorted stretch starting at x has nothing below x. */
  lemma {:induction false} CountBelowNone(s: seq<real>, x: real)
    requires forall j :: 0 <= j < |s| ==> x <= s[j]
    ensures CountBelow(s, x) == 0
  {
    if s != [] {
      CountBelowNone(s[1..], x);
    }
  }

  /** A sorted stretch ending at x is all at most x. */
  lemma {:induction false} CountAtMostAll(s: seq<real>, x: real)
    requires forall j :: 0 <= j < |s| ==> s[j] <= x
    ensures CountAtMost(s, x) == |s|
  {
    if s != [] {
      CountAtMostAll(s[1..], x);
    }
  }

  /** Counts depend only on which samples there are, not on their order. */
  lemma {:induction false} CountsOfPermutation(a: seq<real>, b: seq<real>, x: real)
    requires multiset(a) == multiset(b)
    ensures CountBelow(a, x) == CountBelow(b, x) && CountAtMost(a, x) == CountAtMost(b, x)
    decreases |a|
  {
    if a == [] {
      assert |b| == |multiset(b)| == 0;
    } else {
      assert a[0] in multiset(b);
      var k :| 0 <= k < |b| && b[k] == a[0];
      var b' := b[..k] + b[k + 1..];
      MultisetWithout(b, k);
      MultisetWithout(a, 0);
      assert a[..0] + a[1..] == a[1..];
      CountsOfPermutation(a[1..], b', x);
      CountsWithout(b, k, x);
    }
  }

  /** Taking out the element at k takes it out of the counts it was in. */
  lemma {:induction false} CountsWithout(b: seq<real>, k: nat, x: real)
    requires k < |b|
    ensures CountBelow(b, x) == CountBelow(b[..k] + b[k + 1..], x) + (if b[k] < x then 1 else 0)
    ensures CountAtMost(b, x) == CountAtMost(b[..k] + b[k + 1..], x) + (if b[k] <= x then 1 else 0)
  {
    assert b == b[..k] + ([b[k]] + b[k + 1..]);
    CountsOfSplit(b[..k], [b[k]] + b[k + 1..], x);
    CountsOfSplit(b[..k], b[k + 1..], x);
    assert ([b[k]] + b[k + 1..])[1..] == b[k + 1..];
  }

  lemma {:induction false} MultisetWithout(b: seq<real>, k: nat)
    requires k < |b|
    ensures multiset(b[..k] + b[k + 1..]) == multiset(b) - multiset{b[k]}
  {
    assert b == b[..k] + [b[k]] + b[k + 1..];
  }
}
