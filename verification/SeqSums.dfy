/** Sums over sequences of integers, shared by the sequential and the concurrent picker. */
module SeqSums {

  function Sum(s: seq<int>): int {
    if s == [] then 0 else Sum(s[..|s|-1]) + s[|s|-1]
  }

  predicate AllAtLeast(s: seq<int>, lo: int) {
    forall i | 0 <= i < |s| :: lo <= s[i]
  }

  function Zeros(n: nat): (z: seq<int>)
    ensures |z| == n
    ensures forall i | 0 <= i < n :: z[i] == 0
  {
    seq(n, _ => 0)
  }

  lemma {:induction false} SumAppend(s: seq<int>, x: int)
    ensures Sum(s + [x]) == Sum(s) + x
  {
    assert (s + [x])[..|s|] == s;
  }

  /** Changing one element changes the sum by the difference. */
  lemma {:induction false} SumUpdate(s: seq<int>, i: nat, x: int)
    requires i < |s|
    ensures Sum(s[i := x]) == Sum(s) - s[i] + x
  {
    var last := |s| - 1;
    if i == last {
      assert s[i := x][..last] == s[..last];
    } else {
      assert s[i := x][..last] == s[..last][i := x];
      SumUpdate(s[..last], i, x);
    }
  }

  lemma {:induction false} SumZeros(n: nat)
    ensures Sum(Zeros(n)) == 0
  {
    if n > 0 {
      assert Zeros(n)[..n-1] == Zeros(n-1);
      SumZeros(n - 1);
    }
  }

  /** Pointwise addition. */
  function Plus(a: seq<int>, b: seq<int>): (r: seq<int>)
    requires |a| == |b|
    ensures |r| == |a|
    ensures forall i | 0 <= i < |a| :: r[i] == a[i] + b[i]
  {
    seq(|a|, i requires 0 <= i < |a| => a[i] + b[i])
  }

  lemma {:induction false} SumPlus(a: seq<int>, b: seq<int>)
    requires |a| == |b|
    ensures Sum(Plus(a, b)) == Sum(a) + Sum(b)
  {
    if a != [] {
      var k := |a| - 1;
      assert Plus(a, b)[..k] == Plus(a[..k], b[..k]);
      SumPlus(a[..k], b[..k]);
    }
  }

  lemma {:induction false} SumAtLeast(s: seq<int>, lo: int)
    requires AllAtLeast(s, lo)
    ensures |s| * lo <= Sum(s)
  {
    if s != [] {
      SumAtLeast(s[..|s|-1], lo);
      assert |s| * lo == (|s| - 1) * lo + lo;
    }
  }

  /** A common lower bound leaves each element at most what the others do not need. */
  lemma {:induction false} ElementAtMost(s: seq<int>, lo: int, i: nat)
    requires AllAtLeast(s, lo) && i < |s|
    ensures s[i] <= Sum(s) - (|s| - 1) * lo
  {
    SumUpdate(s, i, lo);
    SumAtLeast(s[i := lo], lo);
    assert |s| * lo == (|s| - 1) * lo + lo;
  }

  /** The maximum is at least the average. */
  lemma {:induction false} SumAtMost(s: seq<int>, hi: int)
    requires forall i | 0 <= i < |s| :: s[i] <= hi
    ensures Sum(s) <= |s| * hi
  {
    if s != [] {
      SumAtMost(s[..|s|-1], hi);
      assert |s| * hi == (|s| - 1) * hi + hi;
    }
  }

  /** Pointwise order with equal sums is equality. */
  lemma {:induction false} DominatedWithEqualSums(a: seq<int>, b: seq<int>)
    requires |a| == |b| && Sum(a) == Sum(b)
    requires forall i | 0 <= i < |a| :: a[i] <= b[i]
    ensures a == b
  {
    var d := seq(|a|, i requires 0 <= i < |a| => b[i] - a[i]);
    assert Plus(a, d) == b;
    SumPlus(a, d);
    forall i | 0 <= i < |a| ensures a[i] == b[i] {
      ElementAtMost(d, 0, i);
    }
  }
}
