/** What one `picker.pick` does to the weights, and what every sequence of picks therefore does.
    A picker over n nodes is its vector `c` of current weights; a pick reads a vector `w` of
    effective weights, each once. */
module SmoothWrr {
  import opened Arithmetic
  import opened SeqSums

  /** Index of the maximum; ties go to the first node in the slice. */
  function FirstMax(a: seq<int>): (b: nat)
    requires |a| > 0
    ensures b < |a|
    ensures forall i | 0 <= i < |a| :: a[i] <= a[b]
    ensures forall i | 0 <= i < b :: a[i] < a[b]
  {
    if |a| == 1 then 0
    else
      var b := FirstMax(a[..|a|-1]);
      if a[|a|-1] > a[b] then |a| - 1 else b
  }

  function Winner(w: seq<int>, c: seq<int>): (b: nat)
    requires 0 < |c| == |w|
    ensures b < |c|
  {
    FirstMax(Plus(c, w))
  }

  function Next(w: seq<int>, c: seq<int>): (r: seq<int>)
    requires 0 < |c| == |w|
    ensures |r| == |c|
  {
    var b := Winner(w, c);
    Plus(c, w)[b := c[b] + w[b] - Sum(w)]
  }

  /** 1 when the pick goes to node i, else 0. */
  function Hit(w: seq<int>, c: seq<int>, i: nat): int
    requires 0 < |c| == |w|
  {
    if Winner(w, c) == i then 1 else 0
  }

  /** The weights each successive pick reads. */
  type Schedule = nat -> seq<int>

  ghost predicate Widths(ws: Schedule, n: nat) {
    forall t: nat :: |ws(t)| == n
  }

  function Always(w: seq<int>): (ws: Schedule)
    ensures Widths(ws, |w|)
  {
    _ => w
  }

  /** Current weights after the first k picks. */
  ghost function After(ws: Schedule, c: seq<int>, k: nat): (r: seq<int>)
    requires |c| > 0 && Widths(ws, |c|)
    ensures |r| == |c|
  {
    if k == 0 then c else Next(ws(k - 1), After(ws, c, k - 1))
  }

  /** How often node i was chosen in the first k picks. */
  ghost function Hits(ws: Schedule, c: seq<int>, k: nat, i: nat): nat
    requires |c| > 0 && Widths(ws, |c|)
  {
    if k == 0 then 0 else Hits(ws, c, k - 1, i) + Hit(ws(k - 1), After(ws, c, k - 1), i)
  }

  // ---------------------------------------------------------------- one pick

  lemma {:induction false} NextKeepsSum(w: seq<int>, c: seq<int>)
    requires 0 < |c| == |w|
    ensures Sum(Next(w, c)) == Sum(c)
  {
    SumPlus(c, w);
    var b := Winner(w, c);
    SumUpdate(Plus(c, w), b, c[b] + w[b] - Sum(w));
  }

  /** `lo` survives a pick with weights `w` when the average raised weight exceeds lo + W - 1. */
  ghost predicate FloorFits(w: seq<int>, n: nat, total: int, lo: int) {
    n * (lo + Sum(w) - 1) < total + Sum(w)
  }

  lemma {:induction false} NextKeepsFloor(w: seq<int>, c: seq<int>, lo: int)
    requires 0 < |c| == |w| && AllAtLeast(w, 0) && AllAtLeast(c, lo)
    requires FloorFits(w, |c|, Sum(c), lo)
    ensures AllAtLeast(Next(w, c), lo)
  {
    var b := Winner(w, c);
    SumPlus(c, w);
    SumAtMost(Plus(c, w), c[b] + w[b]);
    MultiplesInOrder(|c|, lo + Sum(w) - 1, c[b] + w[b]);
  }

  lemma {:induction false} MultiplesInOrder(n: nat, a: int, b: int)
    requires n * a < n * b
    ensures a < b
  {
    if b <= a {
      InOrder(n, b, a);
    }
  }

  // ---------------------------------------------------------------- every run

  /** Conservation: no sequence of picks, whatever weights it reads, changes the sum of `cwt`. */
  lemma {:induction false} PicksKeepSum(ws: Schedule, c: seq<int>, k: nat)
    requires |c| > 0 && Widths(ws, |c|)
    ensures Sum(After(ws, c, k)) == Sum(c)
  {
    if k > 0 {
      PicksKeepSum(ws, c, k - 1);
      NextKeepsSum(ws(k - 1), After(ws, c, k - 1));
    }
  }

  lemma {:induction false} PicksKeepFloor(ws: Schedule, c: seq<int>, k: nat, lo: int)
    requires |c| > 0 && Widths(ws, |c|) && AllAtLeast(c, lo)
    requires forall t: nat :: AllAtLeast(ws(t), 0) && FloorFits(ws(t), |c|, Sum(c), lo)
    ensures AllAtLeast(After(ws, c, k), lo)
  {
    hide FloorFits, Next, Sum;
    if k > 0 {
      PicksKeepFloor(ws, c, k - 1, lo);
      PicksKeepSum(ws, c, k - 1);
      NextKeepsFloor(ws(k - 1), After(ws, c, k - 1), lo);
    }
  }

  /** The hit counts of all nodes. */
  ghost function Tally(ws: Schedule, c: seq<int>, k: nat): (t: seq<int>)
    requires |c| > 0 && Widths(ws, |c|)
    ensures |t| == |c| && forall i | 0 <= i < |c| :: t[i] == Hits(ws, c, k, i)
  {
    seq(|c|, i requires 0 <= i < |c| => Hits(ws, c, k, i))
  }

  /** Every pick is counted at exactly one node. */
  lemma {:induction false} TallySum(ws: Schedule, c: seq<int>, k: nat)
    requires |c| > 0 && Widths(ws, |c|)
    ensures Sum(Tally(ws, c, k)) == k
  {
    hide Next, Winner;
    if k == 0 {
      assert Tally(ws, c, 0) == Zeros(|c|);
      SumZeros(|c|);
    } else {
      TallySum(ws, c, k - 1);
      var before, b := Tally(ws, c, k - 1), Winner(ws(k - 1), After(ws, c, k - 1));
      assert Tally(ws, c, k) == before[b := before[b] + 1];
      SumUpdate(before, b, before[b] + 1);
    }
  }

  /** Accounting identity: a node's weight is what it earned minus what its picks cost. */
  lemma {:induction false} Ledger(w: seq<int>, c: seq<int>, k: nat, i: nat)
    requires 0 < |c| == |w| && i < |c|
    ensures After(Always(w), c, k)[i] == c[i] + k * w[i] - Hits(Always(w), c, k, i) * Sum(w)
  {
    hide Winner, Next;
    if k > 0 {
      Ledger(w, c, k - 1, i);
      var before := After(Always(w), c, k - 1);
      NextAt(w, before, i);
      Distribute(k - 1, 1, w[i]);
      Distribute(Hits(Always(w), c, k - 1, i), Hit(w, before, i), Sum(w));
    }
  }

  lemma {:induction false} NextAt(w: seq<int>, c: seq<int>, i: nat)
    requires 0 < |c| == |w| && i < |c|
    ensures Next(w, c)[i] == c[i] + w[i] - Hit(w, c, i) * Sum(w)
  {
    hide Winner, Sum;
  }

  lemma {:induction false} AfterSplit(w: seq<int>, c: seq<int>, j: nat, k: nat)
    requires 0 < |c| == |w|
    ensures After(Always(w), c, j + k) == After(Always(w), After(Always(w), c, j), k)
  {
    hide Next, Winner;
    if k > 0 {
      AfterSplit(w, c, j, k - 1);
    }
  }

  // ---------------------------------------------------------------- exact period

  lemma {:induction false} ZeroStartFloor(w: seq<int>, k: nat)
    requires |w| > 0 && AllAtLeast(w, 1)
    ensures Sum(w) >= 1
    ensures AllAtLeast(After(Always(w), Zeros(|w|), k), 1 - Sum(w))
  {
    SumZeros(|w|);
    SumAtLeast(w, 1);
    PicksKeepFloor(Always(w), Zeros(|w|), k, 1 - Sum(w));
  }

  lemma {:induction false} ShareAtPeriod(w: seq<int>, i: nat)
    requires i < |w| && AllAtLeast(w, 1) && Sum(w) >= 1
    ensures After(Always(w), Zeros(|w|), Sum(w))[i] == (w[i] - Hits(Always(w), Zeros(|w|), Sum(w), i)) * Sum(w)
    ensures Hits(Always(w), Zeros(|w|), Sum(w), i) <= w[i]
  {
    Ledger(w, Zeros(|w|), Sum(w), i);
    ZeroStartFloor(w, Sum(w));
    ShareBound(w[i], Hits(Always(w), Zeros(|w|), Sum(w), i), Sum(w));
  }

  lemma {:induction false} ShareBound(w: int, hits: int, total: int)
    requires total >= 1 && total * w - hits * total >= 1 - total
    ensures total * w - hits * total == (w - hits) * total && hits <= w
  {
    Distribute(w - hits, hits, total);
    if hits > w {
      InOrder(total, w - hits, -1);
    }
  }

  /** From fresh nodes, W picks serve each node exactly `ewt` times and restore the start. */
  lemma {:induction false} ExactPeriod(w: seq<int>)
    requires |w| > 0 && AllAtLeast(w, 1)
    ensures Sum(w) >= 1
    ensures After(Always(w), Zeros(|w|), Sum(w)) == Zeros(|w|)
    ensures forall i | 0 <= i < |w| :: Hits(Always(w), Zeros(|w|), Sum(w), i) == w[i]
  {
    hide After, Hits, Sum, Always;
    SumAtLeast(w, 1);
    var end, hits := After(Always(w), Zeros(|w|), Sum(w)), Tally(Always(w), Zeros(|w|), Sum(w));
    TallySum(Always(w), Zeros(|w|), Sum(w));
    forall i | 0 <= i < |w| ensures end[i] == (w[i] - hits[i]) * Sum(w) && hits[i] <= w[i] {
      ShareAtPeriod(w, i);
    }
    DominatedWithEqualSums(hits, w);
  }

  /** The sequence of picks repeats with period W, and any W consecutive picks,
      wherever they start, contain node i exactly `w[i]` times. */
  lemma {:induction false} EveryWindowIsExact(w: seq<int>, k: nat)
    requires |w| > 0 && AllAtLeast(w, 1)
    ensures Sum(w) >= 1
    ensures Winner(w, After(Always(w), Zeros(|w|), Sum(w) + k)) == Winner(w, After(Always(w), Zeros(|w|), k))
    ensures forall i | 0 <= i < |w| ::
              Hits(Always(w), Zeros(|w|), Sum(w) + k, i) == Hits(Always(w), Zeros(|w|), k, i) + w[i]
  {
    hide After, Hits, Next, Winner, Sum;
    ExactPeriod(w);
    AfterSplit(w, Zeros(|w|), Sum(w), k);
    forall i | 0 <= i < |w|
      ensures Hits(Always(w), Zeros(|w|), Sum(w) + k, i) == Hits(Always(w), Zeros(|w|), k, i) + w[i]
    {
      WindowShare(w, Zeros(|w|), k, i);
    }
  }

  lemma {:induction false} WindowShare(w: seq<int>, c: seq<int>, k: nat, i: nat)
    requires 0 < |c| == |w| && i < |c| && Sum(w) >= 1
    requires After(Always(w), c, Sum(w) + k) == After(Always(w), c, k)
    ensures Hits(Always(w), c, Sum(w) + k, i) == Hits(Always(w), c, k, i) + w[i]
  {
    hide After, Hits, Sum;
    Ledger(w, c, Sum(w) + k, i);
    Ledger(w, c, k, i);
    EqualMultiples(Sum(w), k, w[i], Hits(Always(w), c, Sum(w) + k, i), Hits(Always(w), c, k, i));
  }

  lemma {:induction false} EqualMultiples(total: int, k: int, x: int, a: int, b: int)
    requires total > 0 && (total + k) * x - a * total == k * x - b * total
    ensures a == b + x
  {
    assert (total + k) * x == total * x + k * x;
    assert (x - (a - b)) * total == 0;
  }

  /** Smoothness: after any number of picks no node is a full pick ahead of its share. */
  lemma {:induction false} NeverAFullPickAhead(w: seq<int>, k: nat, i: nat)
    requires i < |w| && AllAtLeast(w, 1)
    ensures Hits(Always(w), Zeros(|w|), k, i) * Sum(w) < k * w[i] + Sum(w)
  {
    ZeroStartFloor(w, k);
    Ledger(w, Zeros(|w|), k, i);
  }

  // ---------------------------------------------------------------- from any state

  function CeilDiv(a: int, n: int): (q: int)
    requires n > 0
    ensures n * (q - 1) < a <= n * q
  {
    if a % n == 0 then a / n else a / n + 1
  }

  function Min(s: seq<int>): (m: int)
    requires |s| > 0
    ensures m in s && AllAtLeast(s, m)
  {
    if |s| == 1 then s[0]
    else
      var m := Min(s[..|s|-1]);
      if s[|s|-1] < m then s[|s|-1] else m
  }

  /** The floor that any starting state has: its least weight, or what a winner is left with. */
  function FloorOf(w: seq<int>, c: seq<int>): int
    requires 0 < |c| == |w|
  {
    var afterWin := CeilDiv(Sum(c) + Sum(w), |c|) - Sum(w);
    if Min(c) < afterWin then Min(c) else afterWin
  }

  lemma {:induction false} FloorOfIsFloor(w: seq<int>, c: seq<int>)
    requires 0 < |c| == |w|
    ensures AllAtLeast(c, FloorOf(w, c)) && FloorFits(w, |c|, Sum(c), FloorOf(w, c))
  {
    var n, lo, q := |c|, FloorOf(w, c), CeilDiv(Sum(c) + Sum(w), |c|);
    InOrder(n, lo + Sum(w) - 1, q - 1);
  }

  /** Whatever `cwt` a rebuild or a recompute left behind, every weight stays in a fixed band. */
  lemma {:induction false} WeightsStayInBand(w: seq<int>, c: seq<int>, k: nat, i: nat)
    requires 0 < |c| == |w| && i < |c| && AllAtLeast(w, 0)
    ensures FloorOf(w, c) <= After(Always(w), c, k)[i] <= Sum(c) - (|c| - 1) * FloorOf(w, c)
  {
    FloorOfIsFloor(w, c);
    PicksKeepFloor(Always(w), c, k, FloorOf(w, c));
    PicksKeepSum(Always(w), c, k);
    ElementAtMost(After(Always(w), c, k), FloorOf(w, c), i);
  }

  /** Width of that band: it does not depend on how many picks are made. */
  function Band(w: seq<int>, c: seq<int>): int
    requires 0 < |c| == |w|
  {
    Sum(c) - (|c| - 1) * FloorOf(w, c) - FloorOf(w, c)
  }

  /** Long-run share: picks of node i times W never stray further than `Band` from k times `w[i]`. */
  lemma {:induction false} DeviationIsBounded(w: seq<int>, c: seq<int>, k: nat, i: nat)
    requires 0 < |c| == |w| && i < |c| && AllAtLeast(w, 0)
    ensures -Band(w, c) <= Hits(Always(w), c, k, i) * Sum(w) - k * w[i] <= Band(w, c)
  {
    Ledger(w, c, k, i);
    WeightsStayInBand(w, c, k, i);
    WeightsStayInBand(w, c, 0, i);
  }

  /** No starvation: from any state, node i is picked within any `gap` picks with gap * w[i] > Band. */
  lemma {:induction false} NoStarvation(w: seq<int>, c: seq<int>, k: nat, gap: nat, i: nat)
    requires 0 < |c| == |w| && i < |c| && AllAtLeast(w, 0)
    requires gap * w[i] > Band(w, c)
    ensures Hits(Always(w), c, k + gap, i) > Hits(Always(w), c, k, i)
  {
    hide After, Hits, Sum, FloorOf;
    Ledger(w, c, k, i);
    Ledger(w, c, k + gap, i);
    WeightsStayInBand(w, c, k, i);
    WeightsStayInBand(w, c, k + gap, i);
    HitsGrow(w, c, k, gap, i);
    Distribute(k, gap, w[i]);
  }

  lemma {:induction false} HitsGrow(w: seq<int>, c: seq<int>, k: nat, gap: nat, i: nat)
    requires 0 < |c| == |w|
    ensures Hits(Always(w), c, k, i) <= Hits(Always(w), c, k + gap, i)
  {
    hide Next, Winner;
    if gap > 0 {
      HitsGrow(w, c, k, gap - 1, i);
    }
  }

  // ---------------------------------------------------------------- weights that change

  /** No pick reads a weight below 1 or a total above m. */
  ghost predicate Within(ws: Schedule, m: int) {
    forall t: nat :: AllAtLeast(ws(t), 1) && Sum(ws(t)) <= m
  }

  /** Fresh nodes, with `recompute` free to store other weights before, between and within picks:
      if no pick reads a total above m, every `cwt` stays within [1 - m, (n-1)(m-1)]. */
  lemma {:induction false} ChangingWeightsStayBounded(ws: Schedule, n: nat, k: nat, m: int, i: nat)
    requires i < n && Widths(ws, n) && Within(ws, m)
    ensures 1 - m <= After(ws, Zeros(n), k)[i] <= (n - 1) * (m - 1)
  {
    hide FloorFits, Sum, After;
    SumZeros(n);
    forall t: nat ensures AllAtLeast(ws(t), 0) && FloorFits(ws(t), n, 0, 1 - m) {
      WithinFits(ws(t), n, m);
    }
    WithinFits(ws(0), n, m);
    PicksKeepFloor(ws, Zeros(n), k, 1 - m);
    PicksKeepSum(ws, Zeros(n), k);
    ElementAtMost(After(ws, Zeros(n), k), 1 - m, i);
    Negated(n - 1, m - 1);
  }

  lemma {:induction false} WithinFits(w: seq<int>, n: nat, m: int)
    requires n == |w| > 0 && AllAtLeast(w, 1) && Sum(w) <= m
    ensures FloorFits(w, n, 0, 1 - m) && m >= 1 && Sum(w) >= 1
  {
    SumAtLeast(w, 1);
    hide Sum;
    InOrder(n, Sum(w) - m, 0);
  }

  lemma {:induction false} PrefixSum(s: seq<int>, j: nat)
    requires 1 <= j <= |s| && AllAtLeast(s, 1)
    ensures 1 <= Sum(s[..j]) <= Sum(s)
  {
    if j == |s| {
      assert s[..j] == s;
      SumAtLeast(s, 1);
    } else {
      assert s[..j] == s[..|s|-1][..j];
      PrefixSum(s[..|s|-1], j);
    }
  }
}
