/** Picks on a node set that changes: a rebuild drops nodes, keeps others with their current weights, adds
    new ones at 0, in any new order. Single weights stay bounded because sums over sets of nodes do: a sum
    over k nodes survives the removal of others and the arrival of zeros. */
module ChangingNodes {
  import opened Arithmetic
  import opened SeqSums
  import SmoothWrr

  // ---------------------------------------------------------------- sums over sets of nodes

  ghost function SumOver(c: seq<int>, a: set<nat>): int {
    if c == [] then 0 else SumOver(c[..|c|-1], a) + if |c| - 1 in a then c[|c|-1] else 0
  }

  /** How many of the first n nodes are in `a`. */
  ghost function Size(n: nat, a: set<nat>): (k: nat)
    ensures k <= n
  {
    if n == 0 then 0 else Size(n - 1, a) + if n - 1 in a then 1 else 0
  }

  lemma {:induction false} SumOverPlus(c: seq<int>, w: seq<int>, a: set<nat>)
    requires |c| == |w|
    ensures SumOver(Plus(c, w), a) == SumOver(c, a) + SumOver(w, a)
  {
    if c != [] {
      var k := |c| - 1;
      assert Plus(c, w)[..k] == Plus(c[..k], w[..k]);
      SumOverPlus(c[..k], w[..k], a);
    }
  }

  lemma {:induction false} SumOverUpdate(c: seq<int>, i: nat, x: int, a: set<nat>)
    requires i < |c|
    ensures SumOver(c[i := x], a) == SumOver(c, a) + if i in a then x - c[i] else 0
  {
    var k := |c| - 1;
    if i == k {
      assert c[i := x][..k] == c[..k];
    } else {
      assert c[i := x][..k] == c[..k][i := x];
      SumOverUpdate(c[..k], i, x, a);
    }
  }

  lemma {:induction false} SumOverAll(c: seq<int>, a: set<nat>)
    requires Size(|c|, a) == |c|
    ensures SumOver(c, a) == Sum(c)
  {
    if c != [] {
      SumOverAll(c[..|c|-1], a);
    }
  }

  lemma {:induction false} WithOneMore(c: seq<int>, a: set<nat>, x: nat)
    requires x < |c| && x !in a
    ensures SumOver(c, a + {x}) == SumOver(c, a) + c[x]
    ensures Size(|c|, a + {x}) == Size(|c|, a) + 1
  {
    var k := |c| - 1;
    if x < k {
      WithOneMore(c[..k], a, x);
    } else {
      Beyond(c[..k], a, x);
    }
  }

  lemma {:induction false} Beyond(c: seq<int>, a: set<nat>, x: nat)
    requires x >= |c|
    ensures SumOver(c, a + {x}) == SumOver(c, a) && Size(|c|, a + {x}) == Size(|c|, a)
  {
    if c != [] {
      Beyond(c[..|c|-1], a, x);
    }
  }

  lemma {:induction false} SumOverAtMost(c: seq<int>, a: set<nat>, top: int)
    requires forall j | 0 <= j < |c| :: c[j] <= top
    ensures SumOver(c, a) <= Size(|c|, a) * top
    ensures Sum(c) - SumOver(c, a) <= (|c| - Size(|c|, a)) * top
  {
    if c != [] {
      var k := |c| - 1;
      SumOverAtMost(c[..k], a, top);
      Distribute(Size(k, a), 1, top);
      Distribute(k - Size(k, a), 1, top);
    }
  }

  lemma {:induction false} PartOfTotal(w: seq<int>, a: set<nat>)
    requires AllAtLeast(w, 0)
    ensures 0 <= SumOver(w, a) <= Sum(w)
  {
    if w != [] {
      PartOfTotal(w[..|w|-1], a);
    }
  }

  // ---------------------------------------------------------------- the invariant

  /** Twice the least and the greatest sum over k nodes, with at most n nodes and totals of at most m. */
  function Low(n: int, m: int, k: int): int { -(m * (k * (2 * n - k - 1))) }
  function High(n: int, m: int, k: int): int { m * (k * (2 * n - k + 1)) }

  ghost predicate InRange(sum: int, n: int, m: int, k: int) {
    Low(n, m, k) <= 2 * sum <= High(n, m, k)
  }

  ghost predicate Bounded(c: seq<int>, n: int, m: int) {
    |c| <= n && forall a: set<nat> :: InRange(SumOver(c, a), n, m, Size(|c|, a))
  }

  // ---------------------------------------------------------------- arithmetic

  lemma {:induction false} LowIdentity(n: int, k: int, j: int)
    ensures var q := j - k + 1;
            q * (k * (2 * n - k - 1)) - (q - 1) * ((k - 1) * (2 * n - (k - 1) - 1)) - j * (2 * n - j - 1) == q * (q - 1)
  {}

  lemma {:induction false} Scaled(m: int, p: int, p1: int, pj: int, q: int)
    requires q * p - (q - 1) * p1 - pj == q * (q - 1)
    ensures q * (m * p) - (q - 1) * (m * p1) - m * pj == m * (q * (q - 1))
  {
    assert q * (m * p) - (q - 1) * (m * p1) - m * pj == m * (q * p - (q - 1) * p1 - pj);
  }

  lemma {:induction false} LowGap(n: int, m: int, k: int, j: int)
    ensures var q := j - k + 1;
            (q - 1) * Low(n, m, k - 1) + Low(n, m, j) - q * Low(n, m, k) == m * (q * (q - 1))
  {
    var q := j - k + 1;
    LowIdentity(n, k, j);
    Scaled(m, k * (2 * n - k - 1), (k - 1) * (2 * n - (k - 1) - 1), j * (2 * n - j - 1), q);
    assert q * Low(n, m, k) == -(q * (m * (k * (2 * n - k - 1))));
    assert (q - 1) * Low(n, m, k - 1) == -((q - 1) * (m * ((k - 1) * (2 * n - (k - 1) - 1))));
  }

  lemma {:induction false} Cancel(q: int, x: int, y: int)
    requires q > 0 && q * x <= q * y
    ensures x <= y
  {
    if x > y {
      InOrder(q, y + 1, x);
      Distribute(y, 1, q);
    }
  }

  /** The picked node is in the set: what it is left with, together with the others there, is high enough. */
  lemma {:induction false} PickedStaysLow(n: int, m: int, k: int, j: int, rest: int, best: int, sum: int, total: int)
    requires 1 <= k < j <= n && 0 <= total <= m
    requires sum + total - rest <= (j - k + 1) * best
    requires 2 * rest >= Low(n, m, k - 1) && 2 * sum >= Low(n, m, j)
    ensures 2 * (rest + best - total) >= Low(n, m, k)
  {
    hide Low;
    var q := j - k + 1;
    LowGap(n, m, k, j);
    Expand(q, rest, best, total);
    InOrder(q - 1, Low(n, m, k - 1), 2 * rest);
    InOrder(q - 1, 2 * total, 2 * m);
    Room(q, m);
    Cancel(q, Low(n, m, k), 2 * (rest + best - total));
  }

  lemma {:induction false} Expand(q: int, rest: int, best: int, total: int)
    ensures q * (2 * (rest + best - total))
        == (q - 1) * (2 * rest) + 2 * rest + 2 * (q * best) - (q - 1) * (2 * total) - 2 * total
  {}

  lemma {:induction false} Room(q: int, m: int)
    requires q >= 2 && m >= 0
    ensures (q - 1) * (2 * m) <= m * (q * (q - 1))
  {
    assert m * (q * (q - 1)) - (q - 1) * (2 * m) == m * ((q - 1) * (q - 2));
    InOrder(q - 1, 0, q - 2);
    InOrder(m, 0, (q - 1) * (q - 2));
  }

  lemma {:induction false} HighGap(n: int, m: int, k: int)
    ensures (k + 1) * High(n, m, k) - k * High(n, m, k + 1) == m * (k * (k + 1))
  {
    assert (k + 1) * (k * (2 * n - k + 1)) - k * ((k + 1) * (2 * n - (k + 1) + 1)) == k * (k + 1);
    assert (k + 1) * (m * (k * (2 * n - k + 1))) - k * (m * ((k + 1) * (2 * n - (k + 1) + 1)))
        == m * ((k + 1) * (k * (2 * n - k + 1)) - k * ((k + 1) * (2 * n - (k + 1) + 1)));
  }

  /** The picked node is outside the set, and at least as high as everything in it. */
  lemma {:induction false} OthersStayHigh(n: int, m: int, k: int, part: int, best: int)
    requires 0 <= k < n && m >= 0
    requires part <= k * best && 2 * (part + best) <= High(n, m, k + 1) + 2 * m
    ensures 2 * part <= High(n, m, k)
  {
    if k > 0 {
      hide High;
      HighGap(n, m, k);
      InOrder(k, 2 * (part + best), High(n, m, k + 1) + 2 * m);
      ExpandHigh(k, part, best, High(n, m, k + 1), m);
      InOrder(k, 2, k + 1);
      InOrder(m, k * 2, k * (k + 1));
      Cancel(k + 1, 2 * part, High(n, m, k));
    }
  }

  lemma {:induction false} ExpandHigh(k: int, part: int, best: int, h: int, m: int)
    ensures k * (2 * (part + best)) == k * (2 * part) + 2 * (k * best)
    ensures (k + 1) * (2 * part) == k * (2 * part) + 2 * part
    ensures k * (h + 2 * m) == k * h + m * (k * 2)
  {}

  lemma {:induction false} WiderForMore(n: int, m: int, k: int, k': int)
    requires 0 <= k <= k' <= n && m >= 0
    ensures Low(n, m, k') <= Low(n, m, k) && High(n, m, k) <= High(n, m, k')
  {
    assert k' * (2 * n - k' - 1) - k * (2 * n - k - 1) == (k' - k) * (2 * n - k - k' - 1);
    assert k' * (2 * n - k' + 1) - k * (2 * n - k + 1) == (k' - k) * (2 * n - k - k' + 1);
    if k < k' {
      InOrder(k' - k, 0, 2 * n - k - k' - 1);
      InOrder(k' - k, 0, 2 * n - k - k' + 1);
    }
    InOrder(m, k * (2 * n - k - 1), k' * (2 * n - k' - 1));
    InOrder(m, k * (2 * n - k + 1), k' * (2 * n - k' + 1));
  }

  // ---------------------------------------------------------------- a pick

  lemma {:induction false} SumAfterPick(w: seq<int>, c: seq<int>, a: set<nat>)
    requires 0 < |c| == |w|
    ensures SumOver(SmoothWrr.Next(w, c), a)
              == SumOver(c, a) + SumOver(w, a) - if SmoothWrr.Winner(w, c) in a then Sum(w) else 0
  {
    hide SmoothWrr.Winner, SumOver, Sum;
    var b := SmoothWrr.Winner(w, c);
    SumOverPlus(c, w, a);
    SumOverUpdate(Plus(c, w), b, c[b] + w[b] - Sum(w), a);
  }

  lemma {:induction false} PickKeepsRange(w: seq<int>, c: seq<int>, n: int, m: int, a: set<nat>)
    requires 0 < |c| == |w| && Bounded(c, n, m) && AllAtLeast(w, 0) && Sum(w) <= m
    ensures InRange(SumOver(SmoothWrr.Next(w, c), a), n, m, Size(|c|, a))
  {
    hide SmoothWrr.Winner, SmoothWrr.Next, SumOver, Size, Sum, Low, High;
    SumAfterPick(w, c, a);
    PartOfTotal(w, a);
    if SmoothWrr.Winner(w, c) in a {
      PickInside(w, c, n, m, a);
    } else {
      PickOutside(w, c, n, m, a);
    }
  }

  lemma {:induction false} PickInside(w: seq<int>, c: seq<int>, n: int, m: int, a: set<nat>)
    requires 0 < |c| == |w| && Bounded(c, n, m) && AllAtLeast(w, 0) && Sum(w) <= m
    requires SmoothWrr.Winner(w, c) in a
    ensures 2 * (SumOver(c, a) + SumOver(w, a) - Sum(w)) >= Low(n, m, Size(|c|, a))
  {
    hide SmoothWrr.FirstMax, SumOver, Size, Sum, Low, High;
    var b, r, k := SmoothWrr.Winner(w, c), Plus(c, w), Size(|c|, a);
    if k == |c| {
      SumOverAll(w, a);
    } else {
      var others := a - {b};
      assert others + {b} == a;
      WithOneMore(r, others, b);
      SumOverPlus(c, w, others);
      SumOverPlus(c, w, a);
      PartOfTotal(w, others);
      SumOverAtMost(r, others, r[b]);
      SumPlus(c, w);
      WholeInRange(c, n, m);
      PartOfTotal(w, a);
      assert InRange(SumOver(c, others), n, m, Size(|c|, others));
      PickedStaysLow(n, m, k, |c|, SumOver(r, others), r[b], Sum(c), Sum(w));
    }
  }

  ghost function FirstNodes(k: nat): (a: set<nat>)
    ensures forall i: nat | i < k :: i in a
  {
    if k == 0 then {} else FirstNodes(k - 1) + {k - 1}
  }

  lemma {:induction false} WholeInRange(c: seq<int>, n: int, m: int)
    requires Bounded(c, n, m)
    ensures InRange(Sum(c), n, m, |c|)
  {
    hide InRange;
    var all := FirstNodes(|c|);
    AllCounted(|c|, all);
    SumOverAll(c, all);
    assert InRange(SumOver(c, all), n, m, Size(|c|, all));
  }

  lemma {:induction false} AllCounted(k: nat, a: set<nat>)
    requires forall i: nat | i < k :: i in a
    ensures Size(k, a) == k
  {
    if k > 0 {
      AllCounted(k - 1, a);
    }
  }

  lemma {:induction false} NotAll(k: nat, a: set<nat>, x: nat)
    requires x < k && x !in a
    ensures Size(k, a) < k
  {
    if x < k - 1 {
      NotAll(k - 1, a, x);
    }
  }

  lemma {:induction false} PickOutside(w: seq<int>, c: seq<int>, n: int, m: int, a: set<nat>)
    requires 0 < |c| == |w| && Bounded(c, n, m) && AllAtLeast(w, 0) && Sum(w) <= m
    requires SmoothWrr.Winner(w, c) !in a
    ensures 2 * (SumOver(c, a) + SumOver(w, a)) <= High(n, m, Size(|c|, a))
  {
    hide SmoothWrr.FirstMax, SumOver, Size, Sum, Low, High;
    var b, r, k := SmoothWrr.Winner(w, c), Plus(c, w), Size(|c|, a);
    NotAll(|c|, a, b);
    WithOneMore(r, a, b);
    SumOverPlus(c, w, a);
    SumOverPlus(c, w, a + {b});
    PartOfTotal(w, a + {b});
    SumOverAtMost(r, a, r[b]);
    assert InRange(SumOver(c, a + {b}), n, m, Size(|c|, a + {b}));
    PartOfTotal(w, a);
    OthersStayHigh(n, m, k, SumOver(r, a), r[b]);
  }

  lemma {:induction false} PickKeepsBounded(w: seq<int>, c: seq<int>, n: int, m: int)
    requires 0 < |c| == |w| && Bounded(c, n, m) && AllAtLeast(w, 0) && Sum(w) <= m
    ensures Bounded(SmoothWrr.Next(w, c), n, m)
  {
    hide InRange, SmoothWrr.Next, Sum;
    forall a: set<nat> ensures InRange(SumOver(SmoothWrr.Next(w, c), a), n, m, Size(|c|, a)) {
      PickKeepsRange(w, c, n, m, a);
    }
  }

  // ---------------------------------------------------------------- a rebuild

  const NEW := -1

  /** A rebuild of n0 nodes: each new place names the old node it takes over, or is new. */
  ghost predicate Takeover(from: seq<int>, n0: nat) {
    && (forall i | 0 <= i < |from| :: NEW <= from[i] < n0)
    && (forall i, j | 0 <= i < j < |from| && from[i] != NEW :: from[i] != from[j])
  }

  function Rebuilt(c: seq<int>, from: seq<int>): (c': seq<int>)
    requires forall i | 0 <= i < |from| :: NEW <= from[i] < |c|
    ensures |c'| == |from|
  {
    seq(|from|, i requires 0 <= i < |from| => if from[i] == NEW then 0 else c[from[i]])
  }

  /** The old nodes that the places `a` took over. */
  ghost function Sources(from: seq<int>, a: set<nat>): set<nat>
    requires forall i | 0 <= i < |from| :: NEW <= from[i]
  {
    set i: nat | i < |from| && i in a && from[i] != NEW :: from[i]
  }

  lemma {:induction false} RebuiltSum(c: seq<int>, from: seq<int>, a: set<nat>)
    requires Takeover(from, |c|)
    ensures SumOver(Rebuilt(c, from), a) == SumOver(c, Sources(from, a))
    ensures Size(|c|, Sources(from, a)) <= Size(|from|, a)
  {
    hide SumOver, Size;
    if from == [] {
      NoneLeft(c, Rebuilt(c, from), a);
      assert Sources(from, a) == {};
    } else {
      var k := |from| - 1;
      var init := from[..k];
      RebuiltSum(c, init, a);
      assert Rebuilt(c, from)[..k] == Rebuilt(c, init);
      LastPlace(Rebuilt(c, from), a);
      if k in a && from[k] != NEW {
        assert Sources(from, a) == Sources(init, a) + {from[k]};
        WithOneMore(c, Sources(init, a), from[k]);
      } else {
        assert Sources(from, a) == Sources(init, a);
      }
    }
  }

  lemma {:induction false} NoneLeft(c: seq<int>, d: seq<int>, a: set<nat>)
    requires d == []
    ensures SumOver(d, a) == 0 == Size(0, a) && SumOver(c, {}) == 0 == Size(|c|, {})
  {
    if c != [] {
      NoneLeft(c[..|c|-1], d, a);
    }
  }

  lemma {:induction false} LastPlace(c: seq<int>, a: set<nat>)
    requires c != []
    ensures var k := |c| - 1;
            && SumOver(c, a) == SumOver(c[..k], a) + (if k in a then c[k] else 0)
            && Size(|c|, a) == Size(k, a) + if k in a then 1 else 0
  {}

  lemma {:induction false} RebuildKeepsBounded(c: seq<int>, from: seq<int>, n: int, m: int)
    requires Bounded(c, n, m) && Takeover(from, |c|) && |from| <= n && m >= 0
    ensures Bounded(Rebuilt(c, from), n, m)
  {
    hide SumOver, Size, Low, High, Sources;
    forall a: set<nat> ensures InRange(SumOver(Rebuilt(c, from), a), n, m, Size(|from|, a)) {
      RebuiltSum(c, from, a);
      WiderForMore(n, m, Size(|c|, Sources(from, a)), Size(|from|, a));
      assert InRange(SumOver(c, Sources(from, a)), n, m, Size(|c|, Sources(from, a)));
    }
  }

  // ---------------------------------------------------------------- every run

  datatype Change = Pick(w: seq<int>) | Rebuild(from: seq<int>)

  /** Never more than n nodes, no pick reads a weight below 1 or a total above m. */
  ghost predicate Allowed(c: seq<int>, ch: Change, n: int, m: int) {
    match ch
    case Pick(w) => 0 < |c| == |w| && AllAtLeast(w, 1) && Sum(w) <= m
    case Rebuild(from) => Takeover(from, |c|) && |from| <= n
  }

  function Changed(c: seq<int>, ch: Change): seq<int>
    requires ch.Pick? ==> 0 < |c| == |ch.w|
    requires ch.Rebuild? ==> forall i | 0 <= i < |ch.from| :: NEW <= ch.from[i] < |c|
  {
    match ch
    case Pick(w) => SmoothWrr.Next(w, c)
    case Rebuild(from) => Rebuilt(c, from)
  }

  ghost predicate Reaches(c: seq<int>, chs: seq<Change>, c': seq<int>, n: int, m: int)
    decreases |chs|
  {
    if chs == [] then c' == c
    else
      && Allowed(c, chs[0], n, m)
      && Reaches(Changed(c, chs[0]), chs[1..], c', n, m)
  }

  lemma {:induction false} OneMore(c: seq<int>, chs: seq<Change>, c': seq<int>, ch: Change, n: int, m: int)
    requires Reaches(c, chs, c', n, m) && Allowed(c', ch, n, m)
    ensures Reaches(c, chs + [ch], Changed(c', ch), n, m)
    decreases |chs|
  {
    hide SmoothWrr.Next, Sum, Rebuilt;
    if chs == [] {
      assert chs + [ch] == [ch] && [ch][1..] == [];
      assert Reaches(Changed(c', ch), [], Changed(c', ch), n, m);
    } else {
      OneMore(Changed(c, chs[0]), chs[1..], c', ch, n, m);
      assert (chs + [ch])[1..] == chs[1..] + [ch];
    }
  }

  lemma {:induction false} RunKeepsBounded(c: seq<int>, chs: seq<Change>, c': seq<int>, n: int, m: int)
    requires Bounded(c, n, m) && m >= 0 && Reaches(c, chs, c', n, m)
    ensures Bounded(c', n, m)
    decreases |chs|
  {
    hide Bounded, SmoothWrr.Next, Sum;
    if chs != [] {
      match chs[0] {
        case Pick(w) =>
          PickKeepsBounded(w, c, n, m);
          RunKeepsBounded(SmoothWrr.Next(w, c), chs[1..], c', n, m);
        case Rebuild(from) =>
          RebuildKeepsBounded(c, from, n, m);
          RunKeepsBounded(Rebuilt(c, from), chs[1..], c', n, m);
      }
    }
  }

  lemma {:induction false} OneNode(c: seq<int>, i: nat)
    requires i < |c|
    ensures SumOver(c, {i}) == c[i] && Size(|c|, {i}) == 1
  {
    NoneLeft(c, [], {});
    WithOneMore(c, {}, i);
    assert {} + {i} == {i};
  }

  /** Nodes may come and go between any two picks, and weights may change at any time. With never more than
      n nodes and no total above m, every current weight stays within [-(n-1)m, nm]. */
  lemma {:induction false} ChangingNodesStayBounded(chs: seq<Change>, c: seq<int>, n: nat, m: int, i: nat)
    requires Reaches([], chs, c, n, m) && m >= 0 && i < |c|
    ensures |c| <= n && -((n - 1) * m) <= c[i] <= n * m
  {
    hide SumOver, Size, Low, High, Reaches;
    NothingYet(n, m);
    RunKeepsBounded([], chs, c, n, m);
    OneNode(c, i);
    assert InRange(SumOver(c, {i}), n, m, Size(|c|, {i}));
    RangeOfOne(n, m);
  }

  lemma {:induction false} NothingYet(n: nat, m: int)
    ensures Bounded([], n, m)
  {
    hide SumOver, Size;
    forall a: set<nat> ensures InRange(SumOver([], a), n, m, Size(0, a)) {
      NoneLeft([], [], a);
    }
  }

  lemma {:induction false} RangeOfOne(n: int, m: int)
    ensures Low(n, m, 1) == -2 * ((n - 1) * m) && High(n, m, 1) == 2 * (n * m)
  {}

  /** Hence with (n + 1) * m within int64 no addition of any pick on the way overflows. */
  lemma {:induction false} NoOverflow(chs: seq<Change>, c: seq<int>, w: seq<int>, n: nat, m: int, i: nat)
    requires Reaches([], chs, c, n, m) && Allowed(c, Pick(w), n, m) && i < |c|
    requires (n + 1) * m <= INT64_MAX
    ensures -INT64_MAX <= c[i] <= INT64_MAX
    ensures -INT64_MAX <= c[i] + w[i] <= INT64_MAX
    ensures 1 <= Sum(w[..i + 1]) <= Sum(w) <= INT64_MAX
    ensures -INT64_MAX <= SmoothWrr.Next(w, c)[i] <= INT64_MAX
  {
    hide Reaches, Sum, SmoothWrr.Next;
    SumAtLeast(w, 1);
    OneMore([], chs, c, Pick(w), n, m);
    ChangingNodesStayBounded(chs + [Pick(w)], SmoothWrr.Next(w, c), n, m, i);
    ElementAtMost(w, 1, i);
    ChangingNodesStayBounded(chs, c, n, m, i);
    SmoothWrr.PrefixSum(w, i + 1);
    Distribute(n, 1, m);
    Distribute(n - 1, 1, m);
    InOrder(n, 0, m);
  }
}
