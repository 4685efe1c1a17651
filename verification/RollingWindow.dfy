/** The per-node sliding window: a ring of time buckets, and the plain log of samples it stands for. */
module RollingWindow {
  import opened Arithmetic
  import opened SeqSums

  datatype Bucket = Bucket(sum: int, count: int)

  const EMPTY := Bucket(0, 0)

  function Merge(a: Bucket, b: Bucket): Bucket {
    Bucket(a.sum + b.sum, a.count + b.count)
  }

  /** The value of a window object. */
  datatype Ring = Ring(buckets: seq<Bucket>, lastIdx: nat, lastStart: int)

  ghost predicate RingOk(r: Ring) {
    r.lastIdx < |r.buckets|
  }

  function Fresh(n: nat, now: int): Ring {
    Ring(seq(n, _ => EMPTY), 0, now)
  }

  /** Integer division as Go does it: truncated toward zero. */
  function TruncDiv(a: int, d: int): int
    requires d > 0
  {
    if a >= 0 then a / d else -((-a) / d)
  }

  /** Move to the next bucket and empty it. */
  function Bump(r: Ring, width: int): (r': Ring)
    requires RingOk(r)
    ensures RingOk(r') && |r'.buckets| == |r.buckets|
  {
    var idx := (r.lastIdx + 1) % |r.buckets|;
    Ring(r.buckets[idx := EMPTY], idx, r.lastStart + width)
  }

  function Bumps(r: Ring, width: int, steps: nat): (r': Ring)
    requires RingOk(r)
    ensures RingOk(r') && |r'.buckets| == |r.buckets|
  {
    if steps == 0 then r else Bump(Bumps(r, width, steps - 1), width)
  }

  /** The effect of `advanceLocked`. */
  function Advance(r: Ring, width: int, now: int): (r': Ring)
    requires RingOk(r) && width > 0
    ensures RingOk(r') && |r'.buckets| == |r.buckets|
  {
    var steps := TruncDiv(now - r.lastStart, width);
    if steps <= 0 then r
    else if steps >= |r.buckets| then Ring(seq(|r.buckets|, _ => EMPTY), r.lastIdx, now)
    else Bumps(r, width, steps)
  }

  function Put(r: Ring, v: int): (r': Ring)
    requires RingOk(r)
    ensures RingOk(r') && |r'.buckets| == |r.buckets|
  {
    r.(buckets := r.buckets[r.lastIdx := Merge(r.buckets[r.lastIdx], Bucket(v, 1))])
  }

  function Total(b: seq<Bucket>): Bucket {
    if b == [] then EMPTY else Merge(Total(b[..|b|-1]), b[|b|-1])
  }

  // ---------------------------------------------------------------- the log it stands for

  datatype Sample = Sample(at: int, value: int)

  /** Sum and count of the samples taken in [lo, hi). */
  function Between(log: seq<Sample>, lo: int, hi: int): Bucket {
    if log == [] then EMPTY
    else
      var s := log[|log|-1];
      var rest := Between(log[..|log|-1], lo, hi);
      if lo <= s.at < hi then Merge(rest, Bucket(s.value, 1)) else rest
  }

  /** Sum and count of the samples taken at `cut` or later. */
  function Since(log: seq<Sample>, cut: int): Bucket {
    if log == [] then EMPTY
    else
      var s := log[|log|-1];
      var rest := Since(log[..|log|-1], cut);
      if cut <= s.at then Merge(rest, Bucket(s.value, 1)) else rest
  }

  /** The places of the samples taken at `cut` or later. */
  ghost function Recent(log: seq<Sample>, cut: int): set<int> {
    set i | 0 <= i < |log| && cut <= log[i].at
  }

  /** What each sample adds to a sum since `cut`: its value, or nothing if it is older. */
  ghost function Counted(log: seq<Sample>, cut: int): (vs: seq<int>)
    ensures |vs| == |log| && forall i | 0 <= i < |log| :: vs[i] == if cut <= log[i].at then log[i].value else 0
  {
    seq(|log|, i requires 0 <= i < |log| => if cut <= log[i].at then log[i].value else 0)
  }

  /** It is that: as many samples, and the sum of their values. */
  lemma {:induction false} SinceIsSum(log: seq<Sample>, cut: int)
    ensures Since(log, cut) == Bucket(Sum(Counted(log, cut)), |Recent(log, cut)|)
  {
    if log != [] {
      var k := |log| - 1;
      var init := log[..k];
      SinceIsSum(init, cut);
      assert Counted(log, cut) == Counted(init, cut) + [if cut <= log[k].at then log[k].value else 0];
      SumAppend(Counted(init, cut), if cut <= log[k].at then log[k].value else 0);
      assert Recent(log, cut) == Recent(init, cut) + if cut <= log[k].at then {k} else {};
    }
  }

  ghost predicate AllBefore(log: seq<Sample>, t: int) {
    forall i | 0 <= i < |log| :: log[i].at < t
  }

  /** Index of the bucket j places behind the current one. */
  function Behind(idx: nat, j: nat, n: nat): (i: nat)
    requires idx < n && j < n
    ensures i < n
  {
    if j <= idx then idx - j else idx - j + n
  }

  /** Start of the time slot j places behind the current one. */
  function Edge(r: Ring, width: int, j: int): int {
    r.lastStart - j * width
  }

  /** The ring holds exactly the log's last |buckets| slots, and nothing lies in the future. */
  ghost predicate Represents(r: Ring, width: int, log: seq<Sample>)
    requires RingOk(r)
  {
    && AllBefore(log, r.lastStart + width)
    && forall j | 0 <= j < |r.buckets| ::
         r.buckets[Behind(r.lastIdx, j, |r.buckets|)] == Between(log, Edge(r, width, j), Edge(r, width, j) + width)
  }

  // ---------------------------------------------------------------- facts about the log

  lemma {:induction false} NothingBetween(log: seq<Sample>, t: int, lo: int, hi: int)
    requires AllBefore(log, t) && t <= lo
    ensures Between(log, lo, hi) == EMPTY
  {
    if log != [] {
      NothingBetween(log[..|log|-1], t, lo, hi);
    }
  }

  lemma {:induction false} BetweenSplit(log: seq<Sample>, lo: int, mid: int, hi: int)
    requires lo <= mid <= hi
    ensures Between(log, lo, hi) == Merge(Between(log, lo, mid), Between(log, mid, hi))
  {
    if log != [] {
      BetweenSplit(log[..|log|-1], lo, mid, hi);
    }
  }

  lemma {:induction false} BetweenIsSince(log: seq<Sample>, lo: int, hi: int)
    requires AllBefore(log, hi)
    ensures Between(log, lo, hi) == Since(log, lo)
  {
    if log != [] {
      BetweenIsSince(log[..|log|-1], lo, hi);
    }
  }

  // ---------------------------------------------------------------- operations keep the representation

  lemma {:induction false} FreshRepresents(n: nat, width: int, now: int)
    requires n > 0 && width > 0
    ensures Represents(Fresh(n, now), width, [])
  {}

  lemma {:induction false} BumpRepresents(r: Ring, width: int, log: seq<Sample>)
    requires RingOk(r) && width > 0 && Represents(r, width, log)
    ensures Represents(Bump(r, width), width, log)
  {
    hide Between, Behind, Edge;
    var r', n := Bump(r, width), |r.buckets|;
    forall j | 0 <= j < n
      ensures r'.buckets[Behind(r'.lastIdx, j, n)] == Between(log, Edge(r', width, j), Edge(r', width, j) + width)
    {
      BumpShifts(r, width, j);
      if j == 0 {
        NothingBetween(log, r'.lastStart, Edge(r', width, 0), Edge(r', width, 0) + width);
      }
    }
  }

  lemma {:induction false} BumpShifts(r: Ring, width: int, j: nat)
    requires RingOk(r) && j < |r.buckets|
    ensures Behind(Bump(r, width).lastIdx, 0, |r.buckets|) == Bump(r, width).lastIdx
    ensures j > 0 ==> Behind(Bump(r, width).lastIdx, j, |r.buckets|) == Behind(r.lastIdx, j - 1, |r.buckets|)
    ensures j > 0 ==> Behind(Bump(r, width).lastIdx, j, |r.buckets|) != Bump(r, width).lastIdx
    ensures Edge(Bump(r, width), width, 0) == r.lastStart + width
    ensures Edge(Bump(r, width), width, j) == Edge(r, width, j - 1)
  {
    NextIndex(r.lastIdx, |r.buckets|);
    Distribute(j - 1, 1, width);
  }

  lemma {:induction false} NextIndex(i: nat, n: nat)
    requires i < n
    ensures (i + 1) % n == if i + 1 == n then 0 else i + 1
  {}

  lemma {:induction false} BumpsRepresent(r: Ring, width: int, steps: nat, log: seq<Sample>)
    requires RingOk(r) && width > 0 && Represents(r, width, log)
    ensures Represents(Bumps(r, width, steps), width, log)
    ensures Bumps(r, width, steps).lastStart == r.lastStart + steps * width
  {
    hide Represents, Bump;
    if steps > 0 {
      BumpsRepresent(r, width, steps - 1, log);
      BumpRepresents(Bumps(r, width, steps - 1), width, log);
      BumpMoves(Bumps(r, width, steps - 1), width);
    }
  }

  lemma {:induction false} BumpMoves(r: Ring, width: int)
    requires RingOk(r)
    ensures Bump(r, width).lastStart == r.lastStart + width
  {}

  /** `steps` whole widths fit between the cursor and now. */
  lemma {:induction false} StepsFit(d: int, width: int)
    requires d >= 0 && width > 0
    ensures TruncDiv(d, width) >= 0
    ensures TruncDiv(d, width) * width <= d < TruncDiv(d, width) * width + width
  {
    DivMod(d, width);
  }

  lemma {:induction false} DivMod(d: int, width: int)
    requires width > 0
    ensures d == width * (d / width) + d % width && 0 <= d % width < width
  {}

  lemma {:induction false} FullClearRepresents(r: Ring, width: int, now: int, log: seq<Sample>)
    requires RingOk(r) && width > 0 && Represents(r, width, log)
    requires now - r.lastStart >= |r.buckets| * width
    ensures Represents(Ring(seq(|r.buckets|, _ => EMPTY), r.lastIdx, now), width, log)
  {
    hide Between;
    var r', n := Ring(seq(|r.buckets|, _ => EMPTY), r.lastIdx, now), |r.buckets|;
    InOrder(width, 1, n);
    forall j | 0 <= j < n
      ensures Between(log, Edge(r', width, j), Edge(r', width, j) + width) == EMPTY
    {
      InOrder(width, j + 1, n);
      NothingBetween(log, r.lastStart + width, Edge(r', width, j), Edge(r', width, j) + width);
    }
  }

  /** Advancing keeps the representation and puts `now` inside the current slot. */
  lemma {:induction false} AdvanceRepresents(r: Ring, width: int, now: int, log: seq<Sample>)
    requires RingOk(r) && width > 0 && Represents(r, width, log) && r.lastStart <= now
    ensures Represents(Advance(r, width, now), width, log)
    ensures Advance(r, width, now).lastStart <= now < Advance(r, width, now).lastStart + width
  {
    hide Bumps, TruncDiv, Between, Behind, Edge;
    var steps := TruncDiv(now - r.lastStart, width);
    StepsFit(now - r.lastStart, width);
    if steps >= |r.buckets| {
      InOrder(width, |r.buckets|, steps);
      FullClearRepresents(r, width, now, log);
    } else if steps > 0 {
      BumpsRepresent(r, width, steps, log);
    }
  }

  lemma {:induction false} PutRepresents(r: Ring, width: int, log: seq<Sample>, s: Sample)
    requires RingOk(r) && width > 0 && Represents(r, width, log) && r.lastStart <= s.at < r.lastStart + width
    ensures Represents(Put(r, s.value), width, log + [s])
  {
    var r', n := Put(r, s.value), |r.buckets|;
    assert (log + [s])[..|log|] == log;
    forall j | 0 <= j < n
      ensures r'.buckets[Behind(r'.lastIdx, j, n)] == Between(log + [s], Edge(r', width, j), Edge(r', width, j) + width)
    {
      if j > 0 {
        InOrder(width, 1, j);
      }
    }
  }

  // ---------------------------------------------------------------- what Value returns

  /** The part of the log covered by the first i array slots. */
  lemma {:induction false} PrefixCovers(r: Ring, width: int, log: seq<Sample>, i: nat)
    requires RingOk(r) && width > 0 && Represents(r, width, log) && i <= r.lastIdx + 1
    ensures Total(r.buckets[..i]) == Between(log, Edge(r, width, r.lastIdx), Edge(r, width, r.lastIdx - i))
  {
    hide Between, Represents;
    var lo := Edge(r, width, r.lastIdx);
    if i == 0 {
      EmptyRange(log, lo);
    } else {
      PrefixCovers(r, width, log, i - 1);
      BehindFirst(r.lastIdx, r.lastIdx - (i - 1), |r.buckets|);
      PrefixStep(r, width, log, i - 1, r.lastIdx - (i - 1));
      EdgesInOrder(r, width, r.lastIdx, r.lastIdx - (i - 1));
      BetweenSplit(log, lo, Edge(r, width, r.lastIdx - (i - 1)), Edge(r, width, r.lastIdx - i));
    }
  }

  /** The slots after the current one are the oldest part of the log. */
  lemma {:induction false} WrapCovers(r: Ring, width: int, log: seq<Sample>, i: nat)
    requires RingOk(r) && width > 0 && Represents(r, width, log) && r.lastIdx < i <= |r.buckets|
    ensures Total(r.buckets[..i]) ==
            Merge(Between(log, Edge(r, width, r.lastIdx), r.lastStart + width),
                  Between(log, Edge(r, width, |r.buckets| - 1), Edge(r, width, |r.buckets| + r.lastIdx - i)))
  {
    hide Between, Represents;
    var n := |r.buckets|;
    var lo := Edge(r, width, n - 1);
    if i == r.lastIdx + 1 {
      PrefixCovers(r, width, log, i);
      EmptyRange(log, lo);
    } else {
      var j := n + r.lastIdx - (i - 1);
      WrapCovers(r, width, log, i - 1);
      PrefixStep(r, width, log, i - 1, j);
      EdgesInOrder(r, width, n - 1, j);
      BetweenSplit(log, lo, Edge(r, width, j), Edge(r, width, j - 1));
    }
  }

  lemma {:induction false} BehindFirst(idx: nat, j: nat, n: nat)
    requires j <= idx < n
    ensures Behind(idx, j, n) == idx - j
  {}

  lemma {:induction false} EmptyRange(log: seq<Sample>, t: int)
    ensures Between(log, t, t) == EMPTY
  {
    if log != [] {
      EmptyRange(log[..|log|-1], t);
    }
  }

  lemma {:induction false} EdgesInOrder(r: Ring, width: int, j: int, k: int)
    requires j >= k && width > 0
    ensures Edge(r, width, j) <= Edge(r, width, k) <= Edge(r, width, k - 1)
    ensures Edge(r, width, k) + width == Edge(r, width, k - 1)
  {
    InOrder(width, k, j);
  }

  /** Array slot i holds the time slot j places back. */
  lemma {:induction false} PrefixStep(r: Ring, width: int, log: seq<Sample>, i: nat, j: nat)
    requires RingOk(r) && width > 0 && Represents(r, width, log) && i < |r.buckets| && j < |r.buckets|
    requires Behind(r.lastIdx, j, |r.buckets|) == i
    ensures Total(r.buckets[..i + 1]) ==
            Merge(Total(r.buckets[..i]), Between(log, Edge(r, width, j), Edge(r, width, j - 1)))
  {
    hide Between;
    assert r.buckets[..i + 1][..i] == r.buckets[..i];
    assert Edge(r, width, j) + width == Edge(r, width, j - 1);
  }

  /** The whole ring is one suffix of time: everything since its oldest edge. */
  lemma {:induction false} TotalIsSince(r: Ring, width: int, log: seq<Sample>)
    requires RingOk(r) && width > 0 && Represents(r, width, log)
    ensures Total(r.buckets) == Since(log, Edge(r, width, |r.buckets| - 1))
  {
    hide Between, Since, Total;
    var n := |r.buckets|;
    WrapCovers(r, width, log, n);
    assert r.buckets[..n] == r.buckets;
    var lo, mid, hi := Edge(r, width, n - 1), Edge(r, width, r.lastIdx), r.lastStart + width;
    EdgesInOrder(r, width, n - 1, r.lastIdx);
    EdgesInOrder(r, width, r.lastIdx, 0);
    BetweenSplit(log, lo, mid, hi);
    BetweenIsSince(log, lo, hi);
  }

  /** Where the window that a read at `now` reports begins. */
  function Cut(r: Ring, width: int, now: int): int
    requires RingOk(r) && width > 0
  {
    Edge(Advance(r, width, now), width, |r.buckets| - 1)
  }

  /** Two-sided refinement: a read reports exactly the samples since one instant, which is more than
      (N-1) widths and less than N widths ago; so every sample of age at most (N-1) widths is in,
      and none of age N widths or more. */
  lemma {:induction false} ValueIsSuffixOfLog(r: Ring, width: int, log: seq<Sample>, now: int)
    requires RingOk(r) && width > 0 && Represents(r, width, log) && r.lastStart <= now
    ensures Total(Advance(r, width, now).buckets) == Since(log, Cut(r, width, now))
    ensures now - |r.buckets| * width < Cut(r, width, now) <= now - (|r.buckets| - 1) * width
  {
    hide Total, Since, Advance, Represents;
    AdvanceRepresents(r, width, now, log);
    TotalIsSince(Advance(r, width, now), width, log);
    EdgesInOrder(Advance(r, width, now), width, |r.buckets|, |r.buckets|);
  }

  // ---------------------------------------------------------------- every run

  datatype Op = Add(now: int, v: int) | Value(now: int)

  function Apply(r: Ring, width: int, op: Op): (r': Ring)
    requires RingOk(r) && width > 0
    ensures RingOk(r') && |r'.buckets| == |r.buckets|
  {
    match op
    case Add(now, v) => Put(Advance(r, width, now), v)
    case Value(now) => Advance(r, width, now)
  }

  /** The window after the operations `ops`, oldest first. */
  function Run(r: Ring, width: int, ops: seq<Op>): (r': Ring)
    requires RingOk(r) && width > 0
    ensures RingOk(r') && |r'.buckets| == |r.buckets|
  {
    if ops == [] then r else Apply(Run(r, width, ops[..|ops|-1]), width, ops[|ops|-1])
  }

  function LogOf(ops: seq<Op>): seq<Sample> {
    if ops == [] then []
    else
      var op := ops[|ops|-1];
      LogOf(ops[..|ops|-1]) + if op.Add? then [Sample(op.now, op.v)] else []
  }

  /** The clock never goes back: not before the window was made, not between operations. */
  ghost predicate ClockMonotone(start: int, ops: seq<Op>) {
    && (forall i | 0 <= i < |ops| :: start <= ops[i].now)
    && (forall i, j | 0 <= i < j < |ops| :: ops[i].now <= ops[j].now)
  }

  function LastTime(start: int, ops: seq<Op>): int {
    if ops == [] then start else ops[|ops|-1].now
  }

  lemma {:induction false} RunRepresents(n: nat, width: int, start: int, ops: seq<Op>)
    requires n > 0 && width > 0 && ClockMonotone(start, ops)
    ensures Represents(Run(Fresh(n, start), width, ops), width, LogOf(ops))
    ensures Run(Fresh(n, start), width, ops).lastStart <= LastTime(start, ops)
  {
    hide Represents, Advance, Put, Fresh;
    FreshStart(n, start);
    if ops == [] {
      FreshRepresents(n, width, start);
    } else {
      var before, op := ops[..|ops|-1], ops[|ops|-1];
      RunRepresents(n, width, start, before);
      assert ClockMonotone(start, before);
      assert LastTime(start, before) <= op.now;
      var r := Run(Fresh(n, start), width, before);
      AdvanceRepresents(r, width, op.now, LogOf(before));
      if op.Add? {
        PutRepresents(Advance(r, width, op.now), width, LogOf(before), Sample(op.now, op.v));
        PutKeepsStart(Advance(r, width, op.now), op.v);
      } else {
        assert LogOf(ops) == LogOf(before);
      }
    }
  }

  lemma {:induction false} FreshStart(n: nat, start: int)
    ensures Fresh(n, start).lastStart == start && (n > 0 ==> RingOk(Fresh(n, start)))
  {}

  lemma {:induction false} PutKeepsStart(r: Ring, v: int)
    requires RingOk(r)
    ensures Put(r, v).lastStart == r.lastStart
  {}

  /** The refinement over whole runs, full clears included. */
  lemma {:induction false} RunRefinesLog(n: nat, width: int, start: int, ops: seq<Op>, now: int) returns (cut: int)
    requires n > 0 && width > 0 && ClockMonotone(start, ops) && LastTime(start, ops) <= now
    ensures now - n * width < cut <= now - (n - 1) * width
    ensures Total(Advance(Run(Fresh(n, start), width, ops), width, now).buckets) == Since(LogOf(ops), cut)
  {
    hide Represents, Advance, Total, Since, LogOf;
    var r := Run(Fresh(n, start), width, ops);
    RunRepresents(n, width, start, ops);
    ValueIsSuffixOfLog(r, width, LogOf(ops), now);
    cut := Cut(r, width, now);
  }

  // ---------------------------------------------------------------- reads

  lemma {:induction false} BumpsSplit(r: Ring, width: int, j: nat, k: nat)
    requires RingOk(r)
    ensures Bumps(r, width, j + k) == Bumps(Bumps(r, width, j), width, k)
  {
    hide Bump;
    if k > 0 {
      BumpsSplit(r, width, j, k - 1);
    }
  }

  lemma {:induction false} BumpsMove(r: Ring, width: int, k: nat)
    requires RingOk(r)
    ensures Bumps(r, width, k).lastStart == r.lastStart + k * width
  {
    hide Bump;
    if k > 0 {
      BumpsMove(r, width, k - 1);
      BumpMoves(Bumps(r, width, k - 1), width);
      Distribute(k - 1, 1, width);
    }
  }

  /** k moves leave the k most recent slots empty. */
  lemma {:induction false} BumpsEmpty(r: Ring, width: int, k: nat, j: nat)
    requires RingOk(r) && j < k && j < |r.buckets|
    ensures Bumps(r, width, k).buckets[Behind(Bumps(r, width, k).lastIdx, j, |r.buckets|)] == EMPTY
  {
    hide Behind;
    var before := Bumps(r, width, k - 1);
    BumpShifts(before, width, j);
    if j > 0 {
      BumpsEmpty(r, width, k - 1, j - 1);
    }
  }

  ghost predicate Blank(b: seq<Bucket>) {
    forall i | 0 <= i < |b| :: b[i] == EMPTY
  }

  lemma {:induction false} BlankTotal(b: seq<Bucket>)
    requires Blank(b)
    ensures Total(b) == EMPTY
  {
    if b != [] {
      var init := b[..|b|-1];
      assert b[|b|-1] == EMPTY && forall i | 0 <= i < |init| :: init[i] == b[i];
      BlankTotal(init);
    }
  }

  lemma {:induction false} ManyBumpsBlank(r: Ring, width: int, k: nat)
    requires RingOk(r) && k >= |r.buckets|
    ensures Blank(Bumps(r, width, k).buckets)
  {
    hide Bumps;
    var r', n := Bumps(r, width, k), |r.buckets|;
    forall i | 0 <= i < n ensures r'.buckets[i] == EMPTY {
      var j := if i <= r'.lastIdx then r'.lastIdx - i else r'.lastIdx - i + n;
      BumpsEmpty(r, width, k, j);
    }
  }

  lemma {:induction false} BumpKeepsBlank(r: Ring, width: int, k: nat)
    requires RingOk(r) && Blank(r.buckets)
    ensures Blank(Bumps(r, width, k).buckets)
  {
    if k > 0 {
      BumpKeepsBlank(r, width, k - 1);
    }
  }

  lemma {:induction false} AdvanceKeepsBlank(r: Ring, width: int, now: int)
    requires RingOk(r) && width > 0 && Blank(r.buckets)
    ensures Blank(Advance(r, width, now).buckets)
  {
    hide Bumps, TruncDiv;
    var steps := TruncDiv(now - r.lastStart, width);
    if steps > 0 {
      BumpKeepsBlank(r, width, steps);
    }
  }

  /** Whole widths already passed do not count twice. */
  lemma {:induction false} StepsAdd(d: int, width: int, s: nat)
    requires width > 0 && d >= s * width
    ensures TruncDiv(d, width) == s + TruncDiv(d - s * width, width)
  {
    StepsFit(d, width);
    StepsFit(d - s * width, width);
    UniqueQuotient(TruncDiv(d, width), s + TruncDiv(d - s * width, width), d, width);
  }

  lemma {:induction false} UniqueQuotient(p: int, q: int, d: int, width: int)
    requires width > 0
    requires p * width <= d < p * width + width && q * width <= d < q * width + width
    ensures p == q
  {
    if p < q {
      InOrder(width, p + 1, q);
    } else if q < p {
      InOrder(width, q + 1, p);
    }
  }

  lemma {:induction false} MoreTimeMoreSteps(d: int, e: int, width: int)
    requires width > 0 && d <= e
    ensures TruncDiv(d, width) > 0 ==> d >= 0 && TruncDiv(d, width) <= TruncDiv(e, width)
  {
    if d >= 0 {
      StepsFit(d, width);
      StepsFit(e, width);
      if TruncDiv(e, width) < TruncDiv(d, width) {
        InOrder(width, TruncDiv(e, width) + 1, TruncDiv(d, width));
      }
    } else {
      DivMod(-d, width);
      NegativeSteps(-d, width);
    }
  }

  lemma {:induction false} NegativeSteps(d: int, width: int)
    requires width > 0 && d >= 0
    ensures -(d / width) <= 0
  {}

  /** Reads do not disturb the next read: from any ring whatever, a read at t2 gives the same pair
      with or without a read at t1 before it. */
  lemma {:induction false} ReadsDoNotDisturb(r: Ring, width: int, t1: int, t2: int)
    requires RingOk(r) && width > 0 && t1 <= t2
    ensures Total(Advance(Advance(r, width, t1), width, t2).buckets) == Total(Advance(r, width, t2).buckets)
  {
    hide Bumps, TruncDiv, Total;
    var n, s := |r.buckets|, TruncDiv(t1 - r.lastStart, width);
    MoreTimeMoreSteps(t1 - r.lastStart, t2 - r.lastStart, width);
    if s >= n {
      AdvanceKeepsBlank(Advance(r, width, t1), width, t2);
      BlankTotal(Advance(Advance(r, width, t1), width, t2).buckets);
      BlankTotal(Advance(r, width, t2).buckets);
    } else if s > 0 {
      PartialThenAny(r, width, s, t1, t2);
    }
  }

  lemma {:induction false} PartialThenAny(r: Ring, width: int, s: nat, t1: int, t2: int)
    requires RingOk(r) && width > 0 && t1 <= t2 && r.lastStart <= t1
    requires s == TruncDiv(t1 - r.lastStart, width) && 0 < s < |r.buckets|
    ensures Total(Advance(Advance(r, width, t1), width, t2).buckets) == Total(Advance(r, width, t2).buckets)
  {
    hide Bumps, TruncDiv, Total;
    var n, mid := |r.buckets|, Bumps(r, width, s);
    BumpsMove(r, width, s);
    StepsFit(t1 - r.lastStart, width);
    StepsAdd(t2 - r.lastStart, width, s);
    StepsFit(t2 - mid.lastStart, width);
    var u := TruncDiv(t2 - mid.lastStart, width);
    BumpsSplit(r, width, s, u);
    if s + u >= n {
      ManyBumpsBlank(r, width, s + u);
      BlankTotal(Bumps(r, width, s + u).buckets);
      BlankTotal(Advance(r, width, t2).buckets);
      BlankTotal(seq(n, _ => EMPTY));
    } else if u == 0 {
      NoBumps(mid, width);
    }
  }

  lemma {:induction false} NoBumps(r: Ring, width: int)
    requires RingOk(r)
    ensures Bumps(r, width, 0) == r
  {}

  // ---------------------------------------------------------------- the window object

  /** `width` and the buckets array are fixed when the window is made; `log` is the plain list of
      samples, kept only for specification. */
  class Window {
    const width: int
    const buckets: array<Bucket>
    var lastIdx: nat
    var lastStart: int
    ghost var log: seq<Sample>

    ghost const Repr: set<object> := {this, buckets}

    ghost function State(): Ring
      reads this, buckets
    {
      Ring(buckets[..], lastIdx, lastStart)
    }

    /** The array agrees with the log. */
    ghost predicate Valid()
      reads this, buckets
    {
      width > 0 && RingOk(State()) && Represents(State(), width, log)
    }

    constructor (count: nat, width: int, now: int)
      requires count > 0 && width > 0
      ensures Valid() && fresh(buckets)
      ensures this.width == width && buckets.Length == count && lastStart == now && log == []
      ensures State() == Fresh(count, now)
    {
      this.width := width;
      this.buckets := new Bucket[count](_ => EMPTY);
      lastIdx, lastStart, log := 0, now, [];
      new;
      assert buckets[..] == Fresh(count, now).buckets;
      FreshRepresents(count, width, now);
    }

    method AdvanceLocked(now: int)
      requires Valid()
      modifies this, buckets
      ensures RingOk(State()) && State() == Advance(old(State()), width, now)
      ensures log == old(log)
      ensures old(lastStart) <= now ==> Valid() && lastStart <= now < lastStart + width
    {
      ghost var start := State();
      ghost var samples := log;
      var steps := TruncDiv(now - lastStart, width);
      if steps <= 0 {
      } else if steps >= buckets.Length {
        var i := 0;
        while i < buckets.Length
          invariant 0 <= i <= buckets.Length
          invariant forall j | 0 <= j < i :: buckets[j] == EMPTY
          invariant lastIdx == start.lastIdx && lastStart == start.lastStart && log == samples
        {
          buckets[i] := EMPTY;
          i := i + 1;
        }
        lastStart := now;
        assert buckets[..] == seq(buckets.Length, _ => EMPTY);
      } else {
        var i := 0;
        while i < steps
          invariant 0 <= i <= steps
          invariant lastIdx < buckets.Length && lastStart == start.lastStart && log == samples
          invariant Ring(buckets[..], lastIdx, lastStart + i * width) == Bumps(start, width, i)
        {
          hide TruncDiv, Represents;
          lastIdx := (lastIdx + 1) % buckets.Length;
          buckets[lastIdx] := EMPTY;
          Distribute(i, 1, width);
          i := i + 1;
        }
        lastStart := lastStart + steps * width;
      }
      if start.lastStart <= now {
        AdvanceRepresents(start, width, now, samples);
      }
    }

    method Add(now: int, v: int)
      requires Valid()
      modifies this, buckets
      ensures RingOk(State()) && State() == Put(Advance(old(State()), width, now), v)
      ensures log == old(log) + [Sample(now, v)]
      ensures old(lastStart) <= now ==> Valid() && lastStart <= now
    {
      hide Advance, Represents;
      ghost var started := lastStart <= now;
      AdvanceLocked(now);
      ghost var moved := State();
      buckets[lastIdx] := Bucket(buckets[lastIdx].sum + v, buckets[lastIdx].count);
      buckets[lastIdx] := Bucket(buckets[lastIdx].sum, buckets[lastIdx].count + 1);
      assert State() == Put(moved, v);
      if started {
        PutRepresents(moved, width, log, Sample(now, v));
      }
      log := log + [Sample(now, v)];
    }

    /** The sum and count of the log since one instant between N-1 and N widths ago. */
    method Value(now: int) returns (sum: int, count: int)
      requires Valid()
      modifies this, buckets
      ensures RingOk(State()) && State() == Advance(old(State()), width, now)
      ensures log == old(log)
      ensures Bucket(sum, count) == Total(State().buckets)
      ensures old(lastStart) <= now ==>
                && Valid() && lastStart <= now
                && exists cut ::
                     && now - buckets.Length * width < cut <= now - (buckets.Length - 1) * width
                     && Bucket(sum, count) == Since(log, cut)
    {
      hide Advance, Represents, Since;
      ghost var start := State();
      AdvanceLocked(now);
      sum, count := 0, 0;
      var i := 0;
      while i < buckets.Length
        invariant 0 <= i <= buckets.Length
        invariant Bucket(sum, count) == Total(buckets[..i])
      {
        assert buckets[..i + 1][..i] == buckets[..i];
        sum := sum + buckets[i].sum;
        count := count + buckets[i].count;
        i := i + 1;
      }
      assert buckets[..i] == buckets[..];
      if start.lastStart <= now {
        ValueIsSuffixOfLog(start, width, log, now);
      }
    }
  }
}
