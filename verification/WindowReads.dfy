/** When a read of the window is invisible: to the next read always (`RollingWindow.ReadsDoNotDisturb`), to
    everything that may follow only if it moves nothing. */
module WindowReads {
  import opened Arithmetic
  import opened RollingWindow

  /** The buckets from the oldest to the current one. */
  function Aligned(r: Ring): (q: seq<Bucket>)
    requires RingOk(r)
    ensures |q| == |r.buckets|
  {
    r.buckets[r.lastIdx + 1..] + r.buckets[..r.lastIdx + 1]
  }

  /** Rings that differ only in where in the array the current bucket lies. */
  ghost predicate Alike(r: Ring, s: Ring) {
    RingOk(r) && RingOk(s) && r.lastStart == s.lastStart && Aligned(r) == Aligned(s)
  }

  function Blanks(n: nat): (q: seq<Bucket>)
    ensures |q| == n && Blank(q)
  {
    seq(n, _ => EMPTY)
  }

  /** Drop the `k` oldest buckets and append as many empty ones. */
  function Shifted(q: seq<Bucket>, k: nat): (q': seq<Bucket>)
    ensures |q'| == |q|
  {
    if k >= |q| then Blanks(|q|) else q[k..] + Blanks(k)
  }

  // ---------------------------------------------------------------- totals and single steps

  lemma {:induction false} TotalConcat(a: seq<Bucket>, b: seq<Bucket>)
    ensures Total(a + b) == Merge(Total(a), Total(b))
  {
    if b == [] {
      assert a + b == a;
    } else {
      assert (a + b)[..|a + b| - 1] == a + b[..|b| - 1];
      TotalConcat(a, b[..|b| - 1]);
    }
  }

  lemma {:induction false} AlignedTotal(r: Ring)
    requires RingOk(r)
    ensures Total(Aligned(r)) == Total(r.buckets)
  {
    hide Total;
    var older, newer := r.buckets[r.lastIdx + 1..], r.buckets[..r.lastIdx + 1];
    TotalConcat(older, newer);
    TotalConcat(newer, older);
    assert newer + older == r.buckets;
  }

  lemma {:induction false} BumpAligned(r: Ring, width: int)
    requires RingOk(r)
    ensures Aligned(Bump(r, width)) == Aligned(r)[1..] + [EMPTY]
  {
    NextIndex(r.lastIdx, |r.buckets|);
  }

  lemma {:induction false} BumpsAligned(r: Ring, width: int, k: nat)
    requires RingOk(r) && k <= |r.buckets|
    ensures Aligned(Bumps(r, width, k)) == Shifted(Aligned(r), k)
  {
    hide Aligned;
    if k > 0 {
      BumpsAligned(r, width, k - 1);
      BumpAligned(Bumps(r, width, k - 1), width);
    }
  }

  lemma {:induction false} PutAligned(r: Ring, v: int)
    requires RingOk(r)
    ensures var n := |r.buckets|; Aligned(Put(r, v)) == Aligned(r)[n - 1 := Merge(Aligned(r)[n - 1], Bucket(v, 1))]
  {}

  lemma {:induction false} AlikeAfterAdvance(r: Ring, s: Ring, width: int, now: int)
    requires Alike(r, s) && width > 0
    ensures Alike(Advance(r, width, now), Advance(s, width, now))
  {
    hide Aligned, Bumps, TruncDiv;
    var n, steps := |r.buckets|, TruncDiv(now - r.lastStart, width);
    assert |s.buckets| == |Aligned(s)| == n;
    if 0 < steps < n {
      BumpsAligned(r, width, steps);
      BumpsAligned(s, width, steps);
      BumpsMove(r, width, steps);
      BumpsMove(s, width, steps);
    } else if steps >= n {
      BlankAligned(n, r.lastIdx, now);
      BlankAligned(n, s.lastIdx, now);
    }
  }

  lemma {:induction false} BlankAligned(n: nat, idx: nat, start: int)
    requires idx < n
    ensures Aligned(Ring(seq(n, _ => EMPTY), idx, start)) == Blanks(n)
  {}

  lemma {:induction false} AlikeAfterPut(r: Ring, s: Ring, v: int)
    requires Alike(r, s)
    ensures Alike(Put(r, v), Put(s, v))
  {
    hide Aligned;
    PutAligned(r, v);
    PutAligned(s, v);
    assert |r.buckets| == |Aligned(r)| == |Aligned(s)| == |s.buckets|;
    PutKeepsStart(r, v);
    PutKeepsStart(s, v);
  }

  // ---------------------------------------------------------------- invisible reads

  /** Whatever is added and read at `t1` and after, every read gives the same pair whether or not there
      was a read at `t1` before it all. */
  ghost predicate Invisible(r: Ring, width: int, t1: int)
    requires RingOk(r) && width > 0
  {
    forall ops, now | ClockMonotone(t1, ops) && LastTime(t1, ops) <= now ::
      Total(Advance(Run(r, width, ops), width, now).buckets)
        == Total(Advance(Run(Advance(r, width, t1), width, ops), width, now).buckets)
  }

  lemma {:induction false} TruncUnit(d: int)
    ensures TruncDiv(d, 1) == d
  {}

  /** With buckets of width 1 the current one always starts now, however the cursor got there. */
  lemma {:induction false} UnitAdvance(r: Ring, now: int)
    requires RingOk(r) && r.lastStart <= now
    ensures var r' := Advance(r, 1, now);
            r'.lastStart == now && Aligned(r') == Shifted(Aligned(r), now - r.lastStart)
  {
    hide Aligned, Bumps, TruncDiv;
    var n, steps := |r.buckets|, now - r.lastStart;
    TruncUnit(steps);
    if steps >= n {
      BlankAligned(n, r.lastIdx, now);
    } else if steps > 0 {
      BumpsAligned(r, 1, steps);
      BumpsMove(r, 1, steps);
    } else {
      assert Aligned(r)[0..] + Blanks(0) == Aligned(r);
    }
  }

  lemma {:induction false} ShiftedTwice(q: seq<Bucket>, a: nat, b: nat)
    ensures Shifted(Shifted(q, a), b) == Shifted(q, a + b)
  {}

  lemma {:induction false} UnitReadIsAlike(r: Ring, t1: int, now: int)
    requires RingOk(r) && t1 <= now
    ensures Alike(Advance(r, 1, now), Advance(Advance(r, 1, t1), 1, now))
  {
    hide Aligned, Bumps, Shifted, TruncDiv;
    if t1 <= r.lastStart {
      TruncUnit(t1 - r.lastStart);
    } else {
      UnitAdvance(r, t1);
      UnitAdvance(Advance(r, 1, t1), now);
      UnitAdvance(r, now);
      ShiftedTwice(Aligned(r), t1 - r.lastStart, now - t1);
    }
  }

  lemma {:induction false} UnitRunsAlike(r: Ring, t1: int, ops: seq<Op>, now: int)
    requires RingOk(r) && ClockMonotone(t1, ops) && LastTime(t1, ops) <= now
    ensures Alike(Advance(Run(r, 1, ops), 1, now), Advance(Run(Advance(r, 1, t1), 1, ops), 1, now))
    decreases |ops|
  {
    hide Advance, Put, Alike;
    if ops == [] {
      UnitReadIsAlike(r, t1, now);
    } else {
      var before, op := ops[..|ops| - 1], ops[|ops| - 1];
      UnitRunsAlike(r, t1, before, op.now);
      var x, y := Run(r, 1, before), Run(Advance(r, 1, t1), 1, before);
      if op.Add? {
        AlikeAfterPut(Advance(x, 1, op.now), Advance(y, 1, op.now), op.v);
      }
      AlikeAfterAdvance(Run(r, 1, ops), Run(Advance(r, 1, t1), 1, ops), 1, now);
    }
  }

  lemma {:induction false} AlikeTotals(r: Ring, s: Ring)
    requires Alike(r, s)
    ensures Total(r.buckets) == Total(s.buckets)
  {
    hide Aligned, Total;
    AlignedTotal(r);
    AlignedTotal(s);
  }

  lemma {:induction false} UnitReadIsInvisible(r: Ring, t1: int)
    requires RingOk(r)
    ensures Invisible(r, 1, t1)
  {
    hide Advance, Alike, Run, Total;
    forall ops, now | ClockMonotone(t1, ops) && LastTime(t1, ops) <= now
      ensures Total(Advance(Run(r, 1, ops), 1, now).buckets)
                == Total(Advance(Run(Advance(r, 1, t1), 1, ops), 1, now).buckets)
    {
      UnitRunsAlike(r, t1, ops, now);
      AlikeTotals(Advance(Run(r, 1, ops), 1, now), Advance(Run(Advance(r, 1, t1), 1, ops), 1, now));
    }
  }

  // ---------------------------------------------------------------- visible reads

  lemma {:induction false} ExactSteps(q: nat, rem: nat, width: int)
    requires rem < width
    ensures TruncDiv(q * width + rem, width) == q
  {
    hide TruncDiv;
    InOrder(width, 0, q);
    StepsFit(q * width + rem, width);
    UniqueQuotient(TruncDiv(q * width + rem, width), q, q * width + rem, width);
  }

  /** N whole widths after its last bucket began, a ring is empty. */
  lemma {:induction false} EmptyAfterAll(r: Ring, width: int)
    requires RingOk(r) && width > 0
    ensures Total(Advance(r, width, r.lastStart + |r.buckets| * width).buckets) == EMPTY
  {
    hide Total, TruncDiv;
    ExactSteps(|r.buckets|, 0, width);
    BlankTotal(Advance(r, width, r.lastStart + |r.buckets| * width).buckets);
  }

  /** A sample added right at a full clear is still there just before N whole widths are over. */
  lemma {:induction false} AddedAtClear(r: Ring, width: int, t2: int, v: int)
    requires RingOk(r) && width > 0 && t2 - r.lastStart >= |r.buckets| * width
    ensures Total(Advance(Put(Advance(r, width, t2), v), width, t2 + |r.buckets| * width - 1).buckets) == Bucket(v, 1)
  {
    hide Total, Advance, Put;
    ClearsAll(r, width, t2);
    AddedWhenClear(Ring(seq(|r.buckets|, _ => EMPTY), r.lastIdx, t2), |r.buckets|, width, v);
  }

  lemma {:induction false} AddedWhenClear(clear: Ring, n: nat, width: int, v: int)
    requires RingOk(clear) && width > 0 && clear.buckets == seq(n, _ => EMPTY)
    ensures Total(Advance(Put(clear, v), width, clear.lastStart + n * width - 1).buckets) == Bucket(v, 1)
  {
    hide Total, Bumps, Aligned, Advance, Put;
    BlankAligned(n, clear.lastIdx, clear.lastStart);
    PutAligned(clear, v);
    PutKeepsStart(clear, v);
    assert Aligned(Put(clear, v)) == Blanks(n - 1) + [Bucket(v, 1)];
    JustBefore(Put(clear, v), n, width);
    OneLeft(Put(clear, v), width, v);
  }

  lemma {:induction false} ClearsAll(r: Ring, width: int, t: int)
    requires RingOk(r) && width > 0 && t - r.lastStart >= |r.buckets| * width
    ensures Advance(r, width, t) == Ring(seq(|r.buckets|, _ => EMPTY), r.lastIdx, t)
  {
    hide TruncDiv, Bumps;
    InOrder(width, 0, |r.buckets|);
    StepsFit(t - r.lastStart, width);
    if TruncDiv(t - r.lastStart, width) < |r.buckets| {
      InOrder(width, TruncDiv(t - r.lastStart, width) + 1, |r.buckets|);
      Distribute(TruncDiv(t - r.lastStart, width), 1, width);
    }
  }

  lemma {:induction false} JustBefore(p: Ring, n: nat, width: int)
    requires RingOk(p) && width > 0 && n == |p.buckets|
    ensures Advance(p, width, p.lastStart + n * width - 1) == Bumps(p, width, n - 1)
  {
    hide TruncDiv, Bumps;
    Distribute(n - 1, 1, width);
    ExactSteps(n - 1, width - 1, width);
    if n == 1 {
      NoBumps(p, width);
    }
  }

  lemma {:induction false} OneLeft(p: Ring, width: int, v: int)
    requires RingOk(p) && Aligned(p) == Blanks(|p.buckets| - 1) + [Bucket(v, 1)]
    ensures Total(Bumps(p, width, |p.buckets| - 1).buckets) == Bucket(v, 1)
  {
    hide Aligned, Bumps, Total;
    var n := |p.buckets|;
    BumpsAligned(p, width, n - 1);
    AlignedTotal(Bumps(p, width, n - 1));
    assert Shifted(Aligned(p), n - 1) == [Bucket(v, 1)] + Blanks(n - 1);
    TotalConcat([Bucket(v, 1)], Blanks(n - 1));
    BlankTotal(Blanks(n - 1));
    OneTotal(Bucket(v, 1));
  }

  lemma {:induction false} OneTotal(b: Bucket)
    ensures Total([b]) == b
  {
    assert [b][..0] == [];
    assert Total([b]) == Merge(Total([b][..0]), b);
  }

  /** The read cleared everything: a sample right after it lands in the bucket that starts at the read. */
  lemma {:induction false} ClearingReadShows(r: Ring, width: int, t1: int, v: int)
    requires RingOk(r) && width >= 2 && t1 - r.lastStart >= |r.buckets| * width
    ensures Total(Advance(Put(Advance(Advance(r, width, t1), width, t1 + 1), v), width,
                          t1 + |r.buckets| * width).buckets) == EMPTY
  {
    hide Total, TruncDiv, Bumps;
    var n := |r.buckets|;
    InOrder(width, 0, n);
    StepsFit(t1 - r.lastStart, width);
    if TruncDiv(t1 - r.lastStart, width) < n {
      InOrder(width, TruncDiv(t1 - r.lastStart, width) + 1, n);
      Distribute(TruncDiv(t1 - r.lastStart, width), 1, width);
    }
    var r1 := Advance(r, width, t1);
    ExactSteps(0, 1, width);
    assert Advance(r1, width, t1 + 1) == r1;
    PutKeepsStart(r1, v);
    EmptyAfterAll(Put(r1, v), width);
  }

  /** The read moved the cursor by s buckets: later steps stay on the old grid, where a sample just after
      the N-th edge lands in the bucket that starts at that edge. */
  lemma {:induction false} MovingReadShows(r: Ring, width: int, t1: int, v: int)
    requires RingOk(r) && width >= 2 && width <= t1 - r.lastStart < |r.buckets| * width
    ensures var n := |r.buckets|;
            Total(Advance(Put(Advance(Advance(r, width, t1), width, r.lastStart + n * width + 1), v), width,
                          r.lastStart + n * width + n * width).buckets) == EMPTY
  {
    hide Total, TruncDiv, Bumps;
    var n, s := |r.buckets|, TruncDiv(t1 - r.lastStart, width);
    StepsFit(t1 - r.lastStart, width);
    StepsWithin(s, n, t1 - r.lastStart, width);
    var r1 := Advance(r, width, t1);
    BumpsMove(r, width, s);
    Distribute(n - s, s, width);
    ExactSteps(n - s, 1, width);
    var r2 := Advance(r1, width, r.lastStart + n * width + 1);
    BumpsMove(r1, width, n - s);
    assert r2.lastStart == r.lastStart + n * width;
    PutKeepsStart(r2, v);
    EmptyAfterAll(Put(r2, v), width);
  }

  lemma {:induction false} StepsWithin(s: int, n: int, d: int, width: int)
    requires width > 0 && s * width <= d < s * width + width && width <= d < n * width
    ensures 1 <= s < n
  {
    if s < 1 {
      InOrder(width, 0, s);
    } else if s >= n {
      InOrder(width, n, s);
    }
  }

  lemma {:induction false} OneAdd(r: Ring, width: int, t: int, v: int)
    requires RingOk(r) && width > 0
    ensures Run(r, width, [Add(t, v)]) == Put(Advance(r, width, t), v)
  {
    hide Advance, Put;
    assert [Add(t, v)][..0] == [];
    assert Run(r, width, [Add(t, v)]) == Apply(Run(r, width, [Add(t, v)][..0]), width, Add(t, v));
  }

  /** A read that moves the cursor at all can be seen: one sample later and one read after that suffice. */
  lemma {:induction false} MovingReadIsVisible(r: Ring, width: int, t1: int) returns (add: Op, now: int)
    requires RingOk(r) && width >= 2 && t1 >= r.lastStart + width
    ensures add.Add? && t1 <= add.now <= now
    ensures Total(Advance(Run(r, width, [add]), width, now).buckets) == Bucket(add.v, 1)
    ensures Total(Advance(Run(Advance(r, width, t1), width, [add]), width, now).buckets) == EMPTY
  {
    hide Total, Advance, Put, Run;
    var n := |r.buckets|;
    InOrder(width, 0, n - 1);
    Distribute(n - 1, 1, width);
    var t2: int;
    if t1 - r.lastStart >= n * width {
      t2 := t1 + 1;
      ClearingReadShows(r, width, t1, 7);
    } else {
      t2 := r.lastStart + n * width + 1;
      MovingReadShows(r, width, t1, 7);
    }
    AddedAtClear(r, width, t2, 7);
    add, now := Add(t2, 7), t2 + n * width - 1;
    OneAdd(r, width, t2, 7);
    OneAdd(Advance(r, width, t1), width, t2, 7);
  }

  lemma {:induction false} StillReadIsInvisible(r: Ring, width: int, t1: int)
    requires RingOk(r) && width > 0 && t1 < r.lastStart + width
    ensures Invisible(r, width, t1)
  {
    hide Total, Bumps, Run, TruncDiv;
    if t1 >= r.lastStart {
      ExactSteps(0, t1 - r.lastStart, width);
    } else {
      MoreTimeMoreSteps(t1 - r.lastStart, 0, width);
    }
    assert Advance(r, width, t1) == r;
  }

  /** Exactly which reads leave everything later alone, from any ring: those that do not move the cursor,
      and all of them when buckets are one time unit wide. It does not take a full clear: moving by one
      bucket is enough to be seen, because a later full clear starts the grid anew only if the cursor has
      fallen behind far enough. */
  lemma {:induction false} ReadIsInvisibleIff(r: Ring, width: int, t1: int)
    requires RingOk(r) && width > 0
    ensures Invisible(r, width, t1) <==> width == 1 || t1 < r.lastStart + width
  {
    hide Total, Advance, Run;
    if width == 1 {
      UnitReadIsInvisible(r, t1);
    } else if t1 < r.lastStart + width {
      StillReadIsInvisible(r, width, t1);
    } else {
      var add, now := MovingReadIsVisible(r, width, t1);
      assert ClockMonotone(t1, [add]) && LastTime(t1, [add]) <= now;
    }
  }
}
