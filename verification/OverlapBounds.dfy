/** How far overlapping picks can push a weight. A slow pick subtracts from the node that looked best when it
    read it, however low that node is by now; and what looked best can have been misjudged, because the
    other nodes were read while yet other slow picks held them down. With at most T picks at a time and
    totals of at most M, all this is limited: no weight falls below -T(T+1)/2 * M. */
module OverlapBounds {
  import opened Arithmetic
  import opened ChangingNodes
  import opened ConcurrentPick
  import opened SeqSums

  // ---------------------------------------------------------------- runs

  /** Node set `0..n`, weights never negative, every pick goes over all nodes, no running total above m. */
  ghost predicate Allowed(s: State, l: Label, m: int) {
    match l
    case Begin(t, nodes) => forall j: nat | j < |s.cwt| :: j in nodes
    case Load(t) =>
      At(s, t) && s.threads[t].pc.Loading? && s.threads[t].pc.i < |s.threads[t].nodes|
      && s.threads[t].nodes[s.threads[t].pc.i] < |s.ewt|
      && s.threads[t].total + s.ewt[s.threads[t].nodes[s.threads[t].pc.i]] <= m
    case Store(n, w) => w >= 0
    case NewNode(_) => false
    case _ => true
  }

  /** A run as the list of its states: fresh nodes at first, never more than `width` threads. */
  ghost predicate IsRun(run: seq<State>, ls: seq<Label>, width: nat, m: int) {
    && |run| == |ls| + 1 && m >= 0
    && run[0].threads == [] && run[0].cwt == Zeros(|run[0].cwt|)
    && (forall i | 0 <= i < |run| :: Ok(run[i]) && |run[i].threads| <= width)
    && AllAtLeast(run[0].ewt, 0)
    && forall i | 0 <= i < |ls| ::
         Enabled(run[i], ls[i]) && Allowed(run[i], ls[i], m) && run[i + 1] == Step(run[i], ls[i])
  }

  /** Between its begin and its subtraction. */
  predicate Scanning(th: Thread) {
    th.pc.Loading? || th.pc.Adding?
  }

  /** Index of the step with which thread t began its latest pick before state i. */
  ghost function StartOf(ls: seq<Label>, i: nat, t: nat): (b: nat)
    requires i <= |ls|
    ensures b < i || i == b == 0
  {
    if i == 0 then 0
    else if ls[i - 1].Begin? && ls[i - 1].t == t then i - 1
    else StartOf(ls, i - 1, t)
  }

  // ---------------------------------------------------------------- sums stay nonnegative

  /** A thread owes what it has added so far: never a negative amount, never more than m. */
  ghost predicate OwesFairly(th: Thread, m: int) {
    0 <= Owed(th) <= m && 0 <= th.total <= m && (th.pc.Adding? ==> 0 <= th.pc.ewt)
  }

  ghost predicate Fair(s: State, m: int) {
    AllAtLeast(s.ewt, 0) && forall t | 0 <= t < |s.threads| :: OwesFairly(s.threads[t], m)
  }

  lemma {:induction false} StepKeepsFair(s: State, l: Label, m: int)
    requires Ok(s) && Fair(s, m) && Enabled(s, l) && Allowed(s, l, m) && m >= 0
    ensures Fair(Step(s, l), m)
  {
    hide ThreadOk, BestSoFar;
  }

  lemma {:induction false} AlwaysFair(run: seq<State>, ls: seq<Label>, width: nat, m: int, i: nat)
    requires IsRun(run, ls, width, m) && i < |run|
    ensures Fair(run[i], m) && Settled(run[i]) == 0
  {
    hide Ok, Step, Enabled, Allowed, OwesFairly;
    if i == 0 {
      SumZeros(|run[0].cwt|);
      SumZeros(0);
      assert Owing(run[0].threads) == Zeros(0);
    } else {
      AlwaysFair(run, ls, width, m, i - 1);
      StepKeepsFair(run[i - 1], ls[i - 1], m);
      StepConserves(run[i - 1], ls[i - 1]);
    }
  }

  lemma {:induction false} SumBetween(s: State, width: nat, m: int)
    requires Fair(s, m) && Settled(s) == 0 && |s.threads| <= width && m >= 0
    ensures 0 <= Sum(s.cwt) <= width * m
  {
    hide Sum;
    var o := Owing(s.threads);
    SumAtLeast(o, 0);
    SumAtMost(o, m);
    InOrder(m, |o|, width);
  }

  lemma {:induction false} SomeNonnegative(c: seq<int>) returns (j: nat)
    requires c != [] && Sum(c) >= 0
    ensures j < |c| && c[j] >= 0
  {
    if forall i | 0 <= i < |c| :: c[i] <= -1 {
      SumAtMost(c, -1);
    }
    j :| j < |c| && c[j] >= 0;
  }

  // ---------------------------------------------------------------- the shape of a pick

  lemma {:induction false} SameNodes(run: seq<State>, ls: seq<Label>, width: nat, m: int, i: nat)
    requires IsRun(run, ls, width, m) && i < |run|
    ensures |run[i].cwt| == |run[0].cwt|
  {
    hide Ok, Step, Enabled, Allowed;
    if i > 0 {
      SameNodes(run, ls, width, m, i - 1);
      NoNewNode(run[i - 1], ls[i - 1], m);
      SameWidth(run[i - 1], ls[i - 1]);
    }
  }

  lemma {:induction false} SameWidth(s: State, l: Label)
    requires Ok(s) && Enabled(s, l) && !l.NewNode?
    ensures |Step(s, l).cwt| == |s.cwt|
  {}

  lemma {:induction false} RunLength(run: seq<State>, ls: seq<Label>, width: nat, m: int)
    requires IsRun(run, ls, width, m)
    ensures |run| == |ls| + 1 && run[0].threads == []
  {}

  lemma {:induction false} StepAt(run: seq<State>, ls: seq<Label>, width: nat, m: int, i: nat)
    requires IsRun(run, ls, width, m) && i < |ls|
    ensures |run| == |ls| + 1 && Ok(run[i]) && Enabled(run[i], ls[i]) && run[i + 1] == Step(run[i], ls[i])
  {}

  /** Whoever scans after a step that is not its begin scanned before it, the same nodes. */
  lemma {:induction false} ScanBack(s: State, l: Label, t: nat)
    requires Ok(s) && Enabled(s, l) && !(l.Begin? && l.t == t)
    requires t < |Step(s, l).threads| && Scanning(Step(s, l).threads[t])
    ensures t < |s.threads| && Scanning(s.threads[t]) && l != Subtract(t)
    ensures Step(s, l).threads[t].nodes == s.threads[t].nodes
  {
    hide ThreadOk;
  }

  /** While a thread scans, it goes on scanning since its latest begin, without a subtraction of its own. */
  lemma {:induction false} ScanSinceStart(run: seq<State>, ls: seq<Label>, width: nat, m: int, i: nat, t: nat)
    requires IsRun(run, ls, width, m) && i < |run| && t < |run[i].threads| && Scanning(run[i].threads[t])
    ensures var b := StartOf(ls, i, t);
            && b < i && ls[b].Begin? && ls[b].t == t
            && forall k | b < k < i :: ls[k] != Subtract(t)
  {
    hide IsRun, Ok, Step, Enabled, Scanning;
    RunLength(run, ls, width, m);
    if i > 0 {
      StepAt(run, ls, width, m, i - 1);
      if !(ls[i - 1].Begin? && ls[i - 1].t == t) {
        ScanBack(run[i - 1], ls[i - 1], t);
        ScanSinceStart(run, ls, width, m, i - 1, t);
      }
    }
  }

  lemma {:induction false} StartedEarlier(ls: seq<Label>, i: nat, t: nat, k: nat)
    requires i <= |ls| && StartOf(ls, i, t) < k < i
    ensures !(ls[i - 1].Begin? && ls[i - 1].t == t) && StartOf(ls, i - 1, t) == StartOf(ls, i, t)
  {}

  /** In between it is scanning all the time, over the same nodes. */
  lemma {:induction false} ScanningBetween(run: seq<State>, ls: seq<Label>, width: nat, m: int, i: nat, t: nat, k: nat)
    requires IsRun(run, ls, width, m) && i < |run| && t < |run[i].threads| && Scanning(run[i].threads[t])
    requires StartOf(ls, i, t) < k <= i
    ensures t < |run[k].threads| && Scanning(run[k].threads[t]) && run[k].threads[t].nodes == run[i].threads[t].nodes
    ensures StartOf(ls, k, t) == StartOf(ls, i, t)
    decreases i
  {
    hide IsRun, Ok, Step, Enabled, Scanning, StartOf;
    RunLength(run, ls, width, m);
    if k < i {
      StartedEarlier(ls, i, t, k);
      StepAt(run, ls, width, m, i - 1);
      ScanBack(run[i - 1], ls[i - 1], t);
      ScanningBetween(run, ls, width, m, i - 1, t, k);
    }
  }

  lemma {:induction false} CoversAll(run: seq<State>, ls: seq<Label>, width: nat, m: int, i: nat, t: nat, j: nat)
    requires IsRun(run, ls, width, m) && i < |run| && t < |run[i].threads| && Scanning(run[i].threads[t])
    requires j < |run[0].cwt|
    ensures j in run[i].threads[t].nodes
  {
    hide Ok, ThreadOk;
    ScanSinceStart(run, ls, width, m, i, t);
    var b := StartOf(ls, i, t);
    ScanningBetween(run, ls, width, m, i, t, b + 1);
    SameNodes(run, ls, width, m, b);
    assert Allowed(run[b], ls[b], m);
    assert run[b + 1] == Step(run[b], ls[b]);
  }

  // ---------------------------------------------------------------- how low a node can get in a stretch

  /** No thread of `e` subtracts between states lo and hi. */
  ghost predicate Quiet(ls: seq<Label>, lo: nat, hi: nat, e: set<nat>) {
    hi <= |ls| && forall i | lo <= i < hi && ls[i].Subtract? :: ls[i].t !in e
  }

  /** Every pick begun in the stretch subtracts from a node that it saw at -depth or higher. */
  ghost predicate SawAtLeast(run: seq<State>, ls: seq<Label>, lo: nat, hi: nat, depth: int) {
    hi <= |ls| < |run| &&
    forall i | lo <= i < hi && ls[i].Subtract? && At(run[i], ls[i].t) && StartOf(ls, i, ls[i].t) >= lo ::
      BestSeenAtLeast(run[i].threads[ls[i].t], -depth)
  }

  ghost predicate BestSeenAtLeast(th: Thread, x: int) {
    th.best < |th.seen| && th.seen[th.best] >= x
  }

  /** Thread t may still subtract from node j without reading it again: it read it at -depth or higher, or
      its pick is older than the stretch. */
  ghost predicate Ticket(s: State, ls: seq<Label>, lo: nat, i: nat, t: nat, j: nat, depth: int)
    requires i <= |ls|
  {
    && t < |s.threads| && Scanning(s.threads[t])
    && (StartOf(ls, i, t) < lo || SawNode(s.threads[t], j, -depth))
  }

  ghost predicate SawNode(th: Thread, j: nat, x: int) {
    exists k | 0 <= k < |th.seen| && k < |th.nodes| :: th.nodes[k] == j && th.seen[k] >= x
  }

  ghost function Held(s: State, ls: seq<Label>, lo: nat, i: nat, e: set<nat>, j: nat, depth: int): set<nat>
    requires i <= |ls|
  {
    e + set t: nat | t < |s.threads| && Ticket(s, ls, lo, i, t, j, depth)
  }

  /** Each subtraction from j uses up a ticket, and a ticket is only handed out while j is at -depth or higher. */
  ghost predicate Supported(s: State, ls: seq<Label>, lo: nat, i: nat, e: set<nat>, j: nat, depth: int, width: nat,
                            m: int)
    requires i <= |ls| && j < |s.cwt|
  {
    s.cwt[j] >= -depth - m * (width - Size(width, Held(s, ls, lo, i, e, j, depth)))
  }

  lemma {:induction false} SizeGrows(n: nat, a: set<nat>, b: set<nat>)
    requires a <= b
    ensures Size(n, a) <= Size(n, b)
  {
    if n > 0 {
      SizeGrows(n - 1, a, b);
    }
  }

  lemma {:induction false} SizeShrinks(n: nat, a: set<nat>, b: set<nat>, t: nat)
    requires a <= b && t in b && t !in a && t < n
    ensures Size(n, a) <= Size(n, b) - 1
  {
    if t == n - 1 {
      SizeGrows(n - 1, a, b);
    } else {
      SizeShrinks(n - 1, a, b, t);
    }
  }

  lemma {:induction false} TicketsKept(s: State, l: Label, ls: seq<Label>, lo: nat, i: nat, t: nat, j: nat, depth: int)
    requires Ok(s) && Enabled(s, l) && lo <= i < |ls| && ls[i] == l && Ticket(Step(s, l), ls, lo, i + 1, t, j, depth)
    ensures Ticket(s, ls, lo, i, t, j, depth)
            || (l == Add(t) && At(s, t) && s.threads[t].pc.Adding?
                && s.threads[t].nodes[s.threads[t].pc.i] == j < |s.cwt|
                && s.cwt[j] + s.threads[t].pc.ewt >= -depth)
  {
    hide BestSoFar;
    var th' := Step(s, l).threads[t];
    if t < |s.threads| && Scanning(s.threads[t]) && !(l.Begin? && l.t == t) {
      if StartOf(ls, i + 1, t) >= lo {
        var k :| 0 <= k < |th'.seen| && k < |th'.nodes| && th'.nodes[k] == j && th'.seen[k] >= -depth;
        if k < |s.threads[t].seen| {
          assert s.threads[t].nodes[k] == j;
        }
      }
    }
  }

  lemma {:induction false} SupportedStep(s: State, l: Label, ls: seq<Label>, lo: nat, i: nat, e: set<nat>, j: nat,
                                         depth: int, width: nat, m: int)
    requires Ok(s) && Enabled(s, l) && Fair(s, m) && lo <= i < |ls| && ls[i] == l && !l.NewNode? && j < |s.cwt|
    requires m >= 0 && |s.threads| <= width
    requires l.Subtract? ==> l.t !in e && Ticketed(s, ls, lo, i, l.t, j, depth)
    requires Supported(s, ls, lo, i, e, j, depth, width, m)
    ensures j < |Step(s, l).cwt| && Supported(Step(s, l), ls, lo, i + 1, e, j, depth, width, m)
  {
    var h, h' := Held(s, ls, lo, i, e, j, depth), Held(Step(s, l), ls, lo, i + 1, e, j, depth);
    NewTickets(s, l, ls, lo, i, e, j, depth);
    CwtStep(s, l, j, m);
    hide Ok, Step, Enabled, Ticket, Held, Fair, Size;
    if h' <= h {
      SizeGrows(width, h', h);
      if Takes(s, l, j) {
        SizeShrinks(width, h', h, l.t);
      }
      MoreRoom(m, width, Size(width, h), Size(width, h'));
    } else {
      MoreRoom(m, width, width, Size(width, h'));
    }
  }

  lemma {:induction false} MoreRoom(m: int, width: int, size: int, size': int)
    requires m >= 0
    ensures size' <= size ==> m * (width - size) <= m * (width - size')
    ensures size' <= size - 1 ==> m * (width - size) + m <= m * (width - size')
  {
    if size' <= size {
      InOrder(m, width - size, width - size');
    }
    if size' <= size - 1 {
      InOrder(m, width - size + 1, width - size');
      assert m * (width - size + 1) == m * (width - size) + m;
    }
  }

  /** This step subtracts from node j. */
  ghost predicate Takes(s: State, l: Label, j: nat) {
    l.Subtract? && At(s, l.t) && s.threads[l.t].best < |s.threads[l.t].nodes|
    && s.threads[l.t].nodes[s.threads[l.t].best] == j
  }

  /** A thread that is about to subtract from j holds a ticket. */
  ghost predicate Ticketed(s: State, ls: seq<Label>, lo: nat, i: nat, t: nat, j: nat, depth: int)
    requires i <= |ls|
  {
    Takes(s, Subtract(t), j) ==> Ticket(s, ls, lo, i, t, j, depth)
  }

  lemma {:induction false} NewTickets(s: State, l: Label, ls: seq<Label>, lo: nat, i: nat, e: set<nat>, j: nat,
                                      depth: int)
    requires Ok(s) && Enabled(s, l) && lo <= i < |ls| && ls[i] == l && !l.NewNode? && j < |s.cwt|
    requires l.Subtract? ==> l.t !in e && Ticketed(s, ls, lo, i, l.t, j, depth)
    ensures j < |Step(s, l).cwt|
    ensures var h, h' := Held(s, ls, lo, i, e, j, depth), Held(Step(s, l), ls, lo, i + 1, e, j, depth);
            && (h' <= h || Step(s, l).cwt[j] >= -depth)
            && (Takes(s, l, j) ==> h' <= h && l.t in h && l.t !in h' && l.t < |s.threads|)
  {
    var h, h' := Held(s, ls, lo, i, e, j, depth), Held(Step(s, l), ls, lo, i + 1, e, j, depth);
    if t :| t in h' && t !in h {
      TicketsKept(s, l, ls, lo, i, t, j, depth);
      assert Step(s, l).cwt[j] == s.cwt[j] + s.threads[t].pc.ewt;
    }
    if Takes(s, l, j) {
      assert !Scanning(Step(s, l).threads[l.t]);
    }
  }

  /** What a step does to one weight: nothing, a rise, or a subtraction of at most m. */
  lemma {:induction false} CwtStep(s: State, l: Label, j: nat, m: int)
    requires Ok(s) && Enabled(s, l) && Fair(s, m) && !l.NewNode? && j < |s.cwt|
    ensures j < |Step(s, l).cwt|
    ensures if Takes(s, l, j) then Step(s, l).cwt[j] >= s.cwt[j] - m else Step(s, l).cwt[j] >= s.cwt[j]
  {
    SameWidth(s, l);
    match l {
      case Add(t) => assert OwesFairly(s.threads[t], m);
      case Subtract(t) => assert OwesFairly(s.threads[t], m);
      case _ =>
    }
  }

  /** Within a stretch a node that starts at -depth or higher loses at most m per thread that subtracts. */
  lemma {:induction false} FloorInStretch(run: seq<State>, ls: seq<Label>, width: nat, m: int, lo: nat, i: nat,
                                          e: set<nat>, j: nat, depth: int)
    requires IsRun(run, ls, width, m) && lo <= i < |run| && Quiet(ls, lo, i, e) && SawAtLeast(run, ls, lo, i, depth)
    requires j < |run[0].cwt| == |run[lo].cwt| && run[lo].cwt[j] >= -depth
    ensures j < |run[i].cwt| && Supported(run[i], ls, lo, i, e, j, depth, width, m)
    decreases i
  {
    hide Ok, Step, Enabled, Allowed, Fair, Held, Size, BestSeenAtLeast, Ticket;
    SameNodes(run, ls, width, m, i);
    if i == lo {
      InOrder(m, 0, width - Size(width, Held(run[i], ls, lo, i, e, j, depth)));
    } else {
      FloorInStretch(run, ls, width, m, lo, i - 1, e, j, depth);
      AlwaysFair(run, ls, width, m, i - 1);
      if ls[i - 1].Subtract? {
        SubtractsWithTicket(run, ls, width, m, lo, i - 1, j, depth);
      }
      NoNewNode(run[i - 1], ls[i - 1], m);
      SupportedStep(run[i - 1], ls[i - 1], ls, lo, i - 1, e, j, depth, width, m);
    }
  }

  lemma {:induction false} NoNewNode(s: State, l: Label, m: int)
    requires Allowed(s, l, m)
    ensures !l.NewNode?
  {}

  lemma {:induction false} SubtractsWithTicket(run: seq<State>, ls: seq<Label>, width: nat, m: int, lo: nat, i: nat,
                                               j: nat, depth: int)
    requires IsRun(run, ls, width, m) && lo <= i < |ls| && ls[i].Subtract? && SawAtLeast(run, ls, lo, i + 1, depth)
    ensures Ticketed(run[i], ls, lo, i, ls[i].t, j, depth)
  {
    hide Allowed;
    var s, t := run[i], ls[i].t;
    if Takes(s, Subtract(t), j) && StartOf(ls, i, t) >= lo {
      assert BestSeenAtLeast(s.threads[t], -depth);
      assert SawNode(s.threads[t], j, -depth);
    }
  }

  // ---------------------------------------------------------------- what a pick can mistake for the best

  /** 0 + 1 + ... + (q - 1). */
  function Depth(q: nat): nat {
    if q == 0 then 0 else Depth(q - 1) + q - 1
  }

  /** While node j never was below x, no thread that began meanwhile saw it below x. */
  lemma {:induction false} SeenAbove(run: seq<State>, ls: seq<Label>, width: nat, m: int, i: nat, t: nat, k: nat,
                                     x: int)
    requires IsRun(run, ls, width, m) && i < |run| && t < |run[i].threads| && Scanning(run[i].threads[t])
    requires k < |run[i].threads[t].seen| && k < |run[i].threads[t].nodes|
    requires forall a | StartOf(ls, i, t) < a <= i ::
               run[i].threads[t].nodes[k] < |run[a].cwt| && run[a].cwt[run[i].threads[t].nodes[k]] >= x
    ensures run[i].threads[t].seen[k] >= x
    decreases i
  {
    hide IsRun, Ok, Step, Enabled, Scanning;
    RunLength(run, ls, width, m);
    ScanSinceStart(run, ls, width, m, i, t);
    StepAt(run, ls, width, m, i - 1);
    var s, l := run[i - 1], ls[i - 1];
    if l.Begin? && l.t == t {
      NothingSeenYet(s, l);
    } else {
      ScanBack(s, l, t);
      SeenStep(s, l, t, k, x);
      if k < |s.threads[t].seen| {
        SeenAbove(run, ls, width, m, i - 1, t, k, x);
      }
    }
  }

  lemma {:induction false} NothingSeenYet(s: State, l: Label)
    requires Ok(s) && Enabled(s, l) && l.Begin?
    ensures l.t < |Step(s, l).threads| && Step(s, l).threads[l.t].seen == []
  {}

  lemma {:induction false} SeenStep(s: State, l: Label, t: nat, k: nat, x: int)
    requires Ok(s) && Enabled(s, l) && t < |s.threads| && Scanning(s.threads[t]) && !(l.Begin? && l.t == t)
    requires t < |Step(s, l).threads| && Scanning(Step(s, l).threads[t])
    requires k < |Step(s, l).threads[t].seen| && k < |Step(s, l).threads[t].nodes|
    ensures k < |s.threads[t].seen| ==> Step(s, l).threads[t].seen[k] == s.threads[t].seen[k]
    ensures k >= |s.threads[t].seen| ==>
              var j := Step(s, l).threads[t].nodes[k];
              j < |Step(s, l).cwt| && Step(s, l).threads[t].seen[k] == Step(s, l).cwt[j]
  {
    hide BestSoFar;
  }

  /** The heart of it, by induction on how many threads can interfere. A pick that lies within the stretch
      began when some node was at 0 or higher; during the pick that node is brought down only by the other
      threads, and they in turn only subtract from what they saw high enough; so the pick's best was seen
      high enough, too. */
  lemma {:induction false} BestIsHigh(run: seq<State>, ls: seq<Label>, width: nat, m: int, lo: nat, hi: nat,
                                      e: set<nat>)
    requires IsRun(run, ls, width, m) && lo <= hi <= |ls| && Quiet(ls, lo, hi, e)
    ensures SawAtLeast(run, ls, lo, hi, Depth(width - Size(width, e)) * m)
    decreases width - Size(width, e)
  {
    hide Ok, Step, Enabled, Allowed, BestSeenAtLeast, Depth, Size;
    forall i | lo <= i < hi && ls[i].Subtract? && At(run[i], ls[i].t) && StartOf(ls, i, ls[i].t) >= lo
      ensures BestSeenAtLeast(run[i].threads[ls[i].t], -(Depth(width - Size(width, e)) * m))
    {
      var t := ls[i].t;
      SubtractingScans(run[i], t);
      ScanSinceStart(run, ls, width, m, i, t);
      var b := StartOf(ls, i, t);
      OneMoreHeld(width, e, t);
      assert Quiet(ls, b + 1, i, e + {t});
      BestIsHigh(run, ls, width, m, b + 1, i, e + {t});
      PickSawHigh(run, ls, width, m, b, i, t, e);
    }
  }

  lemma {:induction false} SubtractingScans(s: State, t: nat)
    requires Enabled(s, Subtract(t))
    ensures t < |s.threads| && Scanning(s.threads[t])
  {}

  lemma {:induction false} OneMoreHeld(width: nat, e: set<nat>, t: nat)
    requires t < width && t !in e
    ensures Size(width, e + {t}) == Size(width, e) + 1
  {
    NoneLeft([], [], {});
    WithOneMore(Zeros(width), e, t);
  }

  lemma {:induction false} PickSawHigh(run: seq<State>, ls: seq<Label>, width: nat, m: int, b: nat, i: nat, t: nat,
                                       e: set<nat>)
    requires IsRun(run, ls, width, m) && b < i < |ls| && ls[i] == Subtract(t) && t < |run[i].threads|
    requires Scanning(run[i].threads[t]) && StartOf(ls, i, t) == b && t !in e && Quiet(ls, b + 1, i, e + {t})
    requires Size(width, e + {t}) == Size(width, e) + 1
    requires SawAtLeast(run, ls, b + 1, i, Depth(width - Size(width, e) - 1) * m)
    ensures BestSeenAtLeast(run[i].threads[t], -(Depth(width - Size(width, e)) * m))
  {
    hide Ok, Step, Enabled, Allowed, Size, Held, Fair;
    var q := width - Size(width, e);
    AlwaysFair(run, ls, width, m, b + 1);
    SumBetween(run[b + 1], width, m);
    SameNodes(run, ls, width, m, b + 1);
    SomeNodes(run, ls, width, m, i, t);
    var j := SomeNonnegative(run[b + 1].cwt);
    forall a | b < a <= i ensures j < |run[a].cwt| && run[a].cwt[j] >= -(Depth(q) * m) {
      StaysHigh(run, ls, width, m, b + 1, a, i, e + {t}, j, q);
    }
    CoversAll(run, ls, width, m, i, t, j);
    SawAllNodes(run[i], t);
    var k :| 0 <= k < |run[i].threads[t].nodes| && run[i].threads[t].nodes[k] == j;
    SeenAbove(run, ls, width, m, i, t, k, -(Depth(q) * m));
    BestIsBest(run[i], t, k);
  }

  /** A node that is at 0 or higher when a pick begins stays high while the pick lasts. */
  lemma {:induction false} StaysHigh(run: seq<State>, ls: seq<Label>, width: nat, m: int, lo: nat, a: nat, hi: nat,
                                     e: set<nat>, j: nat, q: nat)
    requires IsRun(run, ls, width, m) && lo <= a <= hi < |run| && Quiet(ls, lo, hi, e)
    requires 0 < q == width - Size(width, e) + 1 && SawAtLeast(run, ls, lo, hi, Depth(q - 1) * m)
    requires j < |run[0].cwt| == |run[lo].cwt| && run[lo].cwt[j] >= 0
    ensures j < |run[a].cwt| && run[a].cwt[j] >= -(Depth(q) * m)
  {
    hide Ok, Step, Enabled, Allowed, Size, Held, Depth, BestSeenAtLeast;
    InOrder(m, 0, Depth(q - 1));
    FloorInStretch(run, ls, width, m, lo, a, e, j, Depth(q - 1) * m);
    HeldAtLeast(run[a], ls, lo, a, e, j, Depth(q - 1) * m, width, m);
    DepthStep(q, m);
  }

  lemma {:induction false} SomeNodes(run: seq<State>, ls: seq<Label>, width: nat, m: int, i: nat, t: nat)
    requires IsRun(run, ls, width, m) && i < |run| && t < |run[i].threads| && Scanning(run[i].threads[t])
    ensures |run[0].cwt| > 0
  {
    hide BestSoFar;
    SameNodes(run, ls, width, m, i);
    assert ThreadOk(run[i].threads[t], |run[i].cwt|);
    assert run[i].threads[t].nodes[0] < |run[i].cwt|;
  }

  lemma {:induction false} HeldAtLeast(s: State, ls: seq<Label>, lo: nat, i: nat, e: set<nat>, j: nat, depth: int,
                                       width: nat, m: int)
    requires i <= |ls| && j < |s.cwt| && m >= 0 && Supported(s, ls, lo, i, e, j, depth, width, m)
    ensures s.cwt[j] >= -depth - m * (width - Size(width, e))
  {
    hide Size, Ticket;
    SizeGrows(width, e, Held(s, ls, lo, i, e, j, depth));
    InOrder(m, width - Size(width, Held(s, ls, lo, i, e, j, depth)), width - Size(width, e));
  }

  lemma {:induction false} DepthStep(q: nat, m: int)
    requires q > 0
    ensures Depth(q) * m == Depth(q - 1) * m + m * (q - 1)
  {
    assert Depth(q) == Depth(q - 1) + q - 1;
  }

  lemma {:induction false} SawAllNodes(s: State, t: nat)
    requires Ok(s) && Enabled(s, Subtract(t))
    ensures |s.threads[t].seen| == |s.threads[t].nodes|
  {
    assert ThreadOk(s.threads[t], |s.cwt|);
  }

  lemma {:induction false} BestIsBest(s: State, t: nat, k: nat)
    requires Ok(s) && Enabled(s, Subtract(t)) && k < |s.threads[t].seen|
    ensures BestSeenAtLeast(s.threads[t], s.threads[t].seen[k])
  {
    assert ThreadOk(s.threads[t], |s.cwt|);
  }

  // ---------------------------------------------------------------- the bounds

  lemma {:induction false} DepthClosed(q: nat)
    ensures 2 * Depth(q + 1) == q * (q + 1)
  {
    if q > 0 {
      DepthClosed(q - 1);
      assert Depth(q + 1) == Depth(q) + q;
    }
  }

  /** Fresh nodes, at most `width` picks at a time interleaved in any way, weights replaced at any time, no
      total above m: no weight ever falls below -T(T+1)/2 * m, and none rises above what that leaves. */
  lemma {:induction false} OverlappingPicksStayBounded(run: seq<State>, ls: seq<Label>, width: nat, m: int, i: nat,
                                                       j: nat)
    requires IsRun(run, ls, width, m) && i < |run| && j < |run[i].cwt|
    ensures 2 * Depth(width + 1) == width * (width + 1)
    ensures run[i].cwt[j] >= -(Depth(width + 1) * m)
    ensures run[i].cwt[j] <= width * m + (|run[i].cwt| - 1) * (Depth(width + 1) * m)
  {
    hide Ok, Step, Enabled, Allowed, Depth, Fair, Sum, SawAtLeast;
    DepthClosed(width);
    forall k | 0 <= k < |run[i].cwt| ensures run[i].cwt[k] >= -(Depth(width + 1) * m) {
      NeverBelow(run, ls, width, m, i, k);
    }
    AlwaysFair(run, ls, width, m, i);
    SumBetween(run[i], width, m);
    ElementAtMost(run[i].cwt, -(Depth(width + 1) * m), j);
    Negated(|run[i].cwt| - 1, Depth(width + 1) * m);
  }

  lemma {:induction false} NeverBelow(run: seq<State>, ls: seq<Label>, width: nat, m: int, i: nat, j: nat)
    requires IsRun(run, ls, width, m) && i < |run| && j < |run[i].cwt|
    ensures run[i].cwt[j] >= -(Depth(width + 1) * m)
  {
    hide Ok, Step, Enabled, Allowed, Depth, Held, BestSeenAtLeast, Size;
    SameNodes(run, ls, width, m, i);
    NoneLeft(Zeros(width), [], {});
    BestIsHigh(run, ls, width, m, 0, i, {});
    InOrder(m, 0, Depth(width));
    assert run[0].cwt[j] == 0;
    FloorInStretch(run, ls, width, m, 0, i, {}, j, Depth(width) * m);
    HeldAtLeast(run[i], ls, 0, i, {}, j, Depth(width) * m, width, m);
    DepthStep(width + 1, m);
  }

  /** Hence with T * m + n * T(T+1)/2 * m within int64 nothing that overlapping picks compute overflows: each
      raised or lowered weight is stored at once, and each running total is kept by its thread. */
  lemma {:induction false} OverlappingPicksFit(run: seq<State>, ls: seq<Label>, width: nat, m: int, i: nat)
    requires IsRun(run, ls, width, m) && i < |run|
    requires width * m + |run[0].cwt| * (Depth(width + 1) * m) <= INT64_MAX
    ensures forall j | 0 <= j < |run[i].cwt| :: -INT64_MAX <= run[i].cwt[j] <= INT64_MAX
    ensures forall t | 0 <= t < |run[i].threads| :: 0 <= run[i].threads[t].total <= INT64_MAX
  {
    hide Ok, Step, Enabled, Allowed, Depth;
    SameNodes(run, ls, width, m, i);
    InOrder(m, 0, Depth(width + 1));
    InOrder(m, 0, width);
    forall j | 0 <= j < |run[i].cwt| ensures -INT64_MAX <= run[i].cwt[j] <= INT64_MAX {
      OverlappingPicksStayBounded(run, ls, width, m, i, j);
      Distribute(|run[0].cwt| - 1, 1, Depth(width + 1) * m);
      InOrder(Depth(width + 1) * m, 0, |run[0].cwt| - 1);
    }
    InOrder(Depth(width + 1) * m, 0, |run[0].cwt|);
    AlwaysFair(run, ls, width, m, i);
    forall t | 0 <= t < |run[i].threads| ensures 0 <= run[i].threads[t].total <= INT64_MAX {
      assert OwesFairly(run[i].threads[t], m);
      InOrder(m, 1, width);
    }
  }
}
