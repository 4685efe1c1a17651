/** Many picks at once. Each thread runs `picker.pick` one atomic operation at a time, holding the
    node slice of the picker it loaded; `recompute` stores weights and `setAddrs` adds nodes at any
    point in between. A node is its index; a node dropped by `setAddrs` stays, since in-flight
    picks may still hold it. */
module ConcurrentPick {
  import opened SeqSums
  import SmoothWrr

  /** Where a thread stands inside `pick`. `i` is the loop index. */
  datatype Pc =
    | Idle
    | Loading(i: nat)              // about to load ewt of nodes[i], or past the loop
    | Adding(i: nat, ewt: int)     // ewt loaded and counted in total, cwt not yet raised
    | Counting                     // total subtracted, picks not yet incremented

  /** `best` indexes `nodes`; `seen` are the raised weights that the thread's own additions returned. */
  datatype Thread = Thread(pc: Pc, nodes: seq<nat>, total: int, best: nat, seen: seq<int>)

  const RESTING := Thread(Idle, [], 0, 0, [])

  datatype State = State(ewt: seq<int>, cwt: seq<int>, picks: seq<int>, threads: seq<Thread>)

  datatype Label =
    | Spawn
    | Begin(t: nat, nodes: seq<nat>)
    | Load(t: nat)
    | Add(t: nat)
    | Subtract(t: nat)
    | Count(t: nat)
    | Store(n: nat, w: int)
    | NewNode(w: int)

  ghost predicate ThreadOk(th: Thread, n: nat) {
    && (forall j | 0 <= j < |th.nodes| :: th.nodes[j] < n)
    && (th.pc.Idle? || th.nodes != [])
    && (th.pc.Loading? ==> th.pc.i <= |th.nodes| && |th.seen| == th.pc.i)
    && (th.pc.Adding? ==> th.pc.i < |th.nodes| && |th.seen| == th.pc.i)
    && (th.pc.Counting? ==> |th.seen| == |th.nodes|)
    && (th.seen != [] ==> BestSoFar(th))
    && |th.seen| <= |th.nodes|
  }

  /** The thread's choice is the first maximum of the values it saw. */
  ghost predicate BestSoFar(th: Thread) {
    && th.best < |th.seen|
    && (forall j | 0 <= j < |th.seen| :: th.seen[j] <= th.seen[th.best])
    && (forall j | 0 <= j < th.best :: th.seen[j] < th.seen[th.best])
  }

  ghost predicate Ok(s: State) {
    && |s.ewt| == |s.cwt| == |s.picks|
    && (forall t | 0 <= t < |s.threads| :: ThreadOk(s.threads[t], |s.cwt|))
  }

  predicate At(s: State, t: nat) {
    t < |s.threads|
  }

  predicate Enabled(s: State, l: Label) {
    match l
    case Spawn => true
    case Begin(t, nodes) =>
      At(s, t) && s.threads[t].pc.Idle? && nodes != [] && forall j | 0 <= j < |nodes| :: nodes[j] < |s.cwt|
    case Load(t) => At(s, t) && s.threads[t].pc.Loading? && s.threads[t].pc.i < |s.threads[t].nodes|
    case Add(t) => At(s, t) && s.threads[t].pc.Adding?
    case Subtract(t) => At(s, t) && s.threads[t].pc.Loading? && s.threads[t].pc.i == |s.threads[t].nodes|
    case Count(t) => At(s, t) && s.threads[t].pc.Counting?
    case Store(n, w) => n < |s.ewt|
    case NewNode(w) => true
  }

  /** One atomic operation. */
  function Step(s: State, l: Label): State
    requires Enabled(s, l)
    requires Ok(s)
  {
    match l
    case Spawn => s.(threads := s.threads + [RESTING])
    case Begin(t, nodes) => s.(threads := s.threads[t := Thread(Loading(0), nodes, 0, 0, [])])
    case Load(t) =>
      var th := s.threads[t];
      var w := s.ewt[th.nodes[th.pc.i]];
      s.(threads := s.threads[t := th.(pc := Adding(th.pc.i, w), total := th.total + w)])
    case Add(t) =>
      var th := s.threads[t];
      var node := th.nodes[th.pc.i];
      var raised := s.cwt[node] + th.pc.ewt;
      var best := if th.seen == [] || raised > th.seen[th.best] then th.pc.i else th.best;
      s.(cwt := s.cwt[node := raised],
         threads := s.threads[t := th.(pc := Loading(th.pc.i + 1), best := best, seen := th.seen + [raised])])
    case Subtract(t) =>
      var th := s.threads[t];
      var node := th.nodes[th.best];
      s.(cwt := s.cwt[node := s.cwt[node] - th.total], threads := s.threads[t := th.(pc := Counting)])
    case Count(t) =>
      var th := s.threads[t];
      var node := th.nodes[th.best];
      s.(picks := s.picks[node := s.picks[node] + 1], threads := s.threads[t := RESTING])
    case Store(n, w) => s.(ewt := s.ewt[n := w])
    case NewNode(w) => s.(ewt := s.ewt + [w], cwt := s.cwt + [0], picks := s.picks + [0])
  }

  lemma {:induction false} StepKeepsOk(s: State, l: Label)
    requires Ok(s) && Enabled(s, l)
    ensures Ok(Step(s, l))
  {}

  /** What an unfinished pick has added to the shared weights and not yet taken back. */
  function Owed(th: Thread): int {
    match th.pc
    case Loading(_) => th.total
    case Adding(_, w) => th.total - w
    case _ => 0
  }

  function Busy(th: Thread): int {
    if th.pc.Idle? then 0 else 1
  }

  function Owing(ths: seq<Thread>): (r: seq<int>)
    ensures |r| == |ths| && forall t | 0 <= t < |ths| :: r[t] == Owed(ths[t])
  {
    seq(|ths|, t requires 0 <= t < |ths| => Owed(ths[t]))
  }

  function Running(ths: seq<Thread>): (r: seq<int>)
    ensures |r| == |ths| && forall t | 0 <= t < |ths| :: r[t] == Busy(ths[t])
  {
    seq(|ths|, t requires 0 <= t < |ths| => Busy(ths[t]))
  }

  /** Shared weight that no in-flight pick accounts for. */
  function Settled(s: State): int {
    Sum(s.cwt) - Sum(Owing(s.threads))
  }

  lemma {:induction false} ThreadUpdate(ths: seq<Thread>, t: nat, th: Thread)
    requires t < |ths|
    ensures Sum(Owing(ths[t := th])) == Sum(Owing(ths)) - Owed(ths[t]) + Owed(th)
    ensures Sum(Running(ths[t := th])) == Sum(Running(ths)) - Busy(ths[t]) + Busy(th)
  {
    assert Owing(ths[t := th]) == Owing(ths)[t := Owed(th)];
    assert Running(ths[t := th]) == Running(ths)[t := Busy(th)];
    SumUpdate(Owing(ths), t, Owed(th));
    SumUpdate(Running(ths), t, Busy(th));
  }

  lemma {:induction false} ThreadAppend(ths: seq<Thread>)
    ensures Sum(Owing(ths + [RESTING])) == Sum(Owing(ths))
    ensures Sum(Running(ths + [RESTING])) == Sum(Running(ths))
  {
    assert Owing(ths + [RESTING]) == Owing(ths) + [0];
    assert Running(ths + [RESTING]) == Running(ths) + [0];
    SumAppend(Owing(ths), 0);
    SumAppend(Running(ths), 0);
  }

  function Begins(l: Label): int { if l.Begin? then 1 else 0 }
  function Counts(l: Label): int { if l.Count? then 1 else 0 }

  lemma {:induction false} StepConserves(s: State, l: Label)
    requires Ok(s) && Enabled(s, l)
    ensures Settled(Step(s, l)) == Settled(s)
    ensures Sum(Step(s, l).picks) == Sum(s.picks) + Counts(l)
    ensures Sum(Running(Step(s, l).threads)) == Sum(Running(s.threads)) + Begins(l) - Counts(l)
  {
    hide Sum;
    var s' := Step(s, l);
    match l {
      case Spawn => ThreadAppend(s.threads);
      case Store(_, _) =>
      case NewNode(_) =>
        SumAppend(s.cwt, 0);
        SumAppend(s.picks, 0);
      case Add(t) =>
        ThreadUpdate(s.threads, t, s'.threads[t]);
        var node := s.threads[t].nodes[s.threads[t].pc.i];
        SumUpdate(s.cwt, node, s'.cwt[node]);
      case Subtract(t) =>
        ThreadUpdate(s.threads, t, s'.threads[t]);
        var node := s.threads[t].nodes[s.threads[t].best];
        SumUpdate(s.cwt, node, s'.cwt[node]);
      case Count(t) =>
        ThreadUpdate(s.threads, t, s'.threads[t]);
        var node := s.threads[t].nodes[s.threads[t].best];
        SumUpdate(s.picks, node, s'.picks[node]);
      case Begin(t, _) => ThreadUpdate(s.threads, t, s'.threads[t]);
      case Load(t) => ThreadUpdate(s.threads, t, s'.threads[t]);
    }
  }

  // ---------------------------------------------------------------- runs

  /** `s'` is reached from `s` by the atomic operations `ls`, in that order. */
  ghost predicate Reaches(s: State, ls: seq<Label>, s': State)
    requires Ok(s)
    decreases |ls|
  {
    if ls == [] then s' == s
    else
      && Enabled(s, ls[0])
      && (StepKeepsOk(s, ls[0]); Reaches(Step(s, ls[0]), ls[1..], s'))
  }

  function Begun(ls: seq<Label>): int { if ls == [] then 0 else Begins(ls[0]) + Begun(ls[1..]) }
  function Completed(ls: seq<Label>): int { if ls == [] then 0 else Counts(ls[0]) + Completed(ls[1..]) }

  lemma {:induction false} RunConserves(s: State, ls: seq<Label>, s': State)
    requires Ok(s) && Reaches(s, ls, s')
    ensures Ok(s')
    ensures Settled(s') == Settled(s)
    ensures Sum(s'.picks) == Sum(s.picks) + Completed(ls)
    ensures Sum(Running(s'.threads)) == Sum(Running(s.threads)) + Begun(ls) - Completed(ls)
    decreases |ls|
  {
    hide Step, Enabled, Settled, Sum;
    if ls != [] {
      StepKeepsOk(s, ls[0]);
      StepConserves(s, ls[0]);
      RunConserves(Step(s, ls[0]), ls[1..], s');
    }
  }

  ghost predicate Quiescent(s: State) {
    forall t | 0 <= t < |s.threads| :: s.threads[t].pc.Idle?
  }

  lemma {:induction false} QuiescentOwesNothing(s: State)
    requires Quiescent(s)
    ensures Settled(s) == Sum(s.cwt) && Sum(Running(s.threads)) == 0
  {
    assert Owing(s.threads) == Zeros(|s.threads|);
    assert Running(s.threads) == Zeros(|s.threads|);
    SumZeros(|s.threads|);
  }

  /** Between two moments without in-flight picks, however they overlapped and whatever weights
      were stored meanwhile: the sum of `cwt` is unchanged, every pick that began has completed,
      and `picks` grew by exactly the completed picks. */
  lemma {:induction false} QuiescentConservation(s: State, ls: seq<Label>, s': State)
    requires Ok(s) && Reaches(s, ls, s') && Quiescent(s) && Quiescent(s')
    ensures Sum(s'.cwt) == Sum(s.cwt)
    ensures Sum(s'.picks) == Sum(s.picks) + Completed(ls)
    ensures Begun(ls) == Completed(ls)
  {
    RunConserves(s, ls, s');
    QuiescentOwesNothing(s);
    QuiescentOwesNothing(s');
  }

  // ---------------------------------------------------------------- one pick alone

  /** The slice that holds every node. */
  function AllNodes(n: nat): seq<nat> { seq(n, i requires 0 <= i < n => i) }

  /** Thread t's loop over the first i nodes, with no other thread in between. */
  ghost predicate Scanned(s: State, s': State, t: nat, i: nat)
    requires Ok(s) && i <= |s.cwt|
  {
    && |s'.cwt| == |s.cwt| && s'.ewt == s.ewt && s'.picks == s.picks
    && t < |s.threads| == |s'.threads|
    && (forall j | 0 <= j < |s.cwt| :: s'.cwt[j] == s.cwt[j] + if j < i then s.ewt[j] else 0)
    && var th := s'.threads[t];
      && th.pc == Loading(i) && th.nodes == AllNodes(|s.cwt|)
      && th.total == Sum(s.ewt[..i])
      && th.seen == Plus(s.cwt, s.ewt)[..i]
  }

  lemma {:induction false} ScanNext(s: State, s': State, t: nat, i: nat)
    requires Ok(s) && Ok(s') && i < |s.cwt| && Scanned(s, s', t, i)
    ensures Enabled(s', Load(t)) && Enabled(Step(s', Load(t)), Add(t))
    ensures Ok(Step(s', Load(t)))
    ensures Scanned(s, Step(Step(s', Load(t)), Add(t)), t, i + 1)
  {
    hide Sum;
    StepKeepsOk(s', Load(t));
    var r := Step(Step(s', Load(t)), Add(t));
    assert s.ewt[..i + 1] == s.ewt[..i] + [s.ewt[i]];
    SumAppend(s.ewt[..i], s.ewt[i]);
    assert r.threads[t].seen == Plus(s.cwt, s.ewt)[..i] + [s.cwt[i] + s.ewt[i]];
  }

  /** The operations of one pick over nodes i.., after its loop has passed the first i. */
  function Rest(t: nat, i: nat, n: nat): seq<Label>
    requires i <= n
    decreases n - i
  {
    if i == n then [Subtract(t), Count(t)] else [Load(t), Add(t)] + Rest(t, i + 1, n)
  }

  lemma {:induction false} FinishAlone(s: State, s': State, t: nat) returns (end: State)
    requires Ok(s) && Ok(s') && |s.cwt| > 0 && Scanned(s, s', t, |s.cwt|)
    ensures Reaches(s', [Subtract(t), Count(t)], end)
    ensures end.cwt == SmoothWrr.Next(s.ewt, s.cwt)
    ensures end.picks == s.picks[SmoothWrr.Winner(s.ewt, s.cwt) := s.picks[SmoothWrr.Winner(s.ewt, s.cwt)] + 1]
  {
    hide Sum, SmoothWrr.FirstMax;
    var n := |s.cwt|;
    var mid := Step(s', Subtract(t));
    StepKeepsOk(s', Subtract(t));
    end := Step(mid, Count(t));
    assert Reaches(mid, [Count(t)], end) by {
      StepKeepsOk(mid, Count(t));
      assert [Count(t)][1..] == [];
    }
    assert [Subtract(t), Count(t)][1..] == [Count(t)];
    assert s.ewt[..n] == s.ewt && Plus(s.cwt, s.ewt)[..n] == Plus(s.cwt, s.ewt);
    assert s'.threads[t].best == SmoothWrr.Winner(s.ewt, s.cwt);
  }

  lemma {:induction false} RunAlone(s: State, s': State, t: nat, i: nat) returns (end: State)
    requires Ok(s) && Ok(s') && |s.cwt| > 0 && i <= |s.cwt| && Scanned(s, s', t, i)
    ensures Reaches(s', Rest(t, i, |s.cwt|), end)
    ensures end.cwt == SmoothWrr.Next(s.ewt, s.cwt)
    ensures end.picks == s.picks[SmoothWrr.Winner(s.ewt, s.cwt) := s.picks[SmoothWrr.Winner(s.ewt, s.cwt)] + 1]
    decreases |s.cwt| - i
  {
    hide Step, Enabled, Scanned, SmoothWrr.Next, SmoothWrr.Winner;
    if i == |s.cwt| {
      end := FinishAlone(s, s', t);
    } else {
      ScanNext(s, s', t, i);
      var mid := Step(s', Load(t));
      StepKeepsOk(mid, Add(t));
      end := RunAlone(s, Step(mid, Add(t)), t, i + 1);
      var rest := Rest(t, i + 1, |s.cwt|);
      assert ([Load(t), Add(t)] + rest)[1..] == [Add(t)] + rest;
      assert ([Add(t)] + rest)[1..] == rest;
    }
  }

  /** A pick that nobody interrupts has exactly the effect of the sequential `SmoothWrr.Next`. */
  lemma {:induction false} AlonePickIsSequential(s: State, t: nat) returns (end: State)
    requires Ok(s) && |s.cwt| > 0 && t < |s.threads| && s.threads[t].pc.Idle?
    ensures Reaches(s, [Begin(t, AllNodes(|s.cwt|))] + Rest(t, 0, |s.cwt|), end)
    ensures end.cwt == SmoothWrr.Next(s.ewt, s.cwt)
    ensures end.picks == s.picks[SmoothWrr.Winner(s.ewt, s.cwt) := s.picks[SmoothWrr.Winner(s.ewt, s.cwt)] + 1]
  {
    hide SmoothWrr.Next, SmoothWrr.Winner;
    var begin := Begin(t, AllNodes(|s.cwt|));
    StepKeepsOk(s, begin);
    end := RunAlone(s, Step(s, begin), t, 0);
    assert ([begin] + Rest(t, 0, |s.cwt|))[1..] == Rest(t, 0, |s.cwt|);
  }

  // ---------------------------------------------------------------- any number of picks at once

  lemma {:induction false} Starts(s: State, nodes: seq<nat>) returns (s1: State, s': State)
    requires Ok(s) && nodes != [] && forall j | 0 <= j < |nodes| :: nodes[j] < |s.cwt|
    ensures Enabled(s, Spawn) && s1 == Step(s, Spawn) && Ok(s1)
    ensures Enabled(s1, Begin(|s.threads|, nodes)) && s' == Step(s1, Begin(|s.threads|, nodes)) && Ok(s')
    ensures s' == s.(threads := s.threads + [Thread(Loading(0), nodes, 0, 0, [])])
  {
    StepKeepsOk(s, Spawn);
    s1 := Step(s, Spawn);
    StepKeepsOk(s1, Begin(|s.threads|, nodes));
    s' := Step(s1, Begin(|s.threads|, nodes));
    assert s'.threads == s.threads + [Thread(Loading(0), nodes, 0, 0, [])];
  }

  /** From any state, and over any nodes, any number of further picks can be in flight at once. */
  lemma {:induction false} AnyOverlap(s: State, nodes: seq<nat>, T: nat) returns (ls: seq<Label>, s': State)
    requires Ok(s) && nodes != [] && forall j | 0 <= j < |nodes| :: nodes[j] < |s.cwt|
    ensures Reaches(s, ls, s') && Begun(ls) == T && Completed(ls) == 0
    ensures |s'.threads| == |s.threads| + T && s.threads <= s'.threads
    ensures forall t | |s.threads| <= t < |s'.threads| :: s'.threads[t] == Thread(Loading(0), nodes, 0, 0, [])
    ensures s' == s.(threads := s'.threads)
    decreases T
  {
    hide Step, Enabled, Ok;
    if T == 0 {
      return [], s;
    }
    var s1, s2 := Starts(s, nodes);
    var rest;
    rest, s' := AnyOverlap(s2, nodes, T - 1);
    var begin := Begin(|s.threads|, nodes);
    assert Reaches(s1, [begin] + rest, s') by {
      assert ([begin] + rest)[1..] == rest;
    }
    ls := [Spawn] + ([begin] + rest);
    assert ls[1..] == [begin] + rest && ([begin] + rest)[1..] == rest;
  }

  /** At any time a node can join, at 0 and without a pick, and a weight can be replaced; neither moves anything
      else. */
  lemma {:induction false} NodesAndWeights(s: State, n: nat, w: int)
    requires Ok(s)
    ensures Enabled(s, NewNode(w))
    ensures Step(s, NewNode(w)) == s.(ewt := s.ewt + [w], cwt := s.cwt + [0], picks := s.picks + [0])
    ensures n < |s.ewt| ==> Enabled(s, Store(n, w)) && Step(s, Store(n, w)) == s.(ewt := s.ewt[n := w])
  {}
}
