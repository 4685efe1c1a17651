/** Proportional shares when picks overlap. With fixed weights and T picks at a time, every node is picked in
    proportion to its weight up to an error that does not grow with the number of picks: what a node was
    given and what was taken from it differ by its current weight, which is bounded. */
module OverlapFairness {
  import opened Arithmetic
  import opened ChangingNodes
  import opened ConcurrentPick
  import opened OverlapBounds
  import opened SeqSums

  // ---------------------------------------------------------------- runs with fixed weights

  /** A slice that lists each of n nodes once, in any order. */
  ghost predicate ListsAll(nodes: seq<nat>, n: nat) {
    && |nodes| == n
    && (forall k | 0 <= k < |nodes| :: nodes[k] < n)
    && (forall k, k' | 0 <= k < k' < |nodes| :: nodes[k] != nodes[k'])
    && (forall j: nat | j < n :: j in nodes)
  }

  ghost predicate Calm(l: Label, n: nat) {
    !l.Store? && !l.NewNode? && (l.Begin? ==> ListsAll(l.nodes, n))
  }

  /** Fresh nodes with the weights `w`, never more than `width` picks at a time. */
  ghost predicate SteadyRun(run: seq<State>, ls: seq<Label>, width: nat, w: seq<int>) {
    && |run| == |ls| + 1 && AllAtLeast(w, 0)
    && run[0].threads == [] && run[0].ewt == w && run[0].cwt == Zeros(|w|)
    && (forall i | 0 <= i < |run| :: Ok(run[i]) && |run[i].threads| <= width)
    && forall i | 0 <= i < |ls| ::
         Enabled(run[i], ls[i]) && Calm(ls[i], |w|) && run[i + 1] == Step(run[i], ls[i])
  }

  lemma {:induction false} SteadyStep(run: seq<State>, ls: seq<Label>, width: nat, w: seq<int>, i: nat)
    requires SteadyRun(run, ls, width, w) && i < |ls|
    ensures |run| == |ls| + 1 && Ok(run[i]) && Enabled(run[i], ls[i]) && Calm(ls[i], |w|)
    ensures run[i + 1] == Step(run[i], ls[i])
  {}

  lemma {:induction false} StepCount(run: seq<State>, ls: seq<Label>, width: nat, w: seq<int>)
    requires SteadyRun(run, ls, width, w)
    ensures |run| == |ls| + 1
  {}

  lemma {:induction false} SteadyStart(run: seq<State>, ls: seq<Label>, width: nat, w: seq<int>)
    requires SteadyRun(run, ls, width, w)
    ensures |run| == |ls| + 1 && AllAtLeast(w, 0) && Ok(run[0])
    ensures run[0].threads == [] && run[0].ewt == w && run[0].cwt == Zeros(|w|)
  {}

  // ---------------------------------------------------------------- what a thread has added up

  ghost function Elems(nodes: seq<nat>): set<nat> {
    set x | x in nodes
  }

  function Loaded(th: Thread): nat {
    match th.pc
    case Loading(i) => i
    case Adding(i, _) => i + 1
    case _ => 0
  }

  /** A scanning thread goes over every node once, and its total is the sum of the weights it loaded. */
  ghost predicate Whole(th: Thread, w: seq<int>) {
    && (!th.pc.Idle? ==> ListsAll(th.nodes, |w|))
    && (Scanning(th) ==> Loaded(th) <= |th.nodes| && th.total == SumOver(w, Elems(th.nodes[..Loaded(th)])))
    && (th.pc.Adding? ==> th.pc.i < |th.nodes| && th.pc.ewt == w[th.nodes[th.pc.i]])
  }

  ghost predicate AllWhole(s: State, w: seq<int>) {
    s.ewt == w && forall t | 0 <= t < |s.threads| :: Whole(s.threads[t], w)
  }

  lemma {:induction false} LoadedOneMore(w: seq<int>, nodes: seq<nat>, i: nat)
    requires ListsAll(nodes, |w|) && i < |nodes|
    ensures SumOver(w, Elems(nodes[..i + 1])) == SumOver(w, Elems(nodes[..i])) + w[nodes[i]]
  {
    assert Elems(nodes[..i + 1]) == Elems(nodes[..i]) + {nodes[i]};
    WithOneMore(w, Elems(nodes[..i]), nodes[i]);
  }

  lemma {:induction false} NoneLoaded(w: seq<int>)
    ensures SumOver(w, Elems([])) == 0
  {
    NoneLeft(w, [], {});
    assert Elems([]) == {};
  }

  lemma {:induction false} AllLoaded(w: seq<int>, nodes: seq<nat>)
    requires ListsAll(nodes, |w|)
    ensures SumOver(w, Elems(nodes[..|nodes|])) == Sum(w)
  {
    assert nodes[..|nodes|] == nodes;
    SizeOfAll(|w|, Elems(nodes));
    SumOverAll(w, Elems(nodes));
  }

  lemma {:induction false} SizeOfAll(n: nat, a: set<nat>)
    requires forall j: nat | j < n :: j in a
    ensures Size(n, a) == n
  {
    if n > 0 {
      SizeOfAll(n - 1, a);
    }
  }

  lemma {:induction false} PartOfAll(w: seq<int>, a: set<nat>)
    requires AllAtLeast(w, 0)
    ensures 0 <= SumOver(w, a) <= Sum(w)
  {
    if w != [] {
      PartOfAll(w[..|w|-1], a);
    }
  }

  lemma {:induction false} StepKeepsWhole(s: State, l: Label, w: seq<int>)
    requires Ok(s) && Enabled(s, l) && Calm(l, |w|) && AllWhole(s, w)
    ensures AllWhole(Step(s, l), w)
  {
    hide SumOver, ListsAll, Elems, BestSoFar;
    match l {
      case Begin(t, nodes) =>
        NoneLoaded(w);
        assert nodes[..0] == [];
      case Load(t) =>
        LoadedOneMore(w, s.threads[t].nodes, s.threads[t].pc.i);
        LoadedInRange(s.threads[t].nodes, |w|, s.threads[t].pc.i);
      case _ =>
    }
  }

  lemma {:induction false} LoadedInRange(nodes: seq<nat>, n: nat, i: nat)
    requires ListsAll(nodes, n) && i < |nodes|
    ensures nodes[i] < n
  {}

  lemma {:induction false} AlwaysWhole(run: seq<State>, ls: seq<Label>, width: nat, w: seq<int>, i: nat)
    requires SteadyRun(run, ls, width, w) && i < |run|
    ensures AllWhole(run[i], w)
  {
    SteadyStart(run, ls, width, w);
    hide SteadyRun, Ok, Step, Enabled, Calm, Whole;
    if i > 0 {
      SteadyStep(run, ls, width, w, i - 1);
      AlwaysWhole(run, ls, width, w, i - 1);
      StepKeepsWhole(run[i - 1], ls[i - 1], w);
    }
  }

  /** Hence the bounds for overlapping picks apply, with the sum of the weights as the bound on totals. */
  lemma {:induction false} SteadyIsRun(run: seq<State>, ls: seq<Label>, width: nat, w: seq<int>)
    requires SteadyRun(run, ls, width, w)
    ensures IsRun(run, ls, width, Sum(w))
  {
    hide Ok, Step, Enabled, Sum, ListsAll;
    SumAtLeast(w, 0);
    forall i | 0 <= i < |ls| ensures OverlapBounds.Allowed(run[i], ls[i], Sum(w)) {
      AlwaysWhole(run, ls, width, w, i);
      CalmIsAllowed(run[i], ls[i], w);
    }
  }

  lemma {:induction false} CalmIsAllowed(s: State, l: Label, w: seq<int>)
    requires Ok(s) && Enabled(s, l) && Calm(l, |w|) && AllWhole(s, w) && AllAtLeast(w, 0)
    ensures OverlapBounds.Allowed(s, l, Sum(w))
  {
    hide Sum, SumOver, BestSoFar, Elems;
    if l.Load? {
      var th := s.threads[l.t];
      LoadedOneMore(w, th.nodes, th.pc.i);
      PartOfAll(w, Elems(th.nodes[..th.pc.i + 1]));
    }
  }

  // ---------------------------------------------------------------- the ledger

  /** How many threads satisfy f. */
  function Tally(ths: seq<Thread>, f: Thread -> bool): int {
    Sum(seq(|ths|, t requires 0 <= t < |ths| => if f(ths[t]) then 1 else 0))
  }

  lemma {:induction false} TallyUpdate(ths: seq<Thread>, f: Thread -> bool, t: nat, th: Thread)
    requires t < |ths|
    ensures Tally(ths[t := th], f) == Tally(ths, f) - (if f(ths[t]) then 1 else 0) + if f(th) then 1 else 0
  {
    var s := seq(|ths|, t requires 0 <= t < |ths| => if f(ths[t]) then 1 else 0);
    var s' := seq(|ths|, k requires 0 <= k < |ths| => if f(ths[t := th][k]) then 1 else 0);
    assert s' == s[t := if f(th) then 1 else 0];
    SumUpdate(s, t, if f(th) then 1 else 0);
  }

  lemma {:induction false} TallyAppend(ths: seq<Thread>, f: Thread -> bool, th: Thread)
    ensures Tally(ths + [th], f) == Tally(ths, f) + if f(th) then 1 else 0
  {
    var s := seq(|ths|, t requires 0 <= t < |ths| => if f(ths[t]) then 1 else 0);
    var s' := seq(|ths| + 1, k requires 0 <= k < |ths| + 1 => if f((ths + [th])[k]) then 1 else 0);
    assert s' == s + [if f(th) then 1 else 0];
    SumAppend(s, if f(th) then 1 else 0);
  }

  lemma {:induction false} TallyBounds(ths: seq<Thread>, f: Thread -> bool)
    ensures 0 <= Tally(ths, f) <= |ths|
    ensures (forall t | 0 <= t < |ths| :: !f(ths[t])) ==> Tally(ths, f) == 0
  {
    var s := seq(|ths|, t requires 0 <= t < |ths| => if f(ths[t]) then 1 else 0);
    SumAtLeast(s, 0);
    SumAtMost(s, 1);
    if forall t | 0 <= t < |ths| :: !f(ths[t]) {
      SumAtMost(s, 0);
    }
  }

  /** Threads that have raised node j in the pick they are in, and have not subtracted yet. */
  function Raised(j: nat): Thread -> bool {
    (th: Thread) => Scanning(th) && |th.seen| <= |th.nodes| && j in th.nodes[..|th.seen|]
  }

  /** Threads that have subtracted from node j but not yet counted the pick. */
  function Uncounted(j: nat): Thread -> bool {
    (th: Thread) => th.pc.Counting? && th.best < |th.nodes| && th.nodes[th.best] == j
  }

  function Subtracted(): Thread -> bool {
    (th: Thread) => th.pc.Counting?
  }

  ghost predicate Balanced(c: int, given: int, weight: int, taken: int, total: int) {
    c == given * weight - taken * total
  }

  /** Node j was given its weight once per subtraction so far and once more by every scan that has passed it,
      and lost the sum of the weights once per pick, counted or not. `p0` is its pick count at the start. */
  ghost predicate Ledger(s: State, j: nat, w: seq<int>, p0: int, subs: int) {
    && j < |s.cwt| == |s.picks| == |w|
    && Balanced(s.cwt[j], subs + Tally(s.threads, Raised(j)), w[j],
                s.picks[j] - p0 + Tally(s.threads, Uncounted(j)), Sum(w))
  }

  lemma {:induction false} BalanceMoves(c: int, given: int, weight: int, taken: int, total: int,
                                        c': int, given': int, taken': int)
    requires Balanced(c, given, weight, taken, total)
    requires 0 <= given' - given <= 1 && 0 <= taken' - taken <= 1
    requires c' == c + (if given' == given then 0 else weight) - if taken' == taken then 0 else total
    ensures Balanced(c', given', weight, taken', total)
  {
    Distribute(given, 1, weight);
    Distribute(taken, 1, total);
  }

  function Subs(l: Label): int { if l.Subtract? then 1 else 0 }

  lemma {:induction false} StepKeepsLedger(s: State, l: Label, j: nat, w: seq<int>, p0: int, subs: int)
    requires Ok(s) && Enabled(s, l) && Calm(l, |w|) && AllWhole(s, w) && Ledger(s, j, w, p0, subs)
    ensures Ledger(Step(s, l), j, w, p0, subs + Subs(l))
  {
    hide Ok, AllWhole, Tally, Sum, Calm, Step, Enabled, Raised, Uncounted;
    match l {
      case Spawn => SpawnKeepsLedger(s, j, w, p0, subs);
      case Begin(t, nodes) => BeginKeepsLedger(s, l, j, w, p0, subs);
      case Load(t) => LoadKeepsLedger(s, t, j, w, p0, subs);
      case Add(t) => AddKeepsLedger(s, t, j, w, p0, subs);
      case Subtract(t) => SubtractKeepsLedger(s, t, j, w, p0, subs);
      case Count(t) => CountKeepsLedger(s, t, j, w, p0, subs);
      case Store(_, _) => NotCalm(l, |w|);
      case NewNode(_) => NotCalm(l, |w|);
    }
  }

  lemma {:induction false} NotCalm(l: Label, n: nat)
    requires Calm(l, n)
    ensures !l.Store? && !l.NewNode?
  {}

  lemma {:induction false} SpawnKeepsLedger(s: State, j: nat, w: seq<int>, p0: int, subs: int)
    requires Ok(s) && Enabled(s, Spawn) && Ledger(s, j, w, p0, subs)
    ensures Ledger(Step(s, Spawn), j, w, p0, subs)
  {
    hide Tally, Sum, Ok, Balanced;
    TallyAppend(s.threads, Raised(j), RESTING);
    TallyAppend(s.threads, Uncounted(j), RESTING);
  }

  lemma {:induction false} BeginKeepsLedger(s: State, l: Label, j: nat, w: seq<int>, p0: int, subs: int)
    requires Ok(s) && l.Begin? && Enabled(s, l) && Ledger(s, j, w, p0, subs)
    ensures Ledger(Step(s, l), j, w, p0, subs)
  {
    hide Tally, Sum, Ok, Balanced;
    var th' := Step(s, l).threads[l.t];
    TallyUpdate(s.threads, Raised(j), l.t, th');
    TallyUpdate(s.threads, Uncounted(j), l.t, th');
  }

  lemma {:induction false} LoadKeepsLedger(s: State, t: nat, j: nat, w: seq<int>, p0: int, subs: int)
    requires Ok(s) && Enabled(s, Load(t)) && Ledger(s, j, w, p0, subs)
    ensures Ledger(Step(s, Load(t)), j, w, p0, subs)
  {
    hide Tally, Sum, Balanced;
    assert ThreadOk(s.threads[t], |s.cwt|);
    hide Ok;
    var th' := Step(s, Load(t)).threads[t];
    TallyUpdate(s.threads, Raised(j), t, th');
    TallyUpdate(s.threads, Uncounted(j), t, th');
  }

  lemma {:induction false} AddKeepsLedger(s: State, t: nat, j: nat, w: seq<int>, p0: int, subs: int)
    requires Ok(s) && Enabled(s, Add(t)) && AllWhole(s, w) && Ledger(s, j, w, p0, subs)
    ensures Ledger(Step(s, Add(t)), j, w, p0, subs)
  {
    hide Balanced, Tally, Sum, Ok, AllWhole, Step, Raised, Uncounted;
    AddRaises(s, t, j, w);
    var s' := Step(s, Add(t));
    TallyUpdate(s.threads, Raised(j), t, s'.threads[t]);
    TallyUpdate(s.threads, Uncounted(j), t, s'.threads[t]);
    BalanceMoves(s.cwt[j], subs + Tally(s.threads, Raised(j)), w[j],
                 s.picks[j] - p0 + Tally(s.threads, Uncounted(j)), Sum(w),
                 s'.cwt[j], subs + Tally(s'.threads, Raised(j)),
                 s'.picks[j] - p0 + Tally(s'.threads, Uncounted(j)));
  }

  /** An addition marks one more node as raised, and raises it by its weight. */
  lemma {:induction false} AddRaises(s: State, t: nat, j: nat, w: seq<int>)
    requires Ok(s) && Enabled(s, Add(t)) && AllWhole(s, w) && j < |s.cwt| == |w|
    ensures var s' := Step(s, Add(t));
            && s'.threads == s.threads[t := s'.threads[t]] && s'.picks == s.picks && |s'.cwt| == |s.cwt|
            && !Uncounted(j)(s.threads[t]) && !Uncounted(j)(s'.threads[t])
            && (Raised(j)(s.threads[t]) ==> Raised(j)(s'.threads[t]))
            && s'.cwt[j] == s.cwt[j] + if Raised(j)(s'.threads[t]) && !Raised(j)(s.threads[t]) then w[j] else 0
  {
    assert ThreadOk(s.threads[t], |s.cwt|) && Whole(s.threads[t], w);
    hide Ok, AllWhole, SumOver, BestSoFar;
    var th := s.threads[t];
    assert th.nodes[..th.pc.i + 1] == th.nodes[..th.pc.i] + [th.nodes[th.pc.i]];
  }

  lemma {:induction false} SubtractKeepsLedger(s: State, t: nat, j: nat, w: seq<int>, p0: int, subs: int)
    requires Ok(s) && Enabled(s, Subtract(t)) && AllWhole(s, w) && Ledger(s, j, w, p0, subs)
    ensures Ledger(Step(s, Subtract(t)), j, w, p0, subs + 1)
  {
    hide Balanced, Tally, Sum, Ok, AllWhole, Step, Raised, Uncounted;
    SubtractTakes(s, t, j, w);
    var s' := Step(s, Subtract(t));
    TallyUpdate(s.threads, Raised(j), t, s'.threads[t]);
    TallyUpdate(s.threads, Uncounted(j), t, s'.threads[t]);
    BalanceMoves(s.cwt[j], subs + Tally(s.threads, Raised(j)), w[j],
                 s.picks[j] - p0 + Tally(s.threads, Uncounted(j)), Sum(w),
                 s'.cwt[j], subs + 1 + Tally(s'.threads, Raised(j)),
                 s'.picks[j] - p0 + Tally(s'.threads, Uncounted(j)));
  }

  /** By the subtraction every node is raised, and the chosen one loses the sum of the weights. */
  lemma {:induction false} SubtractTakes(s: State, t: nat, j: nat, w: seq<int>)
    requires Ok(s) && Enabled(s, Subtract(t)) && AllWhole(s, w) && j < |s.cwt| == |w|
    ensures var s' := Step(s, Subtract(t));
            && s'.threads == s.threads[t := s'.threads[t]] && s'.picks == s.picks && |s'.cwt| == |s.cwt|
            && Raised(j)(s.threads[t]) && !Raised(j)(s'.threads[t]) && !Uncounted(j)(s.threads[t])
            && s'.cwt[j] == s.cwt[j] - if Uncounted(j)(s'.threads[t]) then Sum(w) else 0
  {
    assert ThreadOk(s.threads[t], |s.cwt|) && Whole(s.threads[t], w);
    var th := s.threads[t];
    AllLoaded(w, th.nodes);
    assert th.nodes[..|th.nodes|] == th.nodes;
    hide Ok, AllWhole, SumOver, Sum;
  }

  lemma {:induction false} CountKeepsLedger(s: State, t: nat, j: nat, w: seq<int>, p0: int, subs: int)
    requires Ok(s) && Enabled(s, Count(t)) && Ledger(s, j, w, p0, subs)
    ensures Ledger(Step(s, Count(t)), j, w, p0, subs)
  {
    hide Tally, Sum, Balanced;
    assert ThreadOk(s.threads[t], |s.cwt|);
    hide Ok;
    var th' := Step(s, Count(t)).threads[t];
    TallyUpdate(s.threads, Raised(j), t, th');
    TallyUpdate(s.threads, Uncounted(j), t, th');
  }

  // ---------------------------------------------------------------- along a run

  /** Completed picks among the first i steps. */
  function Done(ls: seq<Label>, i: nat): (k: nat)
    requires i <= |ls|
  {
    if i == 0 then 0 else Done(ls, i - 1) + Counts(ls[i - 1])
  }

  function Taken(ls: seq<Label>, i: nat): (k: nat)
    requires i <= |ls|
  {
    if i == 0 then 0 else Taken(ls, i - 1) + Subs(ls[i - 1])
  }

  lemma {:induction false} AlwaysLedger(run: seq<State>, ls: seq<Label>, width: nat, w: seq<int>, i: nat, j: nat)
    requires SteadyRun(run, ls, width, w) && i < |run| && j < |w|
    ensures i <= |ls| && |run[0].picks| == |w| && Ledger(run[i], j, w, run[0].picks[j], Taken(ls, i))
  {
    StepCount(run, ls, width, w);
    hide SteadyRun, Ledger;
    if i == 0 {
      SteadyStart(run, ls, width, w);
      StartLedger(run[0], j, w);
    } else {
      hide Taken;
      AlwaysLedger(run, ls, width, w, i - 1, j);
      LedgerGoesOn(run, ls, width, w, i - 1, j, run[0].picks[j]);
    }
  }

  lemma {:induction false} LedgerGoesOn(run: seq<State>, ls: seq<Label>, width: nat, w: seq<int>, i: nat, j: nat,
                                        p0: int)
    requires SteadyRun(run, ls, width, w) && i < |ls| && j < |w|
    requires i < |run| && Ledger(run[i], j, w, p0, Taken(ls, i))
    ensures i + 1 < |run| && Ledger(run[i + 1], j, w, p0, Taken(ls, i + 1))
  {
    hide SteadyRun, Step, Enabled, Calm, AllWhole, Ledger, Ok;
    SteadyStep(run, ls, width, w, i);
    AlwaysWhole(run, ls, width, w, i);
    StepKeepsLedger(run[i], ls[i], j, w, p0, Taken(ls, i));
  }

  lemma {:induction false} StartLedger(s: State, j: nat, w: seq<int>)
    requires Ok(s) && s.threads == [] && s.cwt == Zeros(|w|) && j < |w|
    ensures |s.picks| == |w| && Ledger(s, j, w, s.picks[j], 0)
  {
    hide Tally, Sum, Raised, Uncounted;
    TallyBounds([], Raised(j));
    TallyBounds([], Uncounted(j));
  }

  /** A pick has subtracted exactly if it is counted or about to be. */
  lemma {:induction false} TakenOrDone(run: seq<State>, ls: seq<Label>, width: nat, w: seq<int>, i: nat)
    requires SteadyRun(run, ls, width, w) && i < |run|
    ensures i <= |ls| && Taken(ls, i) == Done(ls, i) + Tally(run[i].threads, Subtracted())
  {
    SteadyStart(run, ls, width, w);
    hide SteadyRun, Calm, Tally, Ok;
    if i == 0 {
      TallyBounds([], Subtracted());
    } else {
      TakenOrDone(run, ls, width, w, i - 1);
      SteadyStep(run, ls, width, w, i - 1);
      SubtractedMoves(run[i - 1], ls[i - 1]);
    }
  }

  lemma {:induction false} SubtractedMoves(s: State, l: Label)
    requires Ok(s) && Enabled(s, l)
    ensures Tally(Step(s, l).threads, Subtracted()) == Tally(s.threads, Subtracted()) + Subs(l) - Counts(l)
  {
    hide Tally, Ok;
    if l.Spawn? {
      TallyAppend(s.threads, Subtracted(), RESTING);
    } else if !l.Store? && !l.NewNode? {
      TallyUpdate(s.threads, Subtracted(), l.t, Step(s, l).threads[l.t]);
    }
  }

  lemma {:induction false} AtRest(s: State, j: nat)
    requires Quiescent(s)
    ensures Tally(s.threads, Raised(j)) == Tally(s.threads, Uncounted(j)) == Tally(s.threads, Subtracted()) == 0
  {
    TallyBounds(s.threads, Raised(j));
    TallyBounds(s.threads, Uncounted(j));
    TallyBounds(s.threads, Subtracted());
  }

  /** The ledger at rest: between picks, a weight is what the completed picks gave less what the node's own
      picks took, however they overlapped. */
  lemma {:induction false} QuiescentLedger(run: seq<State>, ls: seq<Label>, width: nat, w: seq<int>, i: nat, j: nat)
    requires SteadyRun(run, ls, width, w) && i < |run| && j < |w| && Quiescent(run[i])
    ensures i <= |ls| && |run[0].picks| == |run[i].picks| == |run[i].cwt| == |w|
    ensures run[i].cwt[j] == Done(ls, i) * w[j] - (run[i].picks[j] - run[0].picks[j]) * Sum(w)
  {
    hide SteadyRun, Tally, Sum, Raised, Uncounted, Subtracted;
    AlwaysLedger(run, ls, width, w, i, j);
    TakenOrDone(run, ls, width, w, i);
    AtRest(run[i], j);
  }

  /** How far a weight can be from zero: upwards, and downwards. */
  ghost function Above(n: nat, width: nat, total: int): int {
    width * total + (n - 1) * Below(width, total)
  }

  ghost function Below(width: nat, total: int): int {
    Depth(width + 1) * total
  }

  lemma {:induction false} WeightInBand(run: seq<State>, ls: seq<Label>, width: nat, w: seq<int>, i: nat, j: nat)
    requires SteadyRun(run, ls, width, w) && i < |run| && j < |w|
    ensures |run[i].cwt| == |w| && -Below(width, Sum(w)) <= run[i].cwt[j] <= Above(|w|, width, Sum(w))
  {
    SteadyStart(run, ls, width, w);
    SteadyIsRun(run, ls, width, w);
    hide SteadyRun, IsRun, Sum, Depth, Ok;
    SameNodes(run, ls, width, Sum(w), i);
    OverlappingPicksStayBounded(run, ls, width, Sum(w), i, j);
  }

  /** At every moment, with picks in flight or not: what node j's completed picks cost differs from what k
      completed picks gave it by no more than a bound in which k does not occur. */
  lemma {:induction false} OverlappingPicksAreFair(run: seq<State>, ls: seq<Label>, width: nat, w: seq<int>, i: nat,
                                                   j: nat)
    requires SteadyRun(run, ls, width, w) && i < |run| && j < |w|
    ensures i <= |ls| && |run[0].picks| == |run[i].picks| == |w|
    ensures var excess := (run[i].picks[j] - run[0].picks[j]) * Sum(w) - Done(ls, i) * w[j];
            -(Above(|w|, width, Sum(w)) + width * Sum(w)) <= excess <= Below(width, Sum(w)) + 2 * (width * w[j])
  {
    hide SteadyRun, Tally, Sum, Raised, Uncounted, Subtracted, Above, Below;
    AlwaysLedger(run, ls, width, w, i, j);
    TakenOrDone(run, ls, width, w, i);
    WeightInBand(run, ls, width, w, i, j);
    InFlight(run, ls, width, w, i, j);
    SteadyStart(run, ls, width, w);
    SumAtLeast(w, 0);
    Excess(run[i].cwt[j], Done(ls, i), Tally(run[i].threads, Subtracted()) + Tally(run[i].threads, Raised(j)), w[j],
           run[i].picks[j] - run[0].picks[j], Tally(run[i].threads, Uncounted(j)), Sum(w), width);
  }

  lemma {:induction false} InFlight(run: seq<State>, ls: seq<Label>, width: nat, w: seq<int>, i: nat, j: nat)
    requires SteadyRun(run, ls, width, w) && i < |run|
    ensures 0 <= Tally(run[i].threads, Uncounted(j)) <= width
    ensures 0 <= Tally(run[i].threads, Subtracted()) + Tally(run[i].threads, Raised(j)) <= width
  {
    hide Tally, Ok, Calm;
    TallyBounds(run[i].threads, Raised(j));
    TallyBounds(run[i].threads, Uncounted(j));
    TallyBounds(run[i].threads, Subtracted());
    RaisedOrSubtracted(run[i].threads, j);
  }

  lemma {:induction false} RaisedOrSubtracted(ths: seq<Thread>, j: nat)
    ensures Tally(ths, Subtracted()) + Tally(ths, Raised(j)) <= |ths|
  {
    if ths != [] {
      var k := |ths| - 1;
      assert ths == ths[..k] + [ths[k]];
      TallyAppend(ths[..k], Subtracted(), ths[k]);
      TallyAppend(ths[..k], Raised(j), ths[k]);
      RaisedOrSubtracted(ths[..k], j);
    } else {
      TallyBounds(ths, Subtracted());
      TallyBounds(ths, Raised(j));
    }
  }

  lemma {:induction false} Excess(c: int, done: int, more: int, weight: int, picks: int, pending: int, total: int,
                                  width: nat)
    requires c == (done + more) * weight - (picks + pending) * total
    requires 0 <= more <= width && 0 <= pending <= width && weight >= 0 && total >= 0
    ensures -(c + width * total) <= picks * total - done * weight <= -c + width * weight
  {
    Distribute(done, more, weight);
    Distribute(picks, pending, total);
    InOrder(weight, 0, more);
    InOrder(weight, more, width);
    InOrder(total, 0, pending);
    InOrder(total, pending, width);
  }

  /** No starvation: between two moments without picks in flight, a node is picked as soon as the picks in
      between have given it more than the width of the band. */
  lemma {:induction false} OverlappingPicksStarveNone(run: seq<State>, ls: seq<Label>, width: nat, w: seq<int>, i: nat,
                                                      i': nat, j: nat)
    requires SteadyRun(run, ls, width, w) && i <= i' < |run| && j < |w| && Quiescent(run[i]) && Quiescent(run[i'])
    requires (Done(ls, i') - Done(ls, i)) * w[j] > Above(|w|, width, Sum(w)) + Below(width, Sum(w))
    ensures |run[i].picks| == |run[i'].picks| == |w| && run[i'].picks[j] > run[i].picks[j]
  {
    hide SteadyRun, Sum, Above, Below, Done, Quiescent;
    QuiescentLedger(run, ls, width, w, i, j);
    QuiescentLedger(run, ls, width, w, i', j);
    WeightInBand(run, ls, width, w, i, j);
    WeightInBand(run, ls, width, w, i', j);
    Distribute(Done(ls, i') - Done(ls, i), Done(ls, i), w[j]);
    SteadyStart(run, ls, width, w);
    SumAtLeast(w, 0);
    IfInOrder(Sum(w), run[i'].picks[j] - run[0].picks[j], run[i].picks[j] - run[0].picks[j]);
  }

  lemma {:induction false} IfInOrder(q: int, x: int, y: int)
    requires q >= 0
    ensures x <= y ==> q * x <= q * y
  {
    if x <= y {
      InOrder(q, x, y);
    }
  }
}
