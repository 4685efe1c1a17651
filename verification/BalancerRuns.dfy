/** The balancer's objects used together: any sequence of builds, picks, finished calls and recomputations
    under a clock that does not go back. */
module BalancerRuns {
  import opened Balancer
  import opened Wrappers
  import Scoring

  /** What happens to the balancer, with the readings of the clock that it takes. After a build without a
      connection gRPC holds the error picker; a pick that races with that build may still go to the latest
      picker that had connections. `Done` finishes the k-th call in flight, be its node still in use or
      dropped meanwhile; with fewer calls it is nothing. */
  datatype Event =
    | Build(ready: map<nat, string>, errsNow: string -> int, latencyNow: string -> int)
    | Pick(racing: bool)
    | Done(k: nat, info: DoneInfo, micros: int, errsAt: int, latencyAt: int)
    | Recompute(errsNow: string -> int, latencyNow: string -> int)

  /** All the readings of the event lie between the two times. */
  ghost predicate Within(e: Event, lo: int, hi: int) {
    && lo <= hi
    && match e
       case Build(_, errsNow, latencyNow) => forall a: string :: lo <= errsNow(a) <= hi && lo <= latencyNow(a) <= hi
       case Pick(_) => true
       case Done(_, _, _, errsAt, latencyAt) => lo <= errsAt <= hi && lo <= latencyAt <= hi
       case Recompute(errsNow, latencyNow) => forall a: string :: lo <= errsNow(a) <= hi && lo <= latencyNow(a) <= hi
  }

  /** Event i happens between `times[i]` and `times[i + 1]`. */
  ghost predicate InTime(events: seq<Event>, times: seq<int>) {
    |times| == |events| + 1 && forall i | 0 <= i < |events| :: Within(events[i], times[i], times[i + 1])
  }

  /** The ready set of the last build before event i that had a connection; `first` if there was none. */
  ghost function LastReady(first: map<nat, string>, events: seq<Event>, i: nat): map<nat, string>
    requires i <= |events|
  {
    if i == 0 then first
    else if events[i - 1].Build? && events[i - 1].ready != map[] then events[i - 1].ready
    else LastReady(first, events, i - 1)
  }

  lemma {:induction false} LastReadyStep(first: map<nat, string>, events: seq<Event>, i: nat)
    requires i < |events|
    ensures LastReady(first, events, i + 1) == LastReady(LastReady(first, events, i), [events[i]], 1)
  {}

  ghost function AddrsOf(ns: seq<Node>): (addrs: seq<string>)
    ensures |addrs| == |ns| && forall i | 0 <= i < |ns| :: addrs[i] == ns[i].addr
  {
    seq(|ns|, i requires 0 <= i < |ns| => ns[i].addr)
  }

  /** What a pick finds: a connection of the ready set, unless it goes to the error picker or there never was
      a connection. */
  ghost predicate Found(sc: Option<nat>, usable: bool, ready: map<nat, string>) {
    (sc.Some? <==> usable && ready != map[]) && (sc.Some? ==> sc.value in ready)
  }

  /** The addresses of the calls in flight after one more event. */
  ghost function Outstanding(calls: seq<string>, e: Event, sc: Option<nat>, ready: map<nat, string>): seq<string> {
    match e
    case Pick(_) => if sc.Some? && sc.value in ready then calls + [ready[sc.value]] else calls
    case Done(k, _, _, _, _) => if k < |calls| then calls[..k] + calls[k + 1..] else calls
    case _ => calls
  }

  lemma {:induction false} SamePick(calls: seq<string>, racing: bool, racing': bool, sc: Option<nat>,
                                    ready: map<nat, string>)
    ensures Outstanding(calls, Pick(racing), sc, ready) == Outstanding(calls, Pick(racing'), sc, ready)
  {}

  lemma {:induction false} NoneOutstanding(calls: seq<string>, e: Event, sc: Option<nat>, ready: map<nat, string>)
    requires e.Build? || e.Recompute?
    ensures Outstanding(calls, e, sc, ready) == calls
  {}

  // ---------------------------------------------------------------- finished calls

  /** A finished call: the node that served it and its status. */
  datatype Finished = Finished(node: Node, err: Option<Code>)

  /** The finished calls of `n` that ended with a status that blames the node. */
  ghost function Blaming(done: seq<Finished>, n: Node): set<nat> {
    set i: nat | i < |done| && done[i].node == n
                 && (done[i].err == Some(Unavailable) || done[i].err == Some(DeadlineExceeded)
                     || done[i].err == Some(ResourceExhausted))
  }

  lemma {:induction false} NoneBlaming(done: seq<Finished>, n: Node)
    requires forall i | 0 <= i < |done| :: done[i].node != n
    ensures Blaming(done, n) == {}
  {}

  lemma {:induction false} OneMoreBlaming(done: seq<Finished>, d: Finished, n: Node)
    ensures |Blaming(done + [d], n)| == |Blaming(done, n)| + if n == d.node then Fault(d.err) else 0
  {
    var more := if n == d.node && Fault(d.err) == 1 then {|done|} else {};
    assert Blaming(done + [d], n) == Blaming(done, n) + more;
  }

  ghost function Fault(err: Option<Code>): int {
    if err in {Some(Unavailable), Some(DeadlineExceeded), Some(ResourceExhausted)} then 1 else 0
  }

  /** The failures that event `e` adds to node `n`. */
  ghost function Faults(e: Event, inFlight: seq<Node>, n: Node): int {
    if e.Done? && e.k < |inFlight| && inFlight[e.k] == n then Fault(e.info.err) else 0
  }

  ghost function FinishedBy(e: Event, inFlight: seq<Node>): seq<Finished> {
    if e.Done? && e.k < |inFlight| then [Finished(inFlight[e.k], e.info.err)] else []
  }

  ghost function FailsOf(all: set<Node>): map<Node, int>
    reads all
  {
    map n | n in all :: n.fails
  }

  /** The counters of failures are the numbers of finished calls that blame the node. */
  ghost predicate Tallies(fails: map<Node, int>, done: seq<Finished>) {
    && (forall n | n in fails :: fails[n] == |Blaming(done, n)|)
    && (forall i | 0 <= i < |done| :: done[i].node in fails)
  }

  lemma {:induction false} StaysTallied(fails: map<Node, int>, fails': map<Node, int>, done: seq<Finished>, e: Event,
                                        inFlight: seq<Node>)
    requires Tallies(fails, done) && fails.Keys <= fails'.Keys && forall n | n in inFlight :: n in fails
    requires forall n | n in fails :: fails'[n] == fails[n] + Faults(e, inFlight, n)
    requires forall n | n in fails' && n !in fails :: fails'[n] == 0
    ensures Tallies(fails', done + FinishedBy(e, inFlight))
  {
    hide Blaming, Fault;
    var more := FinishedBy(e, inFlight);
    forall n | n in fails' ensures fails'[n] == |Blaming(done + more, n)| {
      if more == [] {
        assert done + more == done;
      } else {
        assert more == [more[0]];
        OneMoreBlaming(done, more[0], n);
      }
      if n !in fails {
        NoneBlaming(done, n);
      }
    }
  }

  twostate lemma KeepsTallies(before: set<Node>, new all: set<Node>, new done: seq<Finished>, new e: Event,
                              new inFlight: seq<Node>, new fails: map<Node, int>)
    requires fails == old(FailsOf(before)) && Tallies(fails, done) && before <= all
    requires forall n | n in inFlight :: n in before
    requires forall n | n in before :: n.fails == old(n.fails) + Faults(e, inFlight, n)
    requires forall n | n in all && n !in before :: n.fails == 0
    ensures Tallies(FailsOf(all), done + FinishedBy(e, inFlight))
  {
    hide Tallies, Faults;
    StaysTallied(fails, FailsOf(all), done, e, inFlight);
  }

  lemma {:induction false} TalliedEach(all: set<Node>, done: seq<Finished>)
    requires Tallies(FailsOf(all), done)
    ensures forall n | n in all :: n.fails == |Blaming(done, n)|
  {
    hide Blaming;
  }

  /** Address and status of the calls finished before event i, given what the picks found. */
  ghost function FinishedAt(events: seq<Event>, found: seq<Option<nat>>, i: nat): seq<(string, Option<Code>)>
    requires i <= |events| && i <= |found|
  {
    if i == 0 then []
    else
      var calls, e := CallsAt(events, found, i - 1), events[i - 1];
      FinishedAt(events, found, i - 1) + if e.Done? && e.k < |calls| then [(calls[e.k], e.info.err)] else []
  }

  ghost function Labels(done: seq<Finished>): (r: seq<(string, Option<Code>)>)
    ensures |r| == |done| && forall i | 0 <= i < |done| :: r[i] == (done[i].node.addr, done[i].err)
  {
    seq(|done|, i requires 0 <= i < |done| => (done[i].node.addr, done[i].err))
  }

  lemma {:induction false} FinishedAtPrefix(events: seq<Event>, found: seq<Option<nat>>, sc: Option<nat>, i: nat)
    requires i <= |events| && i <= |found|
    ensures FinishedAt(events, found + [sc], i) == FinishedAt(events, found, i)
  {
    hide CallsAt;
    if i > 0 {
      CallsAtPrefix(events, found, sc, i - 1);
      FinishedAtPrefix(events, found, sc, i - 1);
    }
  }

  lemma {:induction false} FinishedAtStep(events: seq<Event>, found: seq<Option<nat>>, sc: Option<nat>, i: nat,
                                          done: seq<Finished>, inFlight: seq<Node>)
    requires i < |events| && |found| == i && AddrsOf(inFlight) == CallsAt(events, found, i)
    requires Labels(done) == FinishedAt(events, found, i)
    ensures Labels(done + FinishedBy(events[i], inFlight)) == FinishedAt(events, found + [sc], i + 1)
  {
    hide CallsAt;
    CallsAtPrefix(events, found, sc, i);
    FinishedAtPrefix(events, found, sc, i);
    var now := FinishedBy(events[i], inFlight);
    assert Labels(done + now) == Labels(done) + Labels(now);
  }

  /** Before event i gRPC holds a picker with connections: the last build, if any, had some. */
  ghost predicate Up(events: seq<Event>, i: nat)
    requires i <= |events|
  {
    if i == 0 then false
    else if events[i - 1].Build? then events[i - 1].ready != map[]
    else Up(events, i - 1)
  }

  // ---------------------------------------------------------------- all nodes there ever were

  ghost function ObjectsOf(all: set<Node>): set<object> {
    set n, o | n in all && o in n.Repr :: o
  }

  ghost predicate AllApart(all: set<Node>) {
    forall m, n | m in all && n in all && m != n :: m.Repr !! n.Repr
  }

  ghost predicate AllReady(all: set<Node>, clock: int)
    reads ObjectsOf(all)
  {
    forall n | n in all :: n.Ready(clock, clock)
  }

  /** How many calls each node has open. */
  ghost function Open(all: set<Node>): map<Node, int>
    reads all
  {
    map n | n in all :: n.picks - n.requests
  }

  ghost predicate Counted(all: set<Node>, inFlight: seq<Node>, open: map<Node, int>) {
    && (forall n | n in inFlight :: n in all) && open.Keys == all
    && forall n | n in all :: open[n] == multiset(inFlight)[n]
  }

  /** Every pick of a node is a finished call or one in flight. */
  ghost predicate Accounted(all: set<Node>, inFlight: seq<Node>)
    reads all
  {
    Counted(all, inFlight, Open(all))
  }

  lemma {:induction false} AllWithin(all: set<Node>)
    ensures forall n | n in all :: n in ObjectsOf(all)
  {
    forall n | n in all ensures n in ObjectsOf(all) {
      ItsObjects(n, all);
    }
  }

  /** The nodes are kept apart, ready for any later use, and no call got lost. */
  ghost predicate Sound(all: set<Node>, inFlight: seq<Node>, clock: int)
    reads ObjectsOf(all)
  {
    AllWithin(all);
    AllApart(all) && AllReady(all, clock) && Accounted(all, inFlight)
  }

  lemma {:induction false} NoCore(core: Core, all: set<Node>)
    ensures core !in ObjectsOf(all)
    ensures forall o | o in ObjectsOf(all) :: allocated(o)
  {}

  lemma {:induction false} ItsObjects(n: Node, all: set<Node>)
    requires n in all
    ensures n.Repr <= ObjectsOf(all) && n in n.Repr
  {}

  lemma {:induction false} ReadyLater(n: Node, clock: int, errsNow: int, latencyNow: int)
    requires n.Ready(clock, clock) && clock <= errsNow && clock <= latencyNow
    ensures n.Ready(errsNow, latencyNow)
  {}

  lemma {:induction false} ReadyBy(n: Node, errsNow: int, latencyNow: int, clock: int)
    requires n.Ready(errsNow, latencyNow) && errsNow <= clock && latencyNow <= clock
    ensures n.Ready(clock, clock)
  {}

  lemma {:induction false} AllReadyLater(all: set<Node>, clock: int, until: int)
    requires AllReady(all, clock) && clock <= until
    ensures AllReady(all, until)
  {
    hide Node.Ready;
    forall n | n in all ensures n.Ready(until, until) {
      ReadyLater(n, clock, until, until);
    }
  }

  // ---------------------------------------------------------------- a build

  lemma {:induction false} NewReady(n: Node, weight: int, errsNow: int, latencyNow: int, until: int)
    requires IsNew(n, weight, errsNow, latencyNow) && errsNow <= until && latencyNow <= until
    ensures n.Ready(until, until) && n.picks == n.requests == n.fails == 0
  {}

  /** The nodes that a build made. */
  ghost function Made(m: map<string, Node>, was: map<string, Node>): (made: set<Node>)
    ensures forall n | n in made :: exists a :: a in m && a !in was && m[a] == n
  {
    set a | a in m && a !in was :: m[a]
  }

  lemma {:induction false} MadeOrKept(m: map<string, Node>, was: map<string, Node>, all: set<Node>)
    requires forall a | a in m && a in was :: m[a] == was[a]
    requires was.Values <= all
    ensures m.Values <= all + Made(m, was)
  {
    forall n | n in m.Values ensures n in all + Made(m, was) {
      var a :| a in m && m[a] == n;
      if a in was {
        assert was[a] in was.Values;
      }
    }
  }

  lemma {:induction false} ApartTogether(all: set<Node>, m: map<string, Node>, was: map<string, Node>)
    requires AllApart(all) && MapApart(m) && ObjectsOf(all) !! ObjectsOf(Made(m, was))
    ensures AllApart(all + Made(m, was))
  {
    forall x, y | x in all + Made(m, was) && y in all + Made(m, was) && x != y ensures x.Repr !! y.Repr {
      if x in all && y in all {
      } else if x in all {
        ItsObjects(x, all);
        ItsObjects(y, Made(m, was));
      } else if y in all {
        ItsObjects(y, all);
        ItsObjects(x, Made(m, was));
      }
    }
  }

  twostate lemma NewNodes(new m: map<string, Node>, new was: map<string, Node>, all: set<Node>,
                          new errsNow: string -> int, new latencyNow: string -> int, new until: int)
    requires forall a | a in m && a !in was ::
               fresh(m[a].Repr) && IsNew(m[a], Scoring.DEFAULT_WEIGHT, errsNow(a), latencyNow(a))
    requires forall a: string :: errsNow(a) <= until && latencyNow(a) <= until
    ensures ObjectsOf(all) !! ObjectsOf(Made(m, was))
    ensures forall n | n in Made(m, was) :: n !in all && fresh(n.Repr)
    ensures forall n | n in Made(m, was) :: n.Ready(until, until) && n.picks == n.requests == n.fails == 0
  {
    hide IsNew;
    forall n | n in Made(m, was)
      ensures fresh(n.Repr) && n.Ready(until, until) && n.picks == n.requests == n.fails == 0
    {
      var a :| a in m && a !in was && m[a] == n;
      NewReady(n, Scoring.DEFAULT_WEIGHT, errsNow(a), latencyNow(a), until);
    }
    forall n | n in Made(m, was) ensures n !in all {
      assert n in n.Repr;
    }
  }

  /** New nodes join the old ones: nobody waits for them yet. */
  lemma {:induction false} Joined(all: set<Node>, made: set<Node>, inFlight: seq<Node>, clock: int)
    requires AllReady(all, clock) && Accounted(all, inFlight)
    requires forall n | n in made :: n !in all && n.Ready(clock, clock) && n.picks == n.requests == 0
    ensures AllReady(all + made, clock) && Accounted(all + made, inFlight)
  {
    hide Node.Ready;
    forall n | n in made ensures multiset(inFlight)[n] == 0 {
      assert n !in inFlight;
    }
  }

  twostate lemma BuildKeepsSound(all: set<Node>, new inFlight: seq<Node>, new clock: int,
                                 new m: map<string, Node>, new was: map<string, Node>,
                                 new errsNow: string -> int, new latencyNow: string -> int, new until: int)
    requires Sound(all, inFlight, clock) && was.Values <= all && MapApart(m)
    requires Within(Recompute(errsNow, latencyNow), clock, until)
    requires forall a | a in m && a in was :: m[a] == was[a]
    requires forall a | a in m && a !in was ::
               fresh(m[a].Repr) && IsNew(m[a], Scoring.DEFAULT_WEIGHT, errsNow(a), latencyNow(a))
    ensures Sound(all + Made(m, was), inFlight, until) && m.Values <= all + Made(m, was)
    ensures forall n | n in Made(m, was) :: fresh(n.Repr) && n.fails == 0
  {
    hide IsNew, MapApart, AllReady, AllApart, Accounted, ObjectsOf, Node.Ready;
    AllReadyLater(all, clock, until);
    NewNodes(m, was, all, errsNow, latencyNow, until);
    ApartTogether(all, m, was);
    Joined(all, Made(m, was), inFlight, until);
    MadeOrKept(m, was, all);
  }

  // ---------------------------------------------------------------- a pick

  /** A pick moves nothing that readiness depends on. */
  twostate lemma PickKeepsReady(n: Node, new clock: int)
    requires old(n.Ready(clock, clock))
    requires n.ewt == old(n.ewt) && n.requests == old(n.requests) && n.fails == old(n.fails)
    requires unchanged(n.latency, n.latency.buckets, n.errs, n.errs.buckets)
    ensures n.Ready(clock, clock)
  {}

  twostate lemma PickKeepsAllReady(all: set<Node>, new clock: int)
    requires old(AllReady(all, clock))
    requires forall n | n in all :: n.ewt == old(n.ewt) && n.requests == old(n.requests) && n.fails == old(n.fails)
    requires forall n | n in all :: unchanged(n.latency, n.latency.buckets, n.errs, n.errs.buckets)
    ensures AllReady(all, clock)
  {
    hide Node.Ready;
    forall n | n in all ensures n.Ready(clock, clock) {
      PickKeepsReady(n, clock);
    }
  }

  lemma {:induction false} PickedOne(all: set<Node>, inFlight: seq<Node>, chosen: Node, open: map<Node, int>)
    requires chosen in all && Counted(all, inFlight, open)
    requires forall n | n in all :: n.picks - n.requests == open[n] + if n == chosen then 1 else 0
    ensures Accounted(all, inFlight + [chosen])
  {
    assert multiset(inFlight + [chosen]) == multiset(inFlight) + multiset{chosen};
  }

  // ---------------------------------------------------------------- a finished call

  lemma {:induction false} WithoutOne(ns: seq<Node>, k: nat)
    requires k < |ns|
    ensures multiset(ns) == multiset(ns[..k] + ns[k + 1..]) + multiset{ns[k]}
  {
    assert ns == ns[..k] + [ns[k]] + ns[k + 1..];
  }

  lemma {:induction false} FinishedOne(all: set<Node>, inFlight: seq<Node>, k: nat, rest: seq<Node>,
                                       open: map<Node, int>)
    requires k < |inFlight| && rest == inFlight[..k] + inFlight[k + 1..] && Counted(all, inFlight, open)
    requires forall n | n in all :: n.picks - n.requests == open[n] - if n == inFlight[k] then 1 else 0
    ensures Accounted(all, rest)
  {
    WithoutOne(inFlight, k);
    forall n | n in rest ensures n in all {
      assert n in multiset(rest);
      assert n in inFlight;
    }
  }

  // ---------------------------------------------------------------- the state as the user sees it

  /** The picker in use is that of the latest build that had a connection, out of the ready set `ready`. */
  ghost predicate Current(latest: GrpcPicker?, core: Core, nodes: map<string, Node>, addrs: set<string>,
                          ready: map<nat, string>) {
    if latest == null then
      ready == map[] && nodes == map[]
    else
      && latest.core == core && addrs == latest.scByAddr.Keys == ready.Values && ready != map[]
      && forall a | a in latest.scByAddr :: latest.scByAddr[a] in ready && ready[latest.scByAddr[a]] == a
  }

  lemma {:induction false} NowCurrent(p: GrpcPicker, core: Core, nodes: map<string, Node>,
                                      ready: map<nat, string>)
    requires p.core == core && p.scByAddr.Keys == ready.Values && ready != map[]
    requires forall a | a in p.scByAddr :: p.scByAddr[a] in ready && ready[p.scByAddr[a]] == a
    ensures Current(p, core, nodes, p.scByAddr.Keys, ready)
  {}

  lemma {:induction false} ItsSound(all: set<Node>, inFlight: seq<Node>, clock: int)
    requires Sound(all, inFlight, clock)
    ensures AllApart(all) && AllReady(all, clock) && Counted(all, inFlight, Open(all))
  {}

  lemma {:induction false} MakesSound(all: set<Node>, inFlight: seq<Node>, clock: int)
    requires AllApart(all) && AllReady(all, clock) && Accounted(all, inFlight)
    ensures Sound(all, inFlight, clock)
  {}

  lemma {:induction false} ListedIn(c: Core, all: set<Node>)
    requires c.Valid() && c.nodes.Values <= all
    ensures forall i | 0 <= i < |c.picker.nodes| :: c.picker.nodes[i] in all
  {
    forall i | 0 <= i < |c.picker.nodes| ensures c.picker.nodes[i] in all {
      var n := c.picker.nodes[i];
      assert n.addr in c.nodes && c.nodes[n.addr] == n;
    }
  }

  lemma {:induction false} NoneYet(core: Core, nodes: map<string, Node>, addrs: set<string>,
                                   ready: map<nat, string>)
    requires Current(null, core, nodes, addrs, ready)
    ensures ready == map[]
  {}

  lemma {:induction false} CurrentFinds(latest: GrpcPicker, core: Core, nodes: map<string, Node>, addrs: set<string>,
                                        ready: map<nat, string>)
    requires Current(latest, core, nodes, addrs, ready)
    ensures latest.core == core && addrs == latest.scByAddr.Keys != {} && ready != map[]
    ensures forall a | a in latest.scByAddr :: latest.scByAddr[a] in ready && ready[latest.scByAddr[a]] == a
  {
    var sc :| sc in ready;
    assert ready[sc] in ready.Values;
  }

  lemma {:induction false} ApartFromRest(all: set<Node>, some: set<Node>)
    requires AllApart(all) && some <= all
    ensures ObjectsOf(all - some) !! ObjectsOf(some)
    ensures forall o | o in ObjectsOf(all) :: allocated(o)
    ensures ObjectsOf(some) <= ObjectsOf(all) && ObjectsOf(all - some) <= ObjectsOf(all)
  {}

  lemma {:induction false} SomeReady(all: set<Node>, some: set<Node>, clock: int)
    requires AllReady(all, clock) && some <= all
    ensures AllReady(some, clock)
  {}

  lemma {:induction false} ReadyTogether(all: set<Node>, some: set<Node>, clock: int)
    requires some <= all && AllReady(all - some, clock) && AllReady(some, clock)
    ensures AllReady(all, clock)
  {
    hide Node.Ready;
  }

  lemma {:induction false} ValidLater(core: Core, latest: GrpcPicker?, ready: map<nat, string>, inFlight: seq<Node>,
                                      all: set<Node>, clock: int, until: int)
    requires Valid(core, latest, ready, inFlight, all, clock) && clock <= until
    ensures Valid(core, latest, ready, inFlight, all, until)
  {
    hide AllReady, AllApart, Accounted, Current;
    AllReadyLater(all, clock, until);
  }

  lemma {:induction false} ItsMember(all: set<Node>, inFlight: seq<Node>, k: nat, open: map<Node, int>)
    requires Counted(all, inFlight, open) && k < |inFlight|
    ensures inFlight[k] in all
  {}

  lemma {:induction false} ItIsReady(all: set<Node>, n: Node, clock: int)
    requires AllReady(all, clock) && n in all
    ensures n.Ready(clock, clock)
  {}

  lemma {:induction false} OnlyReady(n: Node, clock: int)
    requires n.Ready(clock, clock)
    ensures AllReady({n}, clock)
  {}

  lemma {:induction false} OnlyObjects(n: Node)
    ensures ObjectsOf({n}) == n.Repr
  {}

  lemma {:induction false} MapReadable(m: map<string, Node>, all: set<Node>, clock: int,
                                       errsNow: string -> int, latencyNow: string -> int, until: int)
    requires AllReady(all, clock) && m.Values <= all && Within(Recompute(errsNow, latencyNow), clock, until)
    ensures clock <= until && forall a | a in m :: Readable(m[a], errsNow, latencyNow)
  {
    hide Node.Ready;
    forall a | a in m ensures Readable(m[a], errsNow, latencyNow) {
      assert m[a] in m.Values;
      ReadyLater(m[a], clock, errsNow(m[a].addr), latencyNow(m[a].addr));
    }
  }

  lemma {:induction false} MapIsItsValues(m: map<string, Node>)
    ensures MapObjects(m) == ObjectsOf(m.Values)
  {
    forall o | o in MapObjects(m) ensures o in ObjectsOf(m.Values) {
      var a :| a in m && o in m[a].Repr;
      assert m[a] in m.Values;
    }
  }

  lemma {:induction false} Place(ns: seq<Node>, m: map<string, Node>, n: Node) returns (i: nat)
    requires Lists(ns, m) && n in m.Values
    ensures i < |ns| && ns[i] == n
  {
    var a :| a in m && m[a] == n;
    i :| 0 <= i < |ns| && ns[i] == n;
  }

  twostate lemma SameRest(n: Node)
    requires RestOf(n) == old(RestOf(n))
    ensures n.picks == old(n.picks) && n.requests == old(n.requests) && n.fails == old(n.fails)
  {}

  lemma {:induction false} ReadAreReady(ns: seq<Node>, rs: seq<Scoring.Reading>, m: map<string, Node>,
                                        clock: int, errsNow: string -> int, latencyNow: string -> int, until: int)
    requires Lists(ns, m) && |rs| == |ns| && Within(Recompute(errsNow, latencyNow), clock, until)
    requires forall i | 0 <= i < |ns| :: Read(ns[i], rs[i], errsNow, latencyNow)
    ensures AllReady(m.Values, until)
  {
    hide Node.Ready;
    forall n | n in m.Values ensures n.Ready(until, until) {
      var i := Place(ns, m, n);
      assert Read(ns[i], rs[i], errsNow, latencyNow);
      ReadyBy(n, errsNow(n.addr), latencyNow(n.addr), until);
    }
  }

  /** The state of the balancer as its user sees it: `latest` is the picker of the latest build that had a
      connection, out of the ready set `ready`; `inFlight` are the nodes of the calls that have not finished
      and `all` the nodes that were ever made, in use or dropped. */
  ghost predicate Valid(core: Core, latest: GrpcPicker?, ready: map<nat, string>, inFlight: seq<Node>, all: set<Node>,
                        clock: int)
    reads core, ObjectsOf(all)
  {
    && core.Valid() && core.nodes.Values <= all && Sound(all, inFlight, clock)
    && Current(latest, core, core.nodes, core.ready, ready)
  }

  method OnBuild(builder: PickerBuilder, latest: GrpcPicker?, ghost ready: map<nat, string>, ghost inFlight: seq<Node>,
                 ghost all: set<Node>, ghost clock: int,
                 built: map<nat, string>, errsNow: string -> int, latencyNow: string -> int, ghost until: int)
    returns (latest': GrpcPicker?, up: bool, ghost ready': map<nat, string>, ghost all': set<Node>)
    requires Valid(builder.core, latest, ready, inFlight, all, clock)
    requires Within(Build(built, errsNow, latencyNow), clock, until)
    modifies builder.core
    ensures Valid(builder.core, latest', ready', inFlight, all', until)
    ensures ready' == (if built == map[] then ready else built) && (up <==> built != map[])
    ensures all <= all' && forall n | n in all' && n !in all :: fresh(n.Repr) && n.fails == 0
    ensures forall n | n in all :: n.fails == old(n.fails)
  {
    hide Sound, IsNew, ObjectsOf, Lists, Keyed, MapApart, Made, Current;
    ghost var core := builder.core;
    ghost var was := core.nodes;
    NoCore(core, all);
    var p := builder.Build(built, latencyNow, errsNow);
    assert Sound(all, inFlight, clock);
    BuildKeepsSound(all, inFlight, clock, core.nodes, was, errsNow, latencyNow, until);
    latest', ready', all', up := latest, ready, all + Made(core.nodes, was), p != null;
    if p != null {
      NowCurrent(p, core, core.nodes, built);
      latest', ready' := p, built;
    }
  }

  /** The connection that the pick finds. */
  method OnPick(latest: GrpcPicker?, usable: bool, ghost core: Core, ghost ready: map<nat, string>,
                inFlight: seq<Node>, ghost all: set<Node>, ghost clock: int)
    returns (sc: Option<nat>, inFlight': seq<Node>)
    requires Valid(core, latest, ready, inFlight, all, clock)
    modifies core.picker.nodes`cwt, core.picker.nodes`picks
    ensures Valid(core, latest, ready, inFlight', all, clock)
    ensures Found(sc, usable, ready)
    ensures AddrsOf(inFlight') == Outstanding(AddrsOf(inFlight), Pick(!usable), sc, ready)
    ensures forall n | n in all :: n.fails == old(n.fails)
  {
    hide Sound, AllApart, AllReady, Accounted, Counted, Core.Valid, Current;
    if !usable {
      return None, inFlight;
    }
    if latest == null {
      NoneYet(core, core.nodes, core.ready, ready);
      return None, inFlight;
    }
    CurrentFinds(latest, core, core.nodes, core.ready, ready);
    ItsSound(all, inFlight, clock);
    ListedIn(core, all);
    ghost var open := Open(all);
    var r := latest.Pick();
    var n := r.value.node;
    PickKeepsAllReady(all, clock);
    PickedOne(all, inFlight, n, open);
    MakesSound(all, inFlight + [n], clock);
    return Some(r.value.sc), inFlight + [n];
  }

  /** The Done closure of the k-th call in flight. */
  method OnDone(ghost latest: GrpcPicker?, ghost core: Core, ghost ready: map<nat, string>, inFlight: seq<Node>,
                ghost all: set<Node>, ghost clock: int,
                k: nat, info: DoneInfo, micros: int, errsAt: int, latencyAt: int, ghost until: int)
    returns (inFlight': seq<Node>)
    requires Valid(core, latest, ready, inFlight, all, clock)
    requires Within(Done(k, info, micros, errsAt, latencyAt), clock, until)
    modifies if k < |inFlight| then inFlight[k].Repr else {}
    ensures Valid(core, latest, ready, inFlight', all, until)
    ensures AddrsOf(inFlight') == Outstanding(AddrsOf(inFlight), Done(k, info, micros, errsAt, latencyAt), None, ready)
    ensures forall n | n in all ::
              n.fails == old(n.fails) + if k < |inFlight| && inFlight[k] == n then Fault(info.err) else 0
  {
    hide Sound, AllApart, AllReady, Accounted, Counted, Core.Valid, Current, ObjectsOf, Node.Ready;
    if k >= |inFlight| {
      ValidLater(core, latest, ready, inFlight, all, clock, until);
      return inFlight;
    }
    inFlight' := inFlight[..k] + inFlight[k + 1..];
    ItsSound(all, inFlight, clock);
    NoCore(core, all);
    var n := inFlight[k];
    ItsMember(all, inFlight, k, Open(all));
    ItIsReady(all, n, clock);
    ApartFromRest(all, {n});
    OnlyObjects(n);
    SomeReady(all, all - {n}, clock);
    ReadyLater(n, clock, errsAt, latencyAt);
    ghost var open := Open(all);
    GrpcPicker.Done(n, info, micros, errsAt, latencyAt);
    assert n.fails == old(n.fails) + Fault(info.err);
    hide Fault;
    forall m | m in all && m != n ensures m.fails == old(m.fails) && m.picks - m.requests == open[m] {
      ItsObjects(m, all - {n});
    }
    assert AllReady(all - {n}, clock);
    AllReadyLater(all - {n}, clock, until);
    ReadyBy(n, errsAt, latencyAt, until);
    OnlyReady(n, until);
    ReadyTogether(all, {n}, until);
    FinishedOne(all, inFlight, k, inFlight', open);
    MakesSound(all, inFlight', until);
  }

  method OnRecompute(core: Core, ghost latest: GrpcPicker?, ghost ready: map<nat, string>, ghost inFlight: seq<Node>,
                     ghost all: set<Node>, ghost clock: int,
                     sqrt: real -> real, errsNow: string -> int, latencyNow: string -> int, ghost until: int)
    requires Valid(core, latest, ready, inFlight, all, clock)
    requires Within(Recompute(errsNow, latencyNow), clock, until)
    modifies MapObjects(core.nodes)
    ensures Valid(core, latest, ready, inFlight, all, until)
    ensures forall n | n in all :: n.fails == old(n.fails)
  {
    hide Sound, AllApart, AllReady, Accounted, Counted, Core.Valid, Current, ObjectsOf, Node.Ready;
    hide MapObjects, Within, Lists, Read, Readable, RestOf;
    ghost var used := core.nodes.Values;
    ItsSound(all, inFlight, clock);
    NoCore(core, all);
    MapIsItsValues(core.nodes);
    MapReadable(core.nodes, all, clock, errsNow, latencyNow, until);
    ApartFromRest(all, used);
    SomeReady(all, all - used, clock);
    ghost var open := Open(all);
    ghost var ns, rs := core.Recompute(sqrt, errsNow, latencyNow);
    assert AllReady(all - used, clock);
    AllReadyLater(all - used, clock, until);
    ReadAreReady(ns, rs, core.nodes, clock, errsNow, latencyNow, until);
    ReadyTogether(all, used, until);
    forall n | n in all ensures n.picks == old(n.picks) && n.requests == old(n.requests) && n.fails == old(n.fails) {
      if n in used {
        var i := Place(ns, core.nodes, n);
        SameRest(ns[i]);
      } else {
        ItsObjects(n, all - used);
      }
    }
    assert Open(all) == open;
    MakesSound(all, inFlight, until);
  }

  // ---------------------------------------------------------------- any run

  lemma {:induction false} WithinOrder(e: Event, lo: int, hi: int)
    requires Within(e, lo, hi)
    ensures lo <= hi
  {}

  /** Whatever an event may touch is a node of the past or one of its windows. */
  lemma {:induction false} Touched(core: Core, latest: GrpcPicker?, ready: map<nat, string>, inFlight: seq<Node>,
                                   all: set<Node>, clock: int)
    requires Valid(core, latest, ready, inFlight, all, clock)
    ensures forall i | 0 <= i < |core.picker.nodes| :: core.picker.nodes[i] in ObjectsOf(all)
    ensures forall k | 0 <= k < |inFlight| :: inFlight[k].Repr <= ObjectsOf(all)
    ensures MapObjects(core.nodes) <= ObjectsOf(all)
  {
    hide Lists, AllReady, AllApart, Current, Open, Keyed, MapApart, ObjectsOf, MapObjects;
    ListedIn(core, all);
    AllWithin(all);
    MapIsItsValues(core.nodes);
    Fewer(core.nodes.Values, all);
    forall k | 0 <= k < |inFlight| ensures inFlight[k].Repr <= ObjectsOf(all) {
      ItsObjects(inFlight[k], all);
    }
  }

  lemma {:induction false} Fewer(some: set<Node>, all: set<Node>)
    requires some <= all
    ensures ObjectsOf(some) <= ObjectsOf(all)
  {}

  /** The addresses of the calls in flight before event i, given what the picks found. */
  ghost function CallsAt(events: seq<Event>, found: seq<Option<nat>>, i: nat): seq<string>
    requires i <= |events| && i <= |found|
  {
    if i == 0 then []
    else Outstanding(CallsAt(events, found, i - 1), events[i - 1], found[i - 1], LastReady(map[], events, i - 1))
  }

  lemma {:induction false} CallsAtStep(events: seq<Event>, found: seq<Option<nat>>, sc: Option<nat>, i: nat)
    requires i < |events| && |found| == i
    ensures CallsAt(events, found + [sc], i + 1)
         == Outstanding(CallsAt(events, found, i), events[i], sc, LastReady(map[], events, i))
  {
    CallsAtPrefix(events, found, sc, i);
  }

  lemma {:induction false} CallsAtPrefix(events: seq<Event>, found: seq<Option<nat>>, sc: Option<nat>, i: nat)
    requires i <= |events| && i <= |found|
    ensures CallsAt(events, found + [sc], i) == CallsAt(events, found, i)
  {
    if i > 0 {
      CallsAtPrefix(events, found, sc, i - 1);
    }
  }

  lemma {:induction false} InFlightKnown(core: Core, latest: GrpcPicker?, ready: map<nat, string>,
                                         inFlight: seq<Node>, all: set<Node>, clock: int)
    requires Valid(core, latest, ready, inFlight, all, clock)
    ensures forall n | n in inFlight :: n in all
  {
    hide AllReady, AllApart, Current, Open, ObjectsOf, Core.Valid;
  }

  method OnEvent(builder: PickerBuilder, sqrt: real -> real, e: Event,
                 latest: GrpcPicker?, up: bool, ghost ready: map<nat, string>, inFlight: seq<Node>,
                 ghost all: set<Node>, ghost clock: int, ghost until: int)
    returns (sc: Option<nat>, latest': GrpcPicker?, up': bool, ghost ready': map<nat, string>, inFlight': seq<Node>,
             ghost all': set<Node>)
    requires Valid(builder.core, latest, ready, inFlight, all, clock) && Within(e, clock, until)
    modifies builder.core, ObjectsOf(all)
    ensures Valid(builder.core, latest', ready', inFlight', all', until)
    ensures ready' == LastReady(ready, [e], 1) && (up' <==> if e.Build? then e.ready != map[] else up)
    ensures e.Pick? ==> Found(sc, up || e.racing, ready)
    ensures AddrsOf(inFlight') == Outstanding(AddrsOf(inFlight), e, sc, ready)
    ensures all <= all' && forall n | n in all' && n !in all :: fresh(n.Repr) && n.fails == 0
    ensures forall n | n in all :: n.fails == old(n.fails) + Faults(e, inFlight, n)
  {
    hide Valid, Within, ObjectsOf, MapObjects, Outstanding;
    Touched(builder.core, latest, ready, inFlight, all, clock);
    WithinOrder(e, clock, until);
    sc, latest', up', ready', inFlight', all' := None, latest, up, ready, inFlight, all;
    match e
    case Build(built, errsNow, latencyNow) =>
      latest', up', ready', all' :=
        OnBuild(builder, latest, ready, inFlight, all, clock, built, errsNow, latencyNow, until);
      NoneOutstanding(AddrsOf(inFlight), e, sc, ready);
    case Pick(racing) =>
      sc, inFlight' := OnPick(latest, up || racing, builder.core, ready, inFlight, all, clock);
      SamePick(AddrsOf(inFlight), !(up || racing), racing, sc, ready);
      ValidLater(builder.core, latest, ready, inFlight', all, clock, until);
    case Done(k, info, micros, errsAt, latencyAt) =>
      inFlight' := OnDone(latest, builder.core, ready, inFlight, all, clock, k, info, micros, errsAt, latencyAt, until);
    case Recompute(errsNow, latencyNow) =>
      OnRecompute(builder.core, latest, ready, inFlight, all, clock, sqrt, errsNow, latencyNow, until);
      NoneOutstanding(AddrsOf(inFlight), e, sc, ready);
  }

  lemma {:induction false} StartValid(core: Core, events: seq<Event>, clock: int)
    requires core.Valid() && core.nodes == map[]
    ensures Valid(core, null, map[], [], {}, clock) && ObjectsOf({}) == {} && LastReady(map[], events, 0) == map[]
    ensures Tallies(FailsOf({}), []) && Labels([]) == FinishedAt(events, [], 0) && AddrsOf([]) == CallsAt(events, [], 0)
  {}

  lemma {:induction false} ObjectsGrow(before: set<Node>, all: set<Node>)
    requires before <= all
    ensures forall o | o in ObjectsOf(all) && o !in ObjectsOf(before) ::
              exists n :: n in all && n !in before && o in n.Repr
  {}

  /** Any sequence of events, from a new core on: every pick that does not go to the error picker finds a
      connection that is ready according to the latest build that had any, the calls in flight are those
      that the picks began and no Done ended, and at the end every node there ever was is ready for use, has as
      many picks as finished calls and calls in flight, and has counted as failures exactly those of its finished
      calls that ended unavailable, past the deadline or out of resources. */
  method Run(builder: PickerBuilder, sqrt: real -> real, events: seq<Event>, ghost times: seq<int>)
    returns (found: seq<Option<nat>>, latest: GrpcPicker?, inFlight: seq<Node>, ghost all: set<Node>,
             ghost done: seq<Finished>)
    requires builder.core.Valid() && builder.core.nodes == map[] && InTime(events, times)
    modifies builder.core
    ensures |found| == |events|
    ensures forall i | 0 <= i < |events| && events[i].Pick? ::
              Found(found[i], Up(events, i) || events[i].racing, LastReady(map[], events, i))
    ensures AddrsOf(inFlight) == CallsAt(events, found, |events|)
    ensures Valid(builder.core, latest, LastReady(map[], events, |events|), inFlight, all, times[|events|])
    ensures Labels(done) == FinishedAt(events, found, |events|)
    ensures forall n | n in all :: n.fails == |Blaming(done, n)|
  {
    hide Valid, Within, LastReady, Found, ObjectsOf, Core.Valid, Outstanding, Tallies, FailsOf, Faults, FinishedBy;
    hide FinishedAt, CallsAt, Labels, AddrsOf, Blaming;
    var up := false;
    found, latest, inFlight, all, done := [], null, [], {}, [];
    ghost var ready: map<nat, string> := map[];
    StartValid(builder.core, events, times[0]);
    var i := 0;
    while i < |events|
      invariant 0 <= i <= |events| && |found| == i && ready == LastReady(map[], events, i)
      invariant up <==> Up(events, i)
      invariant Valid(builder.core, latest, ready, inFlight, all, times[i])
      invariant AddrsOf(inFlight) == CallsAt(events, found, i) && fresh(ObjectsOf(all))
      invariant Labels(done) == FinishedAt(events, found, i) && Tallies(FailsOf(all), done)
      invariant forall j | 0 <= j < i && events[j].Pick? ::
                  Found(found[j], Up(events, j) || events[j].racing, LastReady(map[], events, j))
    {
      LastReadyStep(map[], events, i);
      label Before:
      ghost var before, calls, fails := all, inFlight, FailsOf(all);
      InFlightKnown(builder.core, latest, ready, inFlight, all, times[i]);
      var sc;
      sc, latest, up, ready, inFlight, all :=
        OnEvent(builder, sqrt, events[i], latest, up, ready, inFlight, all, times[i], times[i + 1]);
      ObjectsGrow(before, all);
      CallsAtStep(events, found, sc, i);
      FinishedAtStep(events, found, sc, i, done, calls);
      KeepsTallies@Before(before, all, done, events[i], calls, fails);
      done := done + FinishedBy(events[i], calls);
      found, i := found + [sc], i + 1;
    }
    TalliedEach(all, done);
  }
}
