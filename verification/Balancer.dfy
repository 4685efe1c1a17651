/** The objects of the balancer: nodes with their statistics, the picker over a node slice, the core
    that owns the node set, and the gRPC-facing picker builder. Each atomic operation is one step here;
    overlapping picks are the subject of ConcurrentPick. */
module Balancer {
  import opened SeqSums
  import opened Scoring
  import opened RollingWindow
  import opened Wrappers
  import ChangingNodes
  import SmoothWrr

  // ---------------------------------------------------------------- node

  ghost predicate Bits(log: seq<Sample>) {
    forall i | 0 <= i < |log| :: log[i].value == 0 || log[i].value == 1
  }

  function SumOf(log: seq<Sample>): int {
    if log == [] then 0 else SumOf(log[..|log|-1]) + log[|log|-1].value
  }

  /** Counting failures as 0/1 samples, no stretch of time has more failures than requests. */
  lemma {:induction false} FailuresWithinRequests(log: seq<Sample>, cut: int)
    requires Bits(log)
    ensures 0 <= Since(log, cut).sum <= Since(log, cut).count <= |log|
  {
    if log != [] {
      var init := log[..|log|-1];
      assert forall i | 0 <= i < |init| :: init[i] == log[i];
      FailuresWithinRequests(init, cut);
    }
  }

  lemma {:induction false} CountsAreCounts(log: seq<Sample>, cut: int)
    ensures 0 <= Since(log, cut).count <= |log|
  {
    if log != [] {
      CountsAreCounts(log[..|log|-1], cut);
    }
  }

  lemma {:induction false} OneMoreSample(log: seq<Sample>, time: int, failed: bool)
    requires Bits(log)
    ensures Bits(log + [Sample(time, if failed then 1 else 0)])
    ensures SumOf(log + [Sample(time, if failed then 1 else 0)]) == SumOf(log) + if failed then 1 else 0
  {
    assert (log + [Sample(time, if failed then 1 else 0)])[..|log|] == log;
  }

  class Node {
    const addr: string
    const weight: int
    var ewt: int
    var cwt: int
    var cpuMilli: int
    var ss: real
    const latency: Window
    const errs: Window
    var picks: int
    var requests: int
    var fails: int

    ghost const Repr: set<object> := {this, latency, latency.buckets, errs, errs.buckets}

    ghost predicate Valid()
      reads Repr
    {
      && this as object != latency && this as object != errs
      && latency != errs && latency.buckets != errs.buckets
      && latency.Valid() && errs.Valid()
      && weight >= 1 && ewt >= 1
      && Bits(errs.log) && |errs.log| == |latency.log| == requests
      && fails == SumOf(errs.log)
    }

    /** Neither window has been used at a later time than the given clock readings. */
    ghost predicate Ready(errsNow: int, latencyNow: int)
      reads Repr
    {
      Valid() && errs.lastStart <= errsNow && latency.lastStart <= latencyNow
    }

    constructor (addr: string, weight: int, buckets: int, width: int, latencyNow: int, errsNow: int)
      requires buckets > 0 && width > 0
      ensures Valid() && fresh(Repr)
      ensures this.addr == addr && this.weight == if weight <= 0 then DEFAULT_WEIGHT else weight
      ensures ewt == this.weight && cwt == 0 && cpuMilli == 0 && ss == 1.0
      ensures picks == requests == fails == 0 && latency.log == errs.log == []
      ensures latency.lastStart == latencyNow && errs.lastStart == errsNow
      ensures latency.buckets.Length == errs.buckets.Length == buckets && latency.width == errs.width == width
    {
      var w := if weight <= 0 then DEFAULT_WEIGHT else weight;
      this.addr, this.weight, ewt, cwt := addr, w, w, 0;
      cpuMilli, ss := 0, 1.0;
      picks, requests, fails := 0, 0, 0;
      var l := new Window(buckets, width, latencyNow);
      var e := new Window(buckets, width, errsNow);
      latency, errs := l, e;
    }

    /** A finished call: one more request in both windows, one more failure if it failed. */
    method Record(latencyMicros: int, failed: bool, errsNow: int, latencyNow: int)
      requires Ready(errsNow, latencyNow)
      modifies Repr
      ensures Ready(errsNow, latencyNow)
      ensures requests == old(requests) + 1 && fails == old(fails) + if failed then 1 else 0
      ensures errs.log == old(errs.log) + [Sample(errsNow, if failed then 1 else 0)]
      ensures latency.log == old(latency.log) + [Sample(latencyNow, latencyMicros)]
      ensures ewt == old(ewt) && cwt == old(cwt) && picks == old(picks) && cpuMilli == old(cpuMilli) && ss == old(ss)
    {
      hide Represents, Advance, Put, Bits, SumOf;
      OneMoreSample(errs.log, errsNow, failed);
      requests := requests + 1;
      var ev := 0;
      if failed {
        ev := 1;
        fails := fails + 1;
      }
      errs.Add(errsNow, ev);
      latency.Add(latencyNow, latencyMicros);
    }

    method ReportCpu(milli: int)
      requires Valid()
      modifies this`cpuMilli
      ensures Valid() && cpuMilli == milli
    {
      cpuMilli := milli;
    }

    method ReportServerSuccess(ratio: real)
      requires Valid()
      modifies this`ss
      ensures Valid() && ss == ratio
    {
      ss := ratio;
    }

    /** What one pass of `recompute` reads from the node: each window's samples since one instant that
        lies between N-1 and N bucket widths before the read. */
    ghost predicate Reads(r: Reading, errsNow: int, latencyNow: int)
      reads Repr
    {
      && r.cpu == cpuMilli && r.ss == ss
      && (exists cut ::
            && errsNow - errs.buckets.Length * errs.width < cut <= errsNow - (errs.buckets.Length - 1) * errs.width
            && Bucket(r.errs, r.reqs) == Since(errs.log, cut))
      && (exists cut ::
            && latencyNow - latency.buckets.Length * latency.width < cut
            && cut <= latencyNow - (latency.buckets.Length - 1) * latency.width
            && Bucket(r.latSum, r.latCnt) == Since(latency.log, cut))
    }

    method Read(errsNow: int, latencyNow: int) returns (r: Reading)
      requires Ready(errsNow, latencyNow)
      modifies latency, latency.buckets, errs, errs.buckets
      ensures Ready(errsNow, latencyNow) && Reads(r, errsNow, latencyNow) && ReadingOk(r)
      ensures r.cpu == cpuMilli == old(cpuMilli) && r.ss == ss == old(ss)
      ensures errs.log == old(errs.log) && latency.log == old(latency.log)
    {
      var e, n := errs.Value(errsNow);
      var l, m := latency.Value(latencyNow);
      r := Reading(e, n, l, m, ss, cpuMilli);
      ghost var cut :| Bucket(e, n) == Since(errs.log, cut);
      ghost var cut' :| Bucket(l, m) == Since(latency.log, cut');
      FailuresWithinRequests(errs.log, cut);
      CountsAreCounts(latency.log, cut');
    }
  }

  // ---------------------------------------------------------------- picker

  ghost predicate Distinct(nodes: seq<Node>) {
    forall i, j | 0 <= i < j < |nodes| :: nodes[i] != nodes[j]
  }

  ghost function Ewts(nodes: seq<Node>): (r: seq<int>)
    reads nodes
    ensures |r| == |nodes| && forall i | 0 <= i < |nodes| :: r[i] == nodes[i].ewt
  {
    seq(|nodes|, i requires 0 <= i < |nodes| reads nodes => nodes[i].ewt)
  }

  ghost function Cwts(nodes: seq<Node>): (r: seq<int>)
    reads nodes
    ensures |r| == |nodes| && forall i | 0 <= i < |nodes| :: r[i] == nodes[i].cwt
  {
    seq(|nodes|, i requires 0 <= i < |nodes| reads nodes => nodes[i].cwt)
  }

  ghost function Picks(nodes: seq<Node>): (r: seq<int>)
    reads nodes
    ensures |r| == |nodes| && forall i | 0 <= i < |nodes| :: r[i] == nodes[i].picks
  {
    seq(|nodes|, i requires 0 <= i < |nodes| reads nodes => nodes[i].picks)
  }

  class Picker {
    const nodes: seq<Node>

    constructor (nodes: seq<Node>)
      ensures this.nodes == nodes
    {
      this.nodes := nodes;
    }

    method Pick() returns (best: Node?)
      requires Distinct(nodes)
      modifies nodes`cwt, nodes`picks
      ensures nodes == [] <==> best == null
      ensures nodes != [] ==>
                var b := SmoothWrr.Winner(Ewts(nodes), old(Cwts(nodes)));
                && best == nodes[b]
                && Cwts(nodes) == SmoothWrr.Next(Ewts(nodes), old(Cwts(nodes)))
                && Picks(nodes) == old(Picks(nodes))[b := old(Picks(nodes))[b] + 1]
    {
      hide SmoothWrr.Winner, SmoothWrr.Next, Sum, Ewts, Cwts, Picks;
      if |nodes| == 0 {
        return null;
      }
      ghost var w, c, p := Ewts(nodes), Cwts(nodes), Picks(nodes);
      var total, bestC, b := Scan();
      WinnerIs(w, c, b);
      best := nodes[b];
      best.cwt := best.cwt - total;
      best.picks := best.picks + 1;
      OthersDiffer(nodes, b);
      assert Ewts(nodes) == w;
      NextIs(w, c, Cwts(nodes));
      assert Picks(nodes) == p[b := p[b] + 1];
    }

    /** The loop of `Pick`: raise every node, remember the first highest. */
    method Scan() returns (total: int, bestC: int, b: nat)
      requires Distinct(nodes) && nodes != []
      modifies nodes`cwt
      ensures total == Sum(old(Ewts(nodes)))
      ensures Cwts(nodes) == Plus(old(Cwts(nodes)), old(Ewts(nodes)))
      ensures b < |nodes| && bestC == nodes[b].cwt
      ensures forall j | 0 <= j < |nodes| :: nodes[j].cwt <= bestC
      ensures forall j | 0 <= j < b :: nodes[j].cwt < bestC
    {
      hide Sum, Ewts, Cwts, Plus, Distinct;
      ghost var w, c := Ewts(nodes), Cwts(nodes);
      var best: Node? := null;
      total, bestC, b := 0, 0, 0;
      EmptySum(w);
      var i := 0;
      while i < |nodes|
        invariant 0 <= i <= |nodes|
        invariant total == Sum(w[..i])
        invariant forall j | 0 <= j < |nodes| :: nodes[j].ewt == w[j]
        invariant forall j | 0 <= j < i :: nodes[j].cwt == c[j] + w[j]
        invariant forall j | i <= j < |nodes| :: nodes[j].cwt == c[j]
        invariant i == 0 <==> best == null
        invariant i == 0 ==> b == 0
        invariant i > 0 ==> b < i && bestC == nodes[b].cwt
        invariant forall j | 0 <= j < i :: nodes[j].cwt <= bestC
        invariant forall j | 0 <= j < b :: nodes[j].cwt < bestC
      {
        var n := nodes[i];
        OthersDiffer(nodes, i);
        var ewt := n.ewt;
        SumNext(w, i);
        total := total + ewt;
        n.cwt := n.cwt + ewt;
        if best == null || n.cwt > bestC {
          best, bestC, b := n, n.cwt, i;
        }
        i := i + 1;
      }
      assert w[..i] == w;
    }
  }

  lemma {:induction false} OthersDiffer(nodes: seq<Node>, i: nat)
    requires Distinct(nodes) && i < |nodes|
    ensures forall j | 0 <= j < |nodes| && j != i :: nodes[j] != nodes[i]
  {}

  lemma {:induction false} EmptySum(s: seq<int>)
    ensures Sum(s[..0]) == 0
  {}

  lemma {:induction false} SumNext(s: seq<int>, i: nat)
    requires i < |s|
    ensures Sum(s[..i + 1]) == Sum(s[..i]) + s[i]
  {
    assert s[..i + 1] == s[..i] + [s[i]];
    SumAppend(s[..i], s[i]);
  }

  lemma {:induction false} WinnerIs(w: seq<int>, c: seq<int>, b: nat)
    requires |w| == |c| && b < |c|
    requires forall j | 0 <= j < |c| :: Plus(c, w)[j] <= Plus(c, w)[b]
    requires forall j | 0 <= j < b :: Plus(c, w)[j] < Plus(c, w)[b]
    ensures b == SmoothWrr.Winner(w, c)
  {
    var f := SmoothWrr.FirstMax(Plus(c, w));
    assert f <= b && b <= f;
  }

  lemma {:induction false} NextIs(w: seq<int>, c: seq<int>, r: seq<int>)
    requires 0 < |c| == |w| == |r|
    requires forall j | 0 <= j < |c| ::
               r[j] == c[j] + w[j] - if j == SmoothWrr.Winner(w, c) then Sum(w) else 0
    ensures r == SmoothWrr.Next(w, c)
  {
    hide SmoothWrr.Winner, Sum;
  }

  // ---------------------------------------------------------------- core

  ghost predicate Keyed(m: map<string, Node>) {
    forall a | a in m :: m[a].addr == a
  }

  /** The slice lists every node of the map once, in some order. */
  ghost predicate Lists(s: seq<Node>, m: map<string, Node>) {
    && Distinct(s)
    && (forall i | 0 <= i < |s| :: s[i].addr in m && m[s[i].addr] == s[i])
    && (forall a | a in m :: m[a] in s)
  }

  method Listing(m: map<string, Node>) returns (s: seq<Node>)
    requires Keyed(m)
    ensures Lists(s, m)
  {
    s := [];
    var rest := m.Keys;
    while rest != {}
      invariant rest <= m.Keys
      invariant Distinct(s)
      invariant forall i | 0 <= i < |s| :: s[i].addr in m && m[s[i].addr] == s[i] && s[i].addr !in rest
      invariant forall a | a in m :: a in rest || m[a] in s
    {
      var a :| a in rest;
      rest := rest - {a};
      s := s + [m[a]];
      assert s[|s|-1] == m[a];
    }
  }

  /** A node as `newNode` makes it at the given clock readings. */
  ghost predicate IsNew(n: Node, weight: int, errsNow: int, latencyNow: int)
    reads n.Repr
  {
    && n.Valid()
    && n.cwt == n.picks == n.requests == n.fails == n.cpuMilli == 0 && n.ss == 1.0
    && n.ewt == n.weight == (if weight <= 0 then DEFAULT_WEIGHT else weight)
    && n.errs.lastStart == errsNow && n.latency.lastStart == latencyNow
  }

  /** The current weights `cs'` of a rebuilt picker: taken over from nodes of the old one, or 0. */
  ghost predicate TakenOver(cs: seq<int>, cs': seq<int>) {
    exists from :: ChangingNodes.Takeover(from, |cs|) && cs' == ChangingNodes.Rebuilt(cs, from)
  }

  ghost function IndexOf(ns: seq<Node>, n: Node): (i: int)
    ensures n in ns ==> 0 <= i < |ns| && ns[i] == n
    ensures n !in ns ==> i == ChangingNodes.NEW
  {
    if ns == [] then ChangingNodes.NEW
    else if ns[|ns|-1] == n then |ns| - 1
    else IndexOf(ns[..|ns|-1], n)
  }

  ghost function Places(ns: seq<Node>, ns': seq<Node>): (from: seq<int>)
    ensures |from| == |ns'| && forall i | 0 <= i < |ns'| :: from[i] == IndexOf(ns, ns'[i])
  {
    seq(|ns'|, i requires 0 <= i < |ns'| => IndexOf(ns, ns'[i]))
  }

  /** Nodes of the new map that the old one did not have carry no weight yet. */
  ghost predicate FreshAtZero(m: map<string, Node>, was: map<string, Node>)
    reads m.Values
  {
    forall a | a in m :: (a in was && m[a] == was[a]) || (a !in was && m[a].cwt == 0 && m[a] !in was.Values)
  }

  lemma {:induction false} NewAtZero(n: Node, weight: int, errsNow: int, latencyNow: int)
    requires IsNew(n, weight, errsNow, latencyNow)
    ensures n.cwt == 0 && n in n.Repr
  {}

  lemma {:induction false} SurvivorsTakenOver(ns: seq<Node>, was: map<string, Node>,
                                              ns': seq<Node>, m: map<string, Node>)
    requires Lists(ns, was) && Lists(ns', m) && FreshAtZero(m, was)
    ensures TakenOver(Cwts(ns), Cwts(ns'))
  {
    var from := Places(ns, ns');
    forall i | 0 <= i < |ns'| ensures Cwts(ns')[i] == if from[i] == ChangingNodes.NEW then 0 else Cwts(ns)[from[i]] {
      var n := ns'[i];
      assert n.addr in m && m[n.addr] == n;
      if n in ns {
        assert Cwts(ns)[from[i]] == ns[from[i]].cwt;
      }
    }
    assert Cwts(ns') == ChangingNodes.Rebuilt(Cwts(ns), from);
  }

  /** The old nodes are still there. */
  ghost predicate Kept(was: map<string, Node>, m: map<string, Node>) {
    forall a | a in was :: a in m && m[a] == was[a]
  }

  /** The others are as `newNode` makes them, out of the objects `born`. */
  ghost predicate Newcomers(m: map<string, Node>, was: map<string, Node>, addrs: map<string, int>,
                            errsNow: string -> int, latencyNow: string -> int, born: set<object>)
    reads born
  {
    forall a | a in m && a !in was ::
      a in addrs && m[a].Repr <= born && IsNew(m[a], addrs[a], errsNow(a), latencyNow(a))
  }

  lemma {:induction false} NoNewcomers(m: map<string, Node>, addrs: map<string, int>,
                                       errsNow: string -> int, latencyNow: string -> int)
    ensures Kept(m, m) && Newcomers(m, m, addrs, errsNow, latencyNow, {})
  {}

  lemma {:induction false} NewcomerJoins(m: map<string, Node>, was: map<string, Node>, addrs: map<string, int>,
                                         errsNow: string -> int, latencyNow: string -> int,
                                         born: set<object>, addr: string, n: Node)
    requires Kept(was, m) && Newcomers(m, was, addrs, errsNow, latencyNow, born)
    requires addr !in m && addr in addrs && IsNew(n, addrs[addr], errsNow(addr), latencyNow(addr))
    ensures Kept(was, m[addr := n]) && Newcomers(m[addr := n], was, addrs, errsNow, latencyNow, born + n.Repr)
  {
    hide IsNew;
  }

  /** Set bookkeeping of a walk over `keys`. */
  lemma {:induction false} OneDone(keys: set<string>, rest: set<string>, was: set<string>, addr: string)
    requires rest <= keys && addr in rest
    ensures keys - (rest - {addr}) == keys - rest + {addr}
    ensures was + (keys - (rest - {addr})) == was + (keys - rest) + {addr}
    ensures addr in was + (keys - rest) ==> was + (keys - (rest - {addr})) == was + (keys - rest)
    ensures keys - (rest - {addr}) <= was <==> keys - rest <= was && addr in was
  {}

  class Core {
    const cfg: Config
    var nodes: map<string, Node>
    var picker: Picker
    /** The address set of the last non-empty ready set. */
    ghost var ready: set<string>

    ghost predicate Valid()
      reads this
    {
      cfg.Ok() && Keyed(nodes) && MapApart(nodes) && Lists(picker.nodes, nodes) && nodes.Keys == ready
    }

    constructor (cfg: Config)
      ensures Valid() && nodes == map[] && this.cfg == cfg.WithDefaults()
    {
      this.cfg := cfg.WithDefaults();
      nodes := map[];
      ready := {};
      var p := new Picker([]);
      picker := p;
    }

    /** Align the node set with `addrs`. Surviving addresses keep their node object, untouched; new
        ones get a fresh node; the picker is rebuilt exactly when the address set changed. */
    method SetAddrs(addrs: map<string, int>, latencyNow: string -> int, errsNow: string -> int)
      requires Valid()
      modifies this`nodes, this`picker, this`ready
      ensures Valid() && nodes.Keys == addrs.Keys
      ensures forall a | a in addrs && a in old(nodes) :: nodes[a] == old(nodes)[a]
      ensures forall a | a in addrs && a !in old(nodes) ::
                fresh(nodes[a].Repr) && IsNew(nodes[a], addrs[a], errsNow(a), latencyNow(a))
      ensures addrs.Keys == old(nodes.Keys) ==> picker == old(picker)
      ensures addrs.Keys != old(nodes.Keys) ==> fresh(picker)
      ensures TakenOver(old(Cwts(picker.nodes)), Cwts(picker.nodes))
    {
      hide Lists, IsNew, Keyed, MapApart, Cwts, TakenOver, FreshAtZero;
      ghost var ns, was, cs := picker.nodes, nodes, Cwts(picker.nodes);
      ready := addrs.Keys;
      var changed := Align(addrs, latencyNow, errsNow);
      assert Cwts(ns) == cs;
      if changed {
        RebuildPicker(ns, was);
        assert TakenOver(cs, Cwts(picker.nodes));
      } else {
        SurvivorsTakenOver(ns, was, ns, was);
        assert TakenOver(cs, Cwts(picker.nodes));
      }
    }

    method Align(addrs: map<string, int>, latencyNow: string -> int, errsNow: string -> int) returns (changed: bool)
      requires cfg.Ok() && Keyed(nodes) && MapApart(nodes)
      modifies this`nodes
      ensures Keyed(nodes) && MapApart(nodes) && nodes.Keys == addrs.Keys
      ensures forall a | a in addrs && a in old(nodes) :: nodes[a] == old(nodes)[a]
      ensures forall a | a in addrs && a !in old(nodes) ::
                fresh(nodes[a].Repr) && IsNew(nodes[a], addrs[a], errsNow(a), latencyNow(a))
      ensures changed <==> addrs.Keys != old(nodes).Keys
      ensures !changed ==> nodes == old(nodes)
      ensures FreshAtZero(nodes, old(nodes))
    {
      hide Lists, IsNew, Keyed, MapApart;
      ghost var was := nodes;
      var added, born := AddMissing(addrs, latencyNow, errsNow);
      var removed := RemoveExtra(addrs);
      changed := added || removed;
      forall a | a in nodes && a !in was ensures nodes[a].cwt == 0 && nodes[a] !in was.Values {
        NewAtZero(nodes[a], addrs[a], errsNow(a), latencyNow(a));
      }
    }

    /** `born`: the objects of the nodes made here. */
    method AddMissing(addrs: map<string, int>, latencyNow: string -> int, errsNow: string -> int)
      returns (changed: bool, ghost born: set<object>)
      requires cfg.Ok() && Keyed(nodes) && MapApart(nodes)
      modifies this`nodes
      ensures Keyed(nodes) && MapApart(nodes)
      ensures nodes.Keys == old(nodes).Keys + addrs.Keys
      ensures changed <==> !(addrs.Keys <= old(nodes).Keys)
      ensures Kept(old(nodes), nodes)
      ensures fresh(born) && Newcomers(nodes, old(nodes), addrs, errsNow, latencyNow, born)
    {
      hide IsNew, MapApart, Keyed, Kept, Newcomers;
      ghost var was := nodes;
      changed, born := false, {};
      var rest := addrs.Keys;
      NoNewcomers(nodes, addrs, errsNow, latencyNow);
      while rest != {}
        invariant rest <= addrs.Keys
        invariant Keyed(nodes) && MapApart(nodes)
        invariant nodes.Keys == was.Keys + (addrs.Keys - rest)
        invariant changed <==> !(addrs.Keys - rest <= was.Keys)
        invariant fresh(born) && Kept(was, nodes) && Newcomers(nodes, was, addrs, errsNow, latencyNow, born)
      {
        var addr :| addr in rest;
        OneDone(addrs.Keys, rest, was.Keys, addr);
        rest := rest - {addr};
        if addr !in nodes {
          ghost var before := nodes;
          AddNode(addr, addrs[addr], latencyNow(addr), errsNow(addr));
          NewcomerJoins(before, was, addrs, errsNow, latencyNow, born, addr, nodes[addr]);
          changed, born := true, born + nodes[addr].Repr;
        }
      }
    }

    method AddNode(addr: string, weight: int, latencyNow: int, errsNow: int)
      requires cfg.Ok() && Keyed(nodes) && MapApart(nodes)
      modifies this`nodes
      ensures Keyed(nodes) && MapApart(nodes)
      ensures addr in nodes && nodes == old(nodes)[addr := nodes[addr]]
      ensures fresh(nodes[addr].Repr) && IsNew(nodes[addr], weight, errsNow, latencyNow)
    {
      ghost var objects := MapObjects(nodes);
      var n := new Node(addr, weight, cfg.buckets, cfg.bucketWidth, latencyNow, errsNow);
      ApartFromFresh(nodes, addr, n);
      nodes := nodes[addr := n];
    }

    method RemoveExtra(addrs: map<string, int>) returns (changed: bool)
      requires addrs.Keys <= nodes.Keys && Keyed(nodes) && MapApart(nodes)
      modifies this`nodes
      ensures Keyed(nodes) && MapApart(nodes) && nodes.Keys == addrs.Keys
      ensures changed <==> old(nodes).Keys != addrs.Keys
      ensures forall a | a in nodes :: nodes[a] == old(nodes)[a]
    {
      hide MapApart;
      ghost var was := nodes;
      changed := false;
      var rest := nodes.Keys;
      while rest != {}
        invariant rest <= was.Keys && addrs.Keys <= nodes.Keys <= was.Keys
        invariant Keyed(nodes) && MapApart(nodes)
        invariant nodes.Keys == rest + (was.Keys - rest) * addrs.Keys
        invariant changed <==> !(was.Keys - rest <= addrs.Keys)
        invariant forall a | a in nodes :: nodes[a] == was[a]
      {
        var addr :| addr in rest;
        rest := rest - {addr};
        if addr !in addrs {
          StillApart(nodes, addr);
          nodes := nodes - {addr};
          changed := true;
        }
      }
    }

    /** `ns` lists the nodes `was` that the picker to be replaced goes over. */
    method RebuildPicker(ghost ns: seq<Node>, ghost was: map<string, Node>)
      requires Keyed(nodes) && Lists(ns, was) && FreshAtZero(nodes, was)
      modifies this`picker
      ensures Lists(picker.nodes, nodes) && fresh(picker)
      ensures TakenOver(old(Cwts(ns)), Cwts(picker.nodes))
    {
      hide Lists, Keyed, Cwts, TakenOver, FreshAtZero;
      var s := Listing(nodes);
      picker := new Picker(s);
      SurvivorsTakenOver(ns, was, s, nodes);
    }

    /** Recompute every effective weight from the recent samples. `ns` is the order in which the map
        was walked and `rs` what was read from each node. */
    method Recompute(sqrt: real -> real, errsNow: string -> int, latencyNow: string -> int)
      returns (ghost ns: seq<Node>, ghost rs: seq<Reading>)
      requires Valid()
      requires forall a | a in nodes :: Readable(nodes[a], errsNow, latencyNow)
      modifies MapObjects(nodes)
      ensures Valid() && nodes == old(nodes) && picker == old(picker)
      ensures Lists(ns, nodes) && |rs| == |ns|
      ensures forall i | 0 <= i < |ns| :: Read(ns[i], rs[i], errsNow, latencyNow)
      ensures Ewts(ns) == NewWeights(rs, Configured(ns), old(Ewts(ns)), cfg, sqrt)
      ensures forall i | 0 <= i < |ns| :: RestOf(ns[i]) == old(RestOf(ns[i]))
      ensures forall i | 0 <= i < |ns| ::
                var n := ns[i];
                && n.cwt == old(n.cwt) && n.picks == old(n.picks) && n.requests == old(n.requests)
                && n.fails == old(n.fails) && n.errs.log == old(n.errs.log) && n.latency.log == old(n.latency.log)
                && rs[i].cpu == n.cpuMilli == old(n.cpuMilli) && rs[i].ss == n.ss == old(n.ss)
    {
      hide Readable, RestOf, Read, Ewts, MapApart, MapObjects, Objects, Apart, Lists, Configured, NewWeights;
      var list := Listing(nodes);
      ns := list;
      ListedApart(ns, nodes);
      NotANode(this, nodes);
      rs := Pass(list, cfg, sqrt, errsNow, latencyNow);
      forall i | 0 <= i < |ns|
        ensures var n := ns[i];
                && n.cwt == old(n.cwt) && n.picks == old(n.picks) && n.requests == old(n.requests)
                && n.fails == old(n.fails) && n.errs.log == old(n.errs.log) && n.latency.log == old(n.latency.log)
                && rs[i].cpu == n.cpuMilli == old(n.cpuMilli) && rs[i].ss == n.ss == old(n.ss)
      {
        RestIsSame(ns[i]);
        ReadReports(ns[i], rs[i], errsNow, latencyNow);
      }
    }

    method Pick() returns (best: Node?)
      requires Valid()
      modifies picker.nodes`cwt, picker.nodes`picks
      ensures Valid()
      ensures best == null <==> nodes == map[]
      ensures best != null ==> best.addr in nodes && nodes[best.addr] == best
      ensures best != null ==>
                var b := SmoothWrr.Winner(Ewts(picker.nodes), old(Cwts(picker.nodes)));
                && best == picker.nodes[b]
                && Cwts(picker.nodes) == SmoothWrr.Next(Ewts(picker.nodes), old(Cwts(picker.nodes)))
                && Picks(picker.nodes) == old(Picks(picker.nodes))[b := old(Picks(picker.nodes))[b] + 1]
    {
      hide SmoothWrr.Winner, SmoothWrr.Next, Ewts, Cwts, Picks, Keyed, MapApart, Config.Ok;
      best := picker.Pick();
      NothingListed(picker.nodes, nodes);
    }
  }

  /** No two nodes of the map share a window. */
  ghost predicate MapApart(m: map<string, Node>) {
    forall a, b | a in m && b in m && a != b :: m[a].Repr !! m[b].Repr
  }

  lemma {:induction false} ApartFromFresh(m: map<string, Node>, addr: string, n: Node)
    requires MapApart(m) && n.Repr !! MapObjects(m)
    ensures MapApart(m[addr := n])
  {
    forall a | a in m ensures n.Repr !! m[a].Repr {
      forall o | o in m[a].Repr ensures o !in n.Repr {
        assert o in MapObjects(m);
      }
    }
  }

  lemma {:induction false} StillApart(m: map<string, Node>, addr: string)
    requires MapApart(m)
    ensures MapApart(m - {addr})
  {}

  ghost function MapObjects(m: map<string, Node>): set<object> {
    set a, o | a in m && o in m[a].Repr :: o
  }

  lemma {:induction false} NotANode(c: Core, m: map<string, Node>)
    ensures c !in MapObjects(m)
  {}

  lemma {:induction false} ListedApart(s: seq<Node>, m: map<string, Node>)
    requires Lists(s, m) && MapApart(m)
    ensures Apart(s) && Objects(s) <= MapObjects(m)
  {
    forall i, j | 0 <= i < |s| && 0 <= j < |s| && i != j ensures s[i].Repr !! s[j].Repr {
      assert m[s[i].addr] == s[i] && m[s[j].addr] == s[j];
    }
    forall o | o in Objects(s) ensures o in MapObjects(m) {
      var i :| 0 <= i < |s| && o in s[i].Repr;
      assert s[i].addr in m && o in m[s[i].addr].Repr;
    }
  }

  lemma {:induction false} NothingListed(s: seq<Node>, m: map<string, Node>)
    requires Lists(s, m)
    ensures s == [] <==> m == map[]
  {
    if s != [] {
      assert s[0].addr in m;
    }
  }

  // ---------------------------------------------------------------- recompute

  /** No two nodes share a window. */
  ghost predicate Apart(ns: seq<Node>) {
    forall i, j | 0 <= i < |ns| && 0 <= j < |ns| && i != j :: ns[i].Repr !! ns[j].Repr
  }

  ghost function Objects(ns: seq<Node>): set<object> {
    set i, o | 0 <= i < |ns| && o in ns[i].Repr :: o
  }

  /** Ready to be read at the given clock readings, which are keyed by address. */
  ghost predicate Readable(n: Node, errsNow: string -> int, latencyNow: string -> int)
    reads n.Repr
  {
    n.Ready(errsNow(n.addr), latencyNow(n.addr))
  }

  /** Read at these clock readings, and as ready as before for the next use. */
  ghost predicate Read(n: Node, r: Reading, errsNow: string -> int, latencyNow: string -> int)
    reads n.Repr
  {
    Readable(n, errsNow, latencyNow) && ReadingOk(r) && n.Reads(r, errsNow(n.addr), latencyNow(n.addr))
  }

  /** What a pass must not change: everything but `ewt` and the windows' cursors. */
  datatype Rest = Rest(cwt: int, picks: int, cpuMilli: int, ss: real, requests: int, fails: int,
                       errsLog: seq<Sample>, latencyLog: seq<Sample>)

  ghost function RestOf(n: Node): Rest
    reads n.Repr
  {
    Rest(n.cwt, n.picks, n.cpuMilli, n.ss, n.requests, n.fails, n.errs.log, n.latency.log)
  }

  twostate lemma RestIsSame(n: Node)
    requires RestOf(n) == old(RestOf(n))
    ensures n.cwt == old(n.cwt) && n.picks == old(n.picks) && n.requests == old(n.requests) && n.fails == old(n.fails)
    ensures n.cpuMilli == old(n.cpuMilli) && n.ss == old(n.ss)
    ensures n.errs.log == old(n.errs.log) && n.latency.log == old(n.latency.log)
  {}

  lemma {:induction false} ReadReports(n: Node, r: Reading, errsNow: string -> int, latencyNow: string -> int)
    requires Read(n, r, errsNow, latencyNow)
    ensures r.cpu == n.cpuMilli && r.ss == n.ss
  {}

  /** First loop of `recompute`: read every node's windows and score the sampled ones. */
  method Measure(ns: seq<Node>, cfg: Config, sqrt: real -> real, errsNow: string -> int, latencyNow: string -> int)
    returns (ghost rs: seq<Reading>, scores: seq<real>, totalScore: real, scored: nat)
    requires cfg.Ok() && Apart(ns)
    requires forall i | 0 <= i < |ns| :: Readable(ns[i], errsNow, latencyNow)
    modifies Objects(ns)
    ensures |rs| == |ns| && scores == Scores(rs, cfg, sqrt)
    ensures totalScore == TotalScore(rs, cfg, sqrt) && scored == SampledCount(rs)
    ensures forall i | 0 <= i < |ns| :: Read(ns[i], rs[i], errsNow, latencyNow)
    ensures forall i | 0 <= i < |ns| :: RestOf(ns[i]) == old(RestOf(ns[i])) && ns[i].ewt == old(ns[i].ewt)
  {
    hide Read, Readable, Apart, RestOf, Objects, Scores;
    rs, scores, totalScore, scored := [], [], 0.0, 0;
    var i := 0;
    while i < |ns|
      invariant 0 <= i <= |ns| && |rs| == |scores| == i
      invariant forall j | i <= j < |ns| :: Readable(ns[j], errsNow, latencyNow)
      invariant forall j | 0 <= j < i :: Read(ns[j], rs[j], errsNow, latencyNow)
      invariant forall j | 0 <= j < i :: scores[j] == Score(rs[j], cfg, sqrt)
      invariant totalScore == TotalScore(rs, cfg, sqrt) && scored == SampledCount(rs)
      invariant forall j | 0 <= j < |ns| :: RestOf(ns[j]) == old(RestOf(ns[j])) && ns[j].ewt == old(ns[j].ewt)
    {
      var r := ReadOne(ns, i, errsNow, latencyNow);
      assert (rs + [r])[..i] == rs;
      rs := rs + [r];
      if !Sampled(r) {
        scores := scores + [0.0];
      } else {
        var score := sqrt(Radicand(r, cfg));
        scores := scores + [score];
        totalScore := totalScore + score;
        scored := scored + 1;
      }
      i := i + 1;
    }
  }

  method ReadOne(ns: seq<Node>, i: nat, errsNow: string -> int, latencyNow: string -> int) returns (r: Reading)
    requires i < |ns| && Apart(ns) && Readable(ns[i], errsNow, latencyNow)
    modifies Objects(ns)
    ensures Read(ns[i], r, errsNow, latencyNow)
    ensures RestOf(ns[i]) == old(RestOf(ns[i])) && ns[i].ewt == old(ns[i].ewt)
    ensures forall j | 0 <= j < |ns| && j != i :: unchanged(ns[j].Repr)
  {
    var n := ns[i];
    assert forall o | o in n.Repr :: o in Objects(ns);
    r := n.Read(errsNow(n.addr), latencyNow(n.addr));
  }

  ghost function Configured(ns: seq<Node>): (ws: seq<int>)
    ensures |ws| == |ns| && forall i | 0 <= i < |ns| :: ws[i] == ns[i].weight
  {
    seq(|ns|, i requires 0 <= i < |ns| => ns[i].weight)
  }

  /** Second loop: store the new effective weights, the average score standing in for a missing one. */
  method Store(ns: seq<Node>, ghost rs: seq<Reading>, scores: seq<real>, avg: real,
               errsNow: string -> int, latencyNow: string -> int)
    requires |scores| == |rs| == |ns| && Apart(ns)
    requires forall i | 0 <= i < |ns| :: Read(ns[i], rs[i], errsNow, latencyNow)
    modifies Objects(ns)
    ensures forall i | 0 <= i < |ns| :: ns[i].ewt == Weigh(if scores[i] <= 0.0 then avg else scores[i], ns[i].weight)
    ensures forall i | 0 <= i < |ns| :: Read(ns[i], rs[i], errsNow, latencyNow) && RestOf(ns[i]) == old(RestOf(ns[i]))
  {
    hide Read, RestOf, Apart, Objects, Weigh;
    var i := 0;
    while i < |ns|
      invariant 0 <= i <= |ns|
      invariant forall j | 0 <= j < i :: ns[j].ewt == Weigh(if scores[j] <= 0.0 then avg else scores[j], ns[j].weight)
      invariant forall j | 0 <= j < |ns| ::
                  Read(ns[j], rs[j], errsNow, latencyNow) && RestOf(ns[j]) == old(RestOf(ns[j]))
    {
      var s := scores[i];
      if s <= 0.0 {
        s := avg;
      }
      var ewt := Whole(s, ns[i].weight);
      StoreOne(ns, i, ewt, rs[i], errsNow, latencyNow);
      i := i + 1;
    }
  }

  method Whole(s: real, weight: int) returns (ewt: int)
    ensures ewt == Weigh(s, weight)
  {
    ewt := Truncate(s * weight as real);
    if ewt < 1 {
      ewt := 1;
    }
  }

  method StoreOne(ns: seq<Node>, i: nat, ewt: int, ghost r: Reading, errsNow: string -> int, latencyNow: string -> int)
    requires i < |ns| && Apart(ns) && ewt >= 1 && Read(ns[i], r, errsNow, latencyNow)
    modifies Objects(ns)
    ensures Read(ns[i], r, errsNow, latencyNow)
    ensures RestOf(ns[i]) == old(RestOf(ns[i])) && ns[i].ewt == ewt
    ensures forall j | 0 <= j < |ns| && j != i :: unchanged(ns[j].Repr) && ns[j].ewt == old(ns[j].ewt)
  {
    var n := ns[i];
    assert forall o | o in n.Repr :: o in Objects(ns);
    n.ewt := ewt;
  }

  /** Both loops over one listing of the nodes. */
  method Pass(ns: seq<Node>, cfg: Config, sqrt: real -> real, errsNow: string -> int, latencyNow: string -> int)
    returns (ghost rs: seq<Reading>)
    requires cfg.Ok() && Apart(ns)
    requires forall i | 0 <= i < |ns| :: Readable(ns[i], errsNow, latencyNow)
    modifies Objects(ns)
    ensures |rs| == |ns|
    ensures forall i | 0 <= i < |ns| :: Read(ns[i], rs[i], errsNow, latencyNow)
    ensures Ewts(ns) == NewWeights(rs, Configured(ns), old(Ewts(ns)), cfg, sqrt)
    ensures forall i | 0 <= i < |ns| :: RestOf(ns[i]) == old(RestOf(ns[i]))
  {
    hide Readable, RestOf, Read, Ewts, Apart, Objects, Weigh, Score, TotalScore, SampledCount;
    ghost var es := Ewts(ns);
    var scores, totalScore, scored;
    rs, scores, totalScore, scored := Measure(ns, cfg, sqrt, errsNow, latencyNow);
    if scored == 0 {
      assert Ewts(ns) == es;
      return;
    }
    Store(ns, rs, scores, totalScore / (scored as real), errsNow, latencyNow);
    assert Ewts(ns) == NewWeights(rs, Configured(ns), es, cfg, sqrt);
  }

  // ---------------------------------------------------------------- the gRPC side

  /** Status codes, as far as node health tells them apart. */
  datatype Code = Unavailable | DeadlineExceeded | ResourceExhausted | OtherCode

  /** Only transport and overload signals blame the node; business errors do not. */
  function IsNodeFailure(err: Option<Code>): bool {
    err.Some? && !err.value.OtherCode?
  }

  /** What a finished call brings back: its status and the two optional trailer numbers. */
  datatype DoneInfo = DoneInfo(err: Option<Code>, cpuMilli: Option<int>, successMilli: Option<int>)

  datatype PickResult = PickResult(sc: nat, node: Node)

  /** Picker handed to gRPC: the core, and the ready connections known when it was built. */
  class GrpcPicker {
    const core: Core
    const scByAddr: map<string, nat>

    constructor (core: Core, scByAddr: map<string, nat>)
      ensures this.core == core && this.scByAddr == scByAddr
    {
      this.core, this.scByAddr := core, scByAddr;
    }

    /** Ask the core for a node and map it to a connection. A picker from the latest non-empty build
        always finds one; an older picker may miss, and then reports that no connection is available. */
    method Pick() returns (r: Option<PickResult>)
      requires core.Valid()
      modifies core.picker.nodes`cwt, core.picker.nodes`picks
      ensures core.Valid()
      ensures r.Some? ==>
                && r.value.node.addr in scByAddr && r.value.sc == scByAddr[r.value.node.addr]
                && r.value.node.addr in core.nodes && core.nodes[r.value.node.addr] == r.value.node
      ensures r.None? ==> core.nodes == map[] || !(core.nodes.Keys <= scByAddr.Keys)
      ensures core.ready == scByAddr.Keys != {} ==> r.Some?
      ensures r.Some? ==> r.value.node in core.picker.nodes && r.value.node.picks == old(r.value.node.picks) + 1
      ensures forall i | 0 <= i < |core.picker.nodes| && !(r.Some? && r.value.node == core.picker.nodes[i]) ::
                r.Some? ==> core.picker.nodes[i].picks == old(core.picker.nodes[i].picks)
    {
      hide Lists, SmoothWrr.Winner, SmoothWrr.Next;
      var n := core.Pick();
      if n == null {
        return None;
      }
      if n.addr !in scByAddr {
        return None;
      }
      r := Some(PickResult(scByAddr[n.addr], n));
    }

    /** The Done closure of a pick that chose `n`. */
    static method Done(n: Node, info: DoneInfo, latencyMicros: int, errsNow: int, latencyNow: int)
      requires n.Ready(errsNow, latencyNow)
      modifies n.Repr
      ensures n.Ready(errsNow, latencyNow)
      ensures n.requests == old(n.requests) + 1
      ensures var blamed := {Some(Unavailable), Some(DeadlineExceeded), Some(ResourceExhausted)};
              var fault := if info.err in blamed then 1 else 0;
              && n.fails == old(n.fails) + fault
              && n.errs.log == old(n.errs.log) + [Sample(errsNow, fault)]
      ensures n.latency.log == old(n.latency.log) + [Sample(latencyNow, latencyMicros)]
      ensures n.cpuMilli == if info.cpuMilli.Some? then info.cpuMilli.value else old(n.cpuMilli)
      ensures n.ss == if info.successMilli.Some? then info.successMilli.value as real / 1000.0 else old(n.ss)
      ensures n.ewt == old(n.ewt) && n.cwt == old(n.cwt) && n.picks == old(n.picks)
    {
      hide Window.Valid, Bits, SumOf;
      n.Record(latencyMicros, IsNodeFailure(info.err), errsNow, latencyNow);
      if info.cpuMilli.Some? {
        n.ReportCpu(info.cpuMilli.value);
      }
      if info.successMilli.Some? {
        n.ReportServerSuccess(info.successMilli.value as real / 1000.0);
      }
    }
  }

  class PickerBuilder {
    const core: Core

    constructor (core: Core)
      ensures this.core == core
    {
      this.core := core;
    }

    /** `ready` maps each ready connection to its address. An empty ready set yields the error picker
        (null) and leaves the core alone; otherwise the core's node set, the current picker's nodes and
        the new picker's addresses all become exactly the ready addresses. */
    method Build(ready: map<nat, string>, latencyNow: string -> int, errsNow: string -> int) returns (p: GrpcPicker?)
      requires core.Valid()
      modifies core`nodes, core`picker, core`ready
      ensures core.Valid()
      ensures ready == map[] <==> p == null
      ensures p == null ==>
                core.nodes == old(core.nodes) && core.picker == old(core.picker) && core.ready == old(core.ready)
      ensures p != null ==>
                && fresh(p) && p.core == core
                && core.nodes.Keys == core.ready == p.scByAddr.Keys == ready.Values
                && (forall a | a in p.scByAddr :: p.scByAddr[a] in ready && ready[p.scByAddr[a]] == a)
                && (forall a | a in core.nodes && a in old(core.nodes) :: core.nodes[a] == old(core.nodes)[a])
                && (forall a | a in core.nodes && a !in old(core.nodes) ::
                      fresh(core.nodes[a].Repr) && IsNew(core.nodes[a], DEFAULT_WEIGHT, errsNow(a), latencyNow(a)))
    {
      if |ready| == 0 {
        return null;
      }
      hide Lists, IsNew;
      var addrs, scByAddr := Index(ready);
      core.SetAddrs(addrs, latencyNow, errsNow);
      p := new GrpcPicker(core, scByAddr);
    }

    static method Index(ready: map<nat, string>) returns (addrs: map<string, int>, scByAddr: map<string, nat>)
      ensures addrs.Keys == scByAddr.Keys == ready.Values
      ensures forall a | a in addrs :: addrs[a] == DEFAULT_WEIGHT
      ensures forall a | a in scByAddr :: scByAddr[a] in ready && ready[scByAddr[a]] == a
    {
      addrs, scByAddr := map[], map[];
      var rest := ready.Keys;
      while rest != {}
        invariant rest <= ready.Keys
        invariant addrs.Keys == scByAddr.Keys == set sc | sc in ready && sc !in rest :: ready[sc]
        invariant forall a | a in addrs :: addrs[a] == DEFAULT_WEIGHT
        invariant forall a | a in scByAddr :: scByAddr[a] in ready && ready[scByAddr[a]] == a
      {
        var sc :| sc in rest;
        rest := rest - {sc};
        addrs := addrs[ready[sc] := DEFAULT_WEIGHT];
        scByAddr := scByAddr[ready[sc] := sc];
      }
    }
  }
}
