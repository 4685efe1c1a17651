/** The registry's state as a value, and the effect of each critical section on it. Channels have an
    identity and are open until closed; time readings are parameters: `now` from the monotonic clock
    that idle times use, `wall` from the wall clock that versions use. */
module RegistryState {
  import opened Snapshots

  datatype Config = Config(heartbeatInterval: int, evictFactor: int, hardEvictAfter: int,
                           guardWindow: int, guardThreshold: real) {
    /** Unset fields take the production defaults (nanoseconds); a negative threshold disables Guard. */
    function WithDefaults(): (c: Config)
      ensures c.Ok()
      ensures Ok() ==> c == this
    {
      Config(if heartbeatInterval <= 0 then 30000000000 else heartbeatInterval,
             if evictFactor <= 0 then 3 else evictFactor,
             if hardEvictAfter <= 0 then 3600000000000 else hardEvictAfter,
             if guardWindow <= 0 then 60000000000 else guardWindow,
             if guardThreshold == 0.0 then 0.85 else guardThreshold)
    }

    predicate Ok() {
      heartbeatInterval > 0 && evictFactor > 0 && hardEvictAfter > 0 && guardWindow > 0 && guardThreshold != 0.0
    }

    function Ttl(): int {
      heartbeatInterval * evictFactor
    }

    /** Heartbeats expected of one instance in one window. */
    function PerInstance(): real
      requires Ok()
    {
      (guardWindow as real) / (heartbeatInterval as real)
    }
  }

  /** A broadcast channel: `serial` tells apart the channels a service has had. */
  datatype Chan = Chan(name: string, serial: nat)

  datatype Service = Service(instances: map<string, Entry>, version: int, update: Chan, waiters: int)

  datatype State = State(services: map<string, Service>, closed: set<Chan>, serial: nat, renews: int, protected: bool)

  const EMPTY := State(map[], {}, 0, 0, false)

  datatype Outcome = Done | NothingFound | RequestErr

  // ---------------------------------------------------------------- critical sections

  /** Look a service up, creating it on first use. */
  function Touch(s: State, name: string): (s': State)
    ensures name in s'.services && s'.services.Keys == s.services.Keys + {name}
  {
    if name in s.services then s
    else s.(services := s.services[name := Service(map[], 0, Chan(name, s.serial), 0)], serial := s.serial + 1)
  }

  function NextVersion(version: int, wall: int): (v: int)
    ensures v > version
    ensures wall > version ==> v == wall
  {
    if wall <= version then version + 1 else wall
  }

  /** A membership change: new version, old channel closed, new channel made. */
  function Bump(s: State, name: string, wall: int): State
    requires name in s.services
  {
    var svc := s.services[name];
    s.(services := s.services[name := svc.(version := NextVersion(svc.version, wall), update := Chan(name, s.serial))],
       closed := s.closed + {svc.update},
       serial := s.serial + 1)
  }

  function PutInstances(s: State, name: string, m: map<string, Entry>): State
    requires name in s.services
  {
    s.(services := s.services[name := s.services[name].(instances := m)])
  }

  function PutWaiters(s: State, name: string, n: int): State
    requires name in s.services
  {
    s.(services := s.services[name := s.services[name].(waiters := n)])
  }

  predicate Complete(ins: Instance) {
    ins.service != "" && ins.id != "" && ins.addr != ""
  }

  function Register(s: State, ins: Instance, now: int, wall: int): (State, Outcome) {
    if !Complete(ins) then (s, RequestErr)
    else
      var s1 := Touch(s, ins.service);
      var prev := s1.services[ins.service].instances;
      var s2 := PutInstances(s1, ins.service, prev[ins.id := Entry(ins, now)]);
      var s3 := if ins.id !in prev || prev[ins.id].ins.addr != ins.addr then Bump(s2, ins.service, wall) else s2;
      (s3.(renews := s3.renews + 1), Done)
  }

  predicate Has(s: State, name: string, id: string) {
    name in s.services && id in s.services[name].instances
  }

  function Renew(s: State, name: string, id: string, now: int): (State, Outcome) {
    if !Has(s, name, id) then (s, NothingFound)
    else
      var m := s.services[name].instances;
      var s1 := PutInstances(s, name, m[id := m[id].(lastRenew := now)]);
      (s1.(renews := s1.renews + 1), Done)
  }

  function Cancel(s: State, name: string, id: string, wall: int): (State, Outcome) {
    if !Has(s, name, id) then (s, NothingFound)
    else (Bump(PutInstances(s, name, s.services[name].instances - {id}), name, wall), Done)
  }

  /** First half of a poll that finds nothing new: note the channel, count as a waiter. */
  function Wait(s: State, name: string): State
    requires name in s.services
  {
    PutWaiters(s, name, s.services[name].waiters + 1)
  }

  function Release(s: State, name: string): State {
    if name in s.services && s.services[name].waiters > 0
    then PutWaiters(s, name, s.services[name].waiters - 1)
    else s
  }

  // ---------------------------------------------------------------- the sweep

  predicate Expired(e: Entry, cfg: Config, protected: bool, now: int) {
    var idle := now - e.lastRenew;
    idle > cfg.hardEvictAfter || (idle > cfg.Ttl() && !protected)
  }

  function Survivors(m: map<string, Entry>, cfg: Config, protected: bool, now: int): map<string, Entry> {
    map id | id in m && !Expired(m[id], cfg, protected, now) :: m[id]
  }

  /** What the sweep leaves of one service, before empty ones are dropped. */
  function Swept(svc: Service, name: string, cfg: Config, protected: bool, now: int, wall: int, serial: nat): Service {
    var m := Survivors(svc.instances, cfg, protected, now);
    if m == svc.instances then svc
    else Service(m, NextVersion(svc.version, wall), Chan(name, serial), svc.waiters)
  }

  predicate Hollow(svc: Service) {
    svc.instances == map[] && svc.waiters == 0
  }

  predicate Shrinks(svc: Service, cfg: Config, protected: bool, now: int) {
    Survivors(svc.instances, cfg, protected, now) != svc.instances
  }

  /** The eviction sweep. Channels made by one sweep share a serial and differ in the name. */
  function Sweep(s: State, cfg: Config, protected: bool, now: int, wall: string -> int): State {
    s.(services := map name | name in s.services &&
                              !Hollow(Swept(s.services[name], name, cfg, protected, now, wall(name), s.serial))
                       :: Swept(s.services[name], name, cfg, protected, now, wall(name), s.serial),
       closed := s.closed + (set name | name in s.services && Shrinks(s.services[name], cfg, protected, now)
                                :: s.services[name].update),
       serial := s.serial + 1)
  }

  // ---------------------------------------------------------------- Guard

  /** All present instances, as (service, id). */
  ghost function Present(services: map<string, Service>): set<(string, string)> {
    set name, id | name in services && id in services[name].instances :: (name, id)
  }

  ghost function InstanceCount(s: State): nat {
    |Present(s.services)|
  }

  /** Too few heartbeats for the instances present: a partition is suspected. */
  predicate Suspicious(renews: int, count: int, cfg: Config)
    requires cfg.Ok()
  {
    var expected := count as real * cfg.PerInstance();
    cfg.guardThreshold > 0.0 && expected > 0.0 && renews as real < expected * cfg.guardThreshold
  }

  function Evaluate(s: State, count: int, cfg: Config): State
    requires cfg.Ok()
  {
    s.(protected := Suspicious(s.renews, count, cfg), renews := 0)
  }

  // ---------------------------------------------------------------- what every state satisfies

  ghost predicate ServiceOk(svc: Service, name: string, s: State) {
    && Filed(svc.instances)
    && (forall id | id in svc.instances :: svc.instances[id].ins.service == name && Complete(svc.instances[id].ins))
    && svc.version >= 0 && (svc.version == 0 ==> svc.instances == map[])
    && svc.waiters >= 0
    && svc.update.name == name && svc.update.serial < s.serial && svc.update !in s.closed
  }

  /** In particular a service's channel is open, so closing it never closes a closed channel;
      and a version of 0 means that nothing was ever registered. */
  ghost predicate Ok(s: State) {
    && (forall name | name in s.services :: ServiceOk(s.services[name], name, s))
    && (forall ch | ch in s.closed :: ch.serial < s.serial)
  }

  lemma {:induction false} UpdateIsOpen(s: State, name: string)
    requires Ok(s) && name in s.services
    ensures s.services[name].update !in s.closed
  {}

  lemma {:induction false} RegisterKeepsOk(s: State, ins: Instance, now: int, wall: int)
    requires Ok(s)
    ensures Ok(Register(s, ins, now, wall).0)
  {
    hide Ok, Register;
    if !Complete(ins) {
      Rejected(s, ins, now, wall);
    } else if ins.service in s.services {
      RegisterKnownKeepsOk(s, ins, now, wall);
    } else {
      RegisterNewKeepsOk(s, ins, now, wall);
    }
  }

  lemma {:induction false} Rejected(s: State, ins: Instance, now: int, wall: int)
    requires !Complete(ins)
    ensures Register(s, ins, now, wall) == (s, RequestErr)
  {}

  lemma {:induction false} RegisterKnownKeepsOk(s: State, ins: Instance, now: int, wall: int)
    requires Ok(s) && Complete(ins) && ins.service in s.services
    ensures Ok(Register(s, ins, now, wall).0)
  {
    var s' := Register(s, ins, now, wall).0;
    assert s'.services.Keys == s.services.Keys && s'.closed <= s.closed + {s.services[ins.service].update};
    assert forall n | n in s.services && n != ins.service :: s'.services[n] == s.services[n];
    RegisteredServiceOk(s, ins, now, wall);
    hide Register, Filed, Complete;
    OthersStayOk(s, s', ins.service);
  }

  lemma {:induction false} RegisteredServiceOk(s: State, ins: Instance, now: int, wall: int)
    requires Ok(s) && Complete(ins) && ins.service in s.services
    ensures var s' := Register(s, ins, now, wall).0;
            && ins.service in s'.services && s.serial <= s'.serial
            && ServiceOk(s'.services[ins.service], ins.service, s')
  {
    assert ServiceOk(s.services[ins.service], ins.service, s);
    hide Ok;
  }

  /** A critical section that leaves its own service in order and may close that service's channel. */
  lemma {:induction false} OthersStayOk(s: State, s': State, name: string)
    requires Ok(s) && name in s.services && s'.services.Keys == s.services.Keys && s.serial <= s'.serial
    requires forall n | n in s.services && n != name :: s'.services[n] == s.services[n]
    requires s'.closed <= s.closed + {s.services[name].update}
    requires ServiceOk(s'.services[name], name, s')
    ensures Ok(s')
  {
    hide Filed, Complete;
    assert ServiceOk(s.services[name], name, s);
    forall n | n in s'.services ensures ServiceOk(s'.services[n], n, s') {
      assert ServiceOk(s.services[n], n, s);
    }
  }

  lemma {:induction false} RegisterNewKeepsOk(s: State, ins: Instance, now: int, wall: int)
    requires Ok(s) && Complete(ins) && ins.service !in s.services
    ensures Ok(Register(s, ins, now, wall).0)
  {
    NewService(s, ins, now, wall);
    var s' := Register(s, ins, now, wall).0;
    hide Register;
    forall name | name in s'.services ensures ServiceOk(s'.services[name], name, s') {
      if name != ins.service {
        assert ServiceOk(s.services[name], name, s);
      }
    }
  }

  lemma {:induction false} RenewKeepsOk(s: State, name: string, id: string, now: int)
    requires Ok(s)
    ensures Ok(Renew(s, name, id, now).0)
  {}

  lemma {:induction false} CancelKeepsOk(s: State, name: string, id: string, wall: int)
    requires Ok(s)
    ensures Ok(Cancel(s, name, id, wall).0)
  {
    var s' := Cancel(s, name, id, wall).0;
    forall n | n in s'.services ensures ServiceOk(s'.services[n], n, s') {
      assert ServiceOk(s.services[n], n, s);
    }
  }

  lemma {:induction false} PollKeepsOk(s: State, name: string)
    requires Ok(s)
    ensures Ok(Touch(s, name)) && Ok(Wait(Touch(s, name), name)) && Ok(Release(s, name))
  {}

  lemma {:induction false} SweepKeepsOk(s: State, cfg: Config, protected: bool, now: int, wall: string -> int)
    requires Ok(s)
    ensures Ok(Sweep(s, cfg, protected, now, wall))
  {
    var s' := Sweep(s, cfg, protected, now, wall);
    forall name | name in s'.services ensures ServiceOk(s'.services[name], name, s') {
      assert ServiceOk(s.services[name], name, s);
    }
  }

  // ---------------------------------------------------------------- versions and wakeups, step by step

  /** Over one step a service's version moves, strictly up, exactly when its ID-to-address map changed;
      then its old channel is closed, and otherwise it keeps the channel. */
  ghost predicate Tracks(svc: Service, svc': Service, closed': set<Chan>) {
    if AddrMap(svc'.instances) == AddrMap(svc.instances)
    then svc'.version == svc.version && svc'.update == svc.update
    else svc'.version > svc.version && svc.update in closed'
  }

  /** What a step may do to versions, channels and the set of services. */
  ghost predicate Evolves(s: State, s': State) {
    && s.closed <= s'.closed && s.serial <= s'.serial
    && (forall name | name in s.services && name in s'.services ::
          Tracks(s.services[name], s'.services[name], s'.closed))
    && (forall name | name in s.services && name !in s'.services :: s.services[name].waiters == 0)
    && (forall name | name in s'.services && name !in s.services ::
          s'.services[name].waiters <= 1 && s'.services[name].update.serial >= s.serial)
    && (forall name | name in s.services && name in s'.services && s.services[name].update in s'.closed ::
          AddrMap(s'.services[name].instances) != AddrMap(s.services[name].instances))
  }

  /** A critical section that touches one service only, and closes its channel at most when its ID-to-address
      map changed. */
  lemma {:induction false} OneServiceEvolves(s: State, s': State, name: string)
    requires Ok(s) && name in s.services && s'.services.Keys == s.services.Keys && s.serial <= s'.serial
    requires forall n | n in s.services && n != name :: s'.services[n] == s.services[n]
    requires Tracks(s.services[name], s'.services[name], s'.closed)
    requires s'.closed == s.closed
             || (s'.closed == s.closed + {s.services[name].update}
                 && AddrMap(s'.services[name].instances) != AddrMap(s.services[name].instances))
    ensures Evolves(s, s')
  {
    hide AddrMap;
    forall n | n in s.services ensures s.services[n].update in s'.closed ==> n == name {
      assert ServiceOk(s.services[n], n, s) && ServiceOk(s.services[name], name, s);
    }
  }

  lemma {:induction false} RegisterEvolves(s: State, ins: Instance, now: int, wall: int)
    requires Ok(s)
    ensures Evolves(s, Register(s, ins, now, wall).0)
  {
    hide Register, Ok, Evolves;
    if !Complete(ins) {
      Rejected(s, ins, now, wall);
      NothingEvolves(s);
    } else if ins.service in s.services {
      RegisterKnownEvolves(s, ins, now, wall);
    } else {
      RegisterNewEvolves(s, ins, now, wall);
    }
  }

  lemma {:induction false} NothingEvolves(s: State)
    requires Ok(s)
    ensures Evolves(s, s)
  {
    hide AddrMap;
    assert forall n | n in s.services :: s.services[n].update !in s.closed;
  }

  lemma {:induction false} RegisterKnownEvolves(s: State, ins: Instance, now: int, wall: int)
    requires Ok(s) && Complete(ins) && ins.service in s.services
    ensures Evolves(s, Register(s, ins, now, wall).0)
  {
    AddrMapPut(s.services[ins.service].instances, ins.id, Entry(ins, now));
    hide AddrMap, Ok, Evolves;
    OneServiceEvolves(s, Register(s, ins, now, wall).0, ins.service);
  }

  lemma {:induction false} RegisterNewEvolves(s: State, ins: Instance, now: int, wall: int)
    requires Ok(s) && Complete(ins) && ins.service !in s.services
    ensures Evolves(s, Register(s, ins, now, wall).0)
  {
    NewService(s, ins, now, wall);
    hide Register;
    NewServiceEvolves(s, Register(s, ins, now, wall).0, ins.service);
  }

  /** A critical section that makes an entry, and may close channels that only it has had. */
  lemma {:induction false} NewServiceEvolves(s: State, s': State, name: string)
    requires Ok(s) && name !in s.services && s'.services.Keys == s.services.Keys + {name} && s.serial <= s'.serial
    requires forall n | n in s.services :: s'.services[n] == s.services[n]
    requires s'.services[name].waiters <= 1 && s'.services[name].update.serial >= s.serial
    requires s.closed <= s'.closed && forall ch | ch in s'.closed && ch !in s.closed :: ch.serial >= s.serial
    ensures Evolves(s, s')
  {
    hide AddrMap, Filed, Complete;
    forall n | n in s.services ensures s.services[n].update !in s'.closed {
      assert ServiceOk(s.services[n], n, s);
    }
  }

  /** The first registration of a service makes its entry, and a second channel in the same breath. */
  lemma {:induction false} NewService(s: State, ins: Instance, now: int, wall: int)
    requires Complete(ins) && ins.service !in s.services
    ensures Register(s, ins, now, wall).0
         == State(s.services[ins.service := Service(map[ins.id := Entry(ins, now)], NextVersion(0, wall),
                                                    Chan(ins.service, s.serial + 1), 0)],
                  s.closed + {Chan(ins.service, s.serial)}, s.serial + 2, s.renews + 1, s.protected)
  {}

  lemma {:induction false} AddrMapPut(m: map<string, Entry>, id: string, e: Entry)
    ensures AddrMap(m[id := e]) == AddrMap(m)[id := e.ins.addr]
    ensures AddrMap(m[id := e]) == AddrMap(m) <==> id in m && m[id].ins.addr == e.ins.addr
  {
    assert id in AddrMap(m[id := e]);
  }

  lemma {:induction false} RenewEvolves(s: State, name: string, id: string, now: int)
    requires Ok(s)
    ensures Evolves(s, Renew(s, name, id, now).0)
  {
    if Has(s, name, id) {
      var m := s.services[name].instances;
      AddrMapPut(m, id, m[id].(lastRenew := now));
    }
  }

  lemma {:induction false} CancelEvolves(s: State, name: string, id: string, wall: int)
    requires Ok(s)
    ensures Evolves(s, Cancel(s, name, id, wall).0)
  {
    if Has(s, name, id) {
      assert id in AddrMap(s.services[name].instances);
      assert id !in AddrMap(s.services[name].instances - {id});
      hide AddrMap, Ok, Evolves;
      OneServiceEvolves(s, Cancel(s, name, id, wall).0, name);
    } else {
      NothingEvolves(s);
    }
  }

  lemma {:induction false} TouchEvolves(s: State, name: string)
    requires Ok(s)
    ensures Evolves(s, Touch(s, name))
  {
    assert forall n | n in s.services :: s.services[n].update !in s.closed;
    hide ServiceOk, AddrMap, Ok;
  }

  lemma {:induction false} WaitEvolves(s: State, name: string)
    requires Ok(s)
    ensures Evolves(s, Wait(Touch(s, name), name))
  {
    assert forall n | n in s.services :: s.services[n].update !in s.closed;
    hide ServiceOk, AddrMap, Ok;
  }

  lemma {:induction false} ReleaseEvolves(s: State, name: string)
    requires Ok(s)
    ensures Evolves(s, Release(s, name))
  {
    assert forall n | n in s.services :: s.services[n].update !in s.closed;
    hide ServiceOk, AddrMap, Ok;
  }

  lemma {:induction false} SweepEvolves(s: State, cfg: Config, protected: bool, now: int, wall: string -> int)
    requires Ok(s)
    ensures Evolves(s, Sweep(s, cfg, protected, now, wall))
  {
    var s' := Sweep(s, cfg, protected, now, wall);
    forall name | name in s.services
      ensures Shrinks(s.services[name], cfg, protected, now) <==>
              AddrMap(Survivors(s.services[name].instances, cfg, protected, now)) != AddrMap(s.services[name].instances)
    {
      SurvivorsChange(s.services[name].instances, cfg, protected, now);
    }
  }

  lemma {:induction false} SurvivorsChange(m: map<string, Entry>, cfg: Config, protected: bool, now: int)
    ensures Survivors(m, cfg, protected, now) == m <==>
            AddrMap(Survivors(m, cfg, protected, now)) == AddrMap(m)
  {
    var k := Survivors(m, cfg, protected, now);
    if AddrMap(k) == AddrMap(m) {
      forall id | id in m ensures id in k {
        assert id in AddrMap(m);
        assert id in AddrMap(k);
      }
    }
  }

  lemma {:induction false} EvaluateEvolves(s: State, count: int, cfg: Config)
    requires Ok(s) && cfg.Ok()
    ensures Ok(Evaluate(s, count, cfg)) && Evolves(s, Evaluate(s, count, cfg))
  {}
}
