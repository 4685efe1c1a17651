/** The registry and its guard as objects. Every method body is one critical section (or one that the
    guard's own lock protects), and is proved to have the effect that RegistryState gives it. */
module RegistryServer {
  import opened Snapshots
  import opened Wrappers
  import opened RegistryState

  class Guard {
    const threshold: real
    var renews: int
    var protected: bool

    constructor (threshold: real)
      ensures this.threshold == threshold && renews == 0 && !protected
    {
      this.threshold := threshold;
      renews, protected := 0, false;
    }

    method Record()
      modifies this`renews
      ensures renews == old(renews) + 1
    {
      renews := renews + 1;
    }

    /** Close one window: enter or stay protected exactly when heartbeats fell short. */
    method Evaluate(count: int, perInstance: real) returns (changed: bool, now: bool)
      modifies this`renews, this`protected
      ensures renews == 0 && now == protected && (changed <==> protected != old(protected))
      ensures protected <==> threshold > 0.0 && count as real * perInstance > 0.0
                             && old(renews) as real < count as real * perInstance * threshold
    {
      var seen := renews;
      renews := 0;
      var was := protected;
      var expected := count as real * perInstance;
      protected := threshold > 0.0 && expected > 0.0 && seen as real < expected * threshold;
      return protected != was, protected;
    }
  }

  class Registry {
    const cfg: Config
    var services: map<string, Service>
    var closed: set<Chan>
    var serial: nat
    const guard: Guard

    ghost function Value(): State
      reads this, guard
    {
      State(services, closed, serial, guard.renews, guard.protected)
    }

    ghost predicate Valid()
      reads this, guard
    {
      cfg.Ok() && guard.threshold == cfg.guardThreshold && Ok(Value())
    }

    constructor (cfg: Config)
      ensures Valid() && Value() == EMPTY && this.cfg == cfg.WithDefaults() && fresh(guard)
    {
      this.cfg := cfg.WithDefaults();
      services, closed, serial := map[], {}, 0;
      guard := new Guard(cfg.WithDefaults().guardThreshold);
    }

    method ServiceLocked(name: string)
      modifies this`services, this`serial
      ensures Value() == Touch(old(Value()), name)
    {
      if name !in services {
        services := services[name := Service(map[], 0, Chan(name, serial), 0)];
        serial := serial + 1;
      }
    }

    /** New version, close the channel, make the next one; the caller moves `serial` on. */
    method BumpLocked(name: string, wall: int)
      requires name in services && services[name].update !in closed
      modifies this`services, this`closed
      ensures services
          == old(services)[name := old(services)[name].(version := NextVersion(old(services)[name].version, wall),
                                                                     update := Chan(name, serial))]
      ensures closed == old(closed) + {old(services)[name].update}
    {
      var v := wall;
      if v <= services[name].version {
        v := services[name].version + 1;
      }
      closed := closed + {services[name].update};
      services := services[name := services[name].(version := v, update := Chan(name, serial))];
    }

    method Register(ins: Instance, now: int, wall: int) returns (o: Outcome)
      requires Valid()
      modifies this`services, this`closed, this`serial, guard`renews
      ensures Valid() && (Value(), o) == RegistryState.Register(old(Value()), ins, now, wall)
      ensures o == RequestErr <==> ins.service == "" || ins.id == "" || ins.addr == ""
    {
      hide Ok;
      ghost var s := Value();
      RegisterKeepsOk(s, ins, now, wall);
      if ins.service == "" || ins.id == "" || ins.addr == "" {
        return RequestErr;
      }
      PollKeepsOk(s, ins.service);
      ServiceLocked(ins.service);
      UpdateIsOpen(Value(), ins.service);
      var prev := services[ins.service].instances;
      var exists_ := ins.id in prev;
      services := services[ins.service := services[ins.service].(instances := prev[ins.id := Entry(ins, now)])];
      if !exists_ || prev[ins.id].ins.addr != ins.addr {
        BumpLocked(ins.service, wall);
        serial := serial + 1;
      }
      guard.Record();
      o := Done;
    }

    method Renew(name: string, id: string, now: int) returns (o: Outcome)
      requires Valid()
      modifies this`services, guard`renews
      ensures Valid() && (Value(), o) == RegistryState.Renew(old(Value()), name, id, now)
      ensures o == if name in old(services) && id in old(services)[name].instances then Done else NothingFound
    {
      RenewKeepsOk(Value(), name, id, now);
      if name !in services {
        return NothingFound;
      }
      if id !in services[name].instances {
        return NothingFound;
      }
      var m := services[name].instances;
      services := services[name := services[name].(instances := m[id := m[id].(lastRenew := now)])];
      guard.Record();
      o := Done;
    }

    method Cancel(name: string, id: string, wall: int) returns (o: Outcome)
      requires Valid()
      modifies this`services, this`closed, this`serial
      ensures Valid() && (Value(), o) == RegistryState.Cancel(old(Value()), name, id, wall)
      ensures o == if name in old(services) && id in old(services)[name].instances then Done else NothingFound
    {
      CancelKeepsOk(Value(), name, id, wall);
      if name !in services {
        return NothingFound;
      }
      if id !in services[name].instances {
        return NothingFound;
      }
      services := services[name := services[name].(instances := services[name].instances - {id})];
      BumpLocked(name, wall);
      serial := serial + 1;
      o := Done;
    }

    method Fetch(name: string) returns (instances: seq<Instance>, version: int, ok: bool)
      requires Valid()
      ensures ok <==> name in services
      ensures ok ==> version == services[name].version && instances == Snapshot(services[name].instances)
      ensures InStringOrder(instances)
    {
      if name !in services {
        return [], 0, false;
      }
      instances := SnapshotLocked(name);
      version, ok := services[name].version, true;
    }

    method SnapshotLocked(name: string) returns (out: seq<Instance>)
      requires name in services && Filed(services[name].instances)
      ensures out == Snapshot(services[name].instances) && InStringOrder(out)
    {
      out := Collect(services[name].instances);
      SnapshotIsUnique(out, Snapshot(services[name].instances), services[name].instances);
    }

    /** One round of a poll up to the select: an answer at once, or a channel to wait on. */
    method PollRound(name: string, since: int) returns (reply: Option<(seq<Instance>, int)>, update: Chan)
      requires Valid()
      modifies this`services, this`serial
      ensures Valid() && name in Touch(old(Value()), name).services
      ensures var svc := Touch(old(Value()), name).services[name];
              if svc.version != since
              then Value() == Touch(old(Value()), name)
                   && Filed(svc.instances) && reply == Some((Snapshot(svc.instances), svc.version))
              else Value() == Wait(Touch(old(Value()), name), name) && reply == None && update == svc.update
      ensures reply.Some? ==> InStringOrder(reply.value.0)
    {
      PollKeepsOk(Value(), name);
      ServiceLocked(name);
      update := services[name].update;
      if services[name].version != since {
        var snap := SnapshotLocked(name);
        return Some((snap, services[name].version)), update;
      }
      reply := None;
      services := services[name := services[name].(waiters := services[name].waiters + 1)];
    }

    method ReleaseWaiter(name: string)
      requires Valid()
      modifies this`services
      ensures Valid() && Value() == Release(old(Value()), name)
    {
      PollKeepsOk(Value(), name);
      if name in services && services[name].waiters > 0 {
        services := services[name := services[name].(waiters := services[name].waiters - 1)];
      }
    }

    /** The critical section of the sweep, with the flag and the clock read before it. */
    method EvictExpired(protected: bool, now: int, wall: string -> int)
      requires Valid()
      modifies this`services, this`closed, this`serial
      ensures Valid() && Value() == Sweep(old(Value()), cfg, protected, now, wall)
    {
      hide Sweep, Ok, SweptSoFar, SweptTo, Shrinks, ClosedBy;
      ghost var s := Value();
      var rest := services.Keys;
      NoneSwept(s, cfg, protected, now, wall);
      while rest != {}
        invariant serial == s.serial && Ok(s)
        invariant SweptSoFar(s, cfg, protected, now, wall, rest, services, closed)
      {
        var name :| name in rest;
        ghost var before, closedBefore := services, closed;
        NextSwept(s, cfg, protected, now, wall, rest, name, services, closed);
        SweepService(name, s, protected, now, wall);
        OneMoreSwept(s, cfg, protected, now, wall, rest, name, before, services, closedBefore, closed);
        rest := rest - {name};
      }
      serial := serial + 1;
      AllSwept(s, cfg, protected, now, wall, services, closed);
      SweepKeepsOk(s, cfg, protected, now, wall);
    }

    /** The body of the outer loop, for one service. */
    method SweepService(name: string, ghost s: State, protected: bool, now: int, wall: string -> int)
      requires Ok(s) && serial == s.serial
      requires name in services && name in s.services && services[name] == s.services[name]
          && services[name].update !in closed
      modifies this`services, this`closed
      ensures SweptTo(s, cfg, protected, now, wall, name, services)
      ensures services - {name} == old(services) - {name}
      ensures closed == old(closed)
                          + if Shrinks(s.services[name], cfg, protected, now) then {s.services[name].update} else {}
    {
      var changed, m := RemoveExpired(services[name].instances, protected, now);
      services := services[name := services[name].(instances := m)];
      if changed {
        BumpLocked(name, wall(name));
      }
      if m == map[] && services[name].waiters == 0 {
        services := services - {name};
      }
    }

    /** The inner loop: delete expired instances while walking them. */
    method RemoveExpired(all: map<string, Entry>, protected: bool, now: int)
      returns (changed: bool, m: map<string, Entry>)
      ensures m == Survivors(all, cfg, protected, now)
      ensures changed <==> m != all
    {
      m, changed := all, false;
      var ttl := cfg.heartbeatInterval * cfg.evictFactor;
      var rest := all.Keys;
      while rest != {}
        invariant rest <= all.Keys
        invariant m == map id | id in all && (id in rest || !Expired(all[id], cfg, protected, now)) :: all[id]
        invariant changed <==> m != all
      {
        var id :| id in rest;
        rest := rest - {id};
        var idle := now - all[id].lastRenew;
        var hardExpired := idle > cfg.hardEvictAfter;
        var expired := idle > ttl && !protected;
        if hardExpired || expired {
          assert id in m && id in all;
          m := m - {id};
          changed := true;
        }
      }
    }

    /** Close a guard window over the instances present: count them, then let the guard decide. */
    method EvaluateGuard()
      requires Valid()
      modifies guard`renews, guard`protected
      ensures Valid() && Value() == Evaluate(old(Value()), InstanceCount(old(Value())), cfg)
    {
      hide Ok;
      ghost var s := Value();
      var count := 0;
      var rest := services.Keys;
      while rest != {}
        invariant rest <= services.Keys
        invariant count == |PresentIn(services, services.Keys - rest)|
        invariant Value() == s
      {
        var name :| name in rest;
        PresentGrows(services, services.Keys - rest, name);
        assert services.Keys - (rest - {name}) == services.Keys - rest + {name};
        rest := rest - {name};
        count := count + |services[name].instances|;
      }
      assert PresentIn(services, services.Keys - rest) == Present(services);
      var perInstance := (cfg.guardWindow as real) / (cfg.heartbeatInterval as real);
      var changed, protected := guard.Evaluate(count, perInstance);
      EvaluateEvolves(s, count, cfg);
    }
  }

  /** What the sweep has made of service `name`. */
  ghost predicate SweptTo(s: State, cfg: Config, protected: bool, now: int, wall: string -> int,
                          name: string, services: map<string, Service>)
    requires name in s.services
  {
    var svc := Swept(s.services[name], name, cfg, protected, now, wall(name), s.serial);
    if Hollow(svc) then name !in services else name in services && services[name] == svc
  }

  lemma {:induction false} SameElsewhere(s: State, cfg: Config, protected: bool, now: int, wall: string -> int,
                                         done: string, before: map<string, Service>, after: map<string, Service>)
    requires before - {done} == after - {done}
    ensures forall name | name != done :: name in before <==> name in after
    ensures forall name | name != done && name in before :: before[name] == after[name]
    ensures forall name | name in s.services && name != done && SweptTo(s, cfg, protected, now, wall, name, before) ::
              SweptTo(s, cfg, protected, now, wall, name, after)
  {
    forall name | name != done
      ensures name in before <==> name in after
      ensures name in before ==> before[name] == after[name]
    {
      assert name in before <==> name in before - {done};
      assert name in after <==> name in after - {done};
      if name in before {
        assert (before - {done})[name] == (after - {done})[name];
      }
    }
  }

  /** The channels that sweeping `names` closes. */
  ghost function ClosedBy(s: State, cfg: Config, protected: bool, now: int, names: set<string>): set<Chan>
    requires names <= s.services.Keys
  {
    set name | name in names && Shrinks(s.services[name], cfg, protected, now) :: s.services[name].update
  }

  lemma {:induction false} ClosedGrows(s: State, cfg: Config, protected: bool, now: int, names: set<string>,
                                       name: string)
    requires names <= s.services.Keys && name in s.services
    ensures ClosedBy(s, cfg, protected, now, names + {name}) == ClosedBy(s, cfg, protected, now, names)
              + if Shrinks(s.services[name], cfg, protected, now) then {s.services[name].update} else {}
  {
    hide Shrinks;
  }

  /** The sweep with the services `rest` still to come. */
  ghost predicate SweptSoFar(s: State, cfg: Config, protected: bool, now: int, wall: string -> int, rest: set<string>,
                             services: map<string, Service>, closed: set<Chan>)
  {
    && rest <= s.services.Keys && services.Keys <= s.services.Keys
    && (forall name | name in rest :: name in services && services[name] == s.services[name])
    && (forall name | name in s.services && name !in rest :: SweptTo(s, cfg, protected, now, wall, name, services))
    && closed == s.closed + ClosedBy(s, cfg, protected, now, s.services.Keys - rest)
  }

  lemma {:induction false} NoneSwept(s: State, cfg: Config, protected: bool, now: int, wall: string -> int)
    ensures SweptSoFar(s, cfg, protected, now, wall, s.services.Keys, s.services, s.closed)
  {}

  lemma {:induction false} NextSwept(s: State, cfg: Config, protected: bool, now: int, wall: string -> int,
                                     rest: set<string>, name: string, services: map<string, Service>,
                                     closed: set<Chan>)
    requires Ok(s) && SweptSoFar(s, cfg, protected, now, wall, rest, services, closed) && name in rest
    ensures name in s.services && name in services && services[name] == s.services[name]
    ensures services[name].update !in closed
  {
    hide SweptTo, Shrinks;
  }

  lemma {:induction false} OneMoreSwept(s: State, cfg: Config, protected: bool, now: int, wall: string -> int,
                                        rest: set<string>, name: string,
                                        before: map<string, Service>, after: map<string, Service>,
                                        closed: set<Chan>, closed': set<Chan>)
    requires SweptSoFar(s, cfg, protected, now, wall, rest, before, closed) && name in rest
    requires SweptTo(s, cfg, protected, now, wall, name, after) && before - {name} == after - {name}
    requires closed' ==
             closed + if Shrinks(s.services[name], cfg, protected, now) then {s.services[name].update} else {}
    ensures SweptSoFar(s, cfg, protected, now, wall, rest - {name}, after, closed')
  {
    hide SweptTo, Shrinks, ClosedBy;
    ClosedGrows(s, cfg, protected, now, s.services.Keys - rest, name);
    assert s.services.Keys - (rest - {name}) == s.services.Keys - rest + {name};
    SameElsewhere(s, cfg, protected, now, wall, name, before, after);
  }

  lemma {:induction false} AllSwept(s: State, cfg: Config, protected: bool, now: int, wall: string -> int,
                                    services: map<string, Service>, closed: set<Chan>)
    requires SweptSoFar(s, cfg, protected, now, wall, {}, services, closed)
    ensures Sweep(s, cfg, protected, now, wall) ==
            State(services, closed, s.serial + 1, s.renews, s.protected)
  {
    assert s.services.Keys - {} == s.services.Keys;
    hide Swept, Hollow, Shrinks;
  }

  ghost function PresentIn(services: map<string, Service>, names: set<string>): set<(string, string)> {
    set name, id | name in names && name in services && id in services[name].instances :: (name, id)
  }

  lemma {:induction false} PresentGrows(services: map<string, Service>, names: set<string>, name: string)
    requires name in services && name !in names
    ensures |PresentIn(services, names + {name})| == |PresentIn(services, names)| + |services[name].instances|
  {
    var ids := services[name].instances.Keys;
    var more := Tagged(name, ids);
    assert PresentIn(services, names + {name}) == PresentIn(services, names) + more;
    assert PresentIn(services, names) !! more;
    TaggedSize(name, ids);
    assert |ids| == |services[name].instances|;
  }

  ghost function Tagged(name: string, ids: set<string>): set<(string, string)> {
    set id | id in ids :: (name, id)
  }

  lemma {:induction false} TaggedSize(name: string, ids: set<string>)
    ensures |Tagged(name, ids)| == |ids|
    decreases |ids|
  {
    if ids != {} {
      var id :| id in ids;
      assert Tagged(name, ids) == Tagged(name, ids - {id}) + {(name, id)};
      TaggedSize(name, ids - {id});
    }
  }
}
