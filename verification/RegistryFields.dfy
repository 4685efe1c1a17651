/** What each critical section of the registry does, said on the fields of the state before and after it. */
module RegistryFields {
  import opened Snapshots
  import opened RegistryState

  /** The instances filed for a service; a service that is not there has none. */
  ghost function Members(s: State, name: string): map<string, Entry> {
    if name in s.services then s.services[name].instances else map[]
  }

  /** The version of a service; a service that is not there has 0. */
  ghost function Version(s: State, name: string): int {
    if name in s.services then s.services[name].version else 0
  }

  ghost function Waiters(s: State, name: string): int {
    if name in s.services then s.services[name].waiters else 0
  }

  /** All services but `name` are as before; no other appears or goes. */
  ghost predicate OnlyTouches(s: State, s': State, name: string) {
    && s.services.Keys <= s'.services.Keys <= s.services.Keys + {name}
    && (forall n | n in s.services && n != name :: s'.services[n] == s.services[n])
  }

  /** The version moves on, to the clock's reading or, if that is not ahead, by one; whoever waits on the old channel
      is woken, and the new one is new and open. */
  ghost predicate Announces(s: State, s': State, name: string, wall: int) {
    && name in s'.services
    && s'.services[name].version == (if wall > Version(s, name) then wall else Version(s, name) + 1)
    && s'.services[name].update.serial >= s.serial && s'.services[name].update !in s'.closed
    && (name in s.services ==> s'.closed == s.closed + {s.services[name].update})
  }

  /** Version and channel stay, and nobody is woken. */
  ghost predicate Silent(s: State, s': State, name: string) {
    && name in s.services && name in s'.services && s'.closed == s.closed
    && s'.services[name].version == s.services[name].version
    && s'.services[name].update == s.services[name].update
  }

  /** `ins` is filed as renewed now, which counts as one heartbeat, and that is announced if and only if there was no
      instance of that ID or it had another address. */
  ghost predicate Files(s: State, s': State, ins: Instance, now: int, wall: int) {
    && OnlyTouches(s, s', ins.service)
    && Members(s', ins.service) == Members(s, ins.service)[ins.id := Entry(ins, now)]
    && Waiters(s', ins.service) == Waiters(s, ins.service)
    && s'.renews == s.renews + 1 && s'.protected == s.protected
    && (if ins.id in Members(s, ins.service) && Members(s, ins.service)[ins.id].ins.addr == ins.addr
        then Silent(s, s', ins.service)
        else Announces(s, s', ins.service, wall))
  }

  /** A registration fails if and only if service, ID or address is missing, and then changes nothing. */
  lemma {:induction false} RegisterOnFields(s: State, ins: Instance, now: int, wall: int)
    requires Ok(s)
    ensures var (s', o) := Register(s, ins, now, wall);
            if ins.service == "" || ins.id == "" || ins.addr == "" then o == RequestErr && s' == s
            else o == Done && Files(s, s', ins, now, wall)
  {
    if ins.service != "" && ins.id != "" && ins.addr != "" {
      if ins.service in s.services {
        RegisterKnown(s, ins, now, wall);
      } else {
        NewService(s, ins, now, wall);
        hide Register, Ok;
      }
    }
  }

  lemma {:induction false} RegisterKnown(s: State, ins: Instance, now: int, wall: int)
    requires Ok(s) && Complete(ins) && ins.service in s.services
    ensures Files(s, Register(s, ins, now, wall).0, ins, now, wall)
  {
    assert ServiceOk(s.services[ins.service], ins.service, s);
    hide Filed, Ok, Complete;
  }

  /** A renewal succeeds if and only if the instance is there; then its renewal time is now and it counts as one
      heartbeat. Nothing else changes. */
  lemma {:induction false} RenewOnFields(s: State, name: string, id: string, now: int)
    ensures var (s', o) := Renew(s, name, id, now);
            if id !in Members(s, name) then o == NothingFound && s' == s
            else
              && o == Done && OnlyTouches(s, s', name) && Silent(s, s', name)
              && Members(s', name) == Members(s, name)[id := Entry(Members(s, name)[id].ins, now)]
              && Waiters(s', name) == Waiters(s, name) && s'.serial == s.serial
              && s'.renews == s.renews + 1 && s'.protected == s.protected
  {}

  /** A cancel succeeds if and only if the instance is there; then it is taken out, and that is announced. It is no
      heartbeat. */
  lemma {:induction false} CancelOnFields(s: State, name: string, id: string, wall: int)
    requires Ok(s)
    ensures var (s', o) := Cancel(s, name, id, wall);
            if id !in Members(s, name) then o == NothingFound && s' == s
            else
              && o == Done && OnlyTouches(s, s', name) && Announces(s, s', name, wall)
              && Members(s', name).Keys == Members(s, name).Keys - {id}
              && (forall x | x in Members(s', name) :: Members(s', name)[x] == Members(s, name)[x])
              && Waiters(s', name) == Waiters(s, name)
              && s'.renews == s.renews && s'.protected == s.protected
  {
    if name in s.services {
      assert ServiceOk(s.services[name], name, s);
    }
    hide Filed;
  }

  /** Nobody is counted out who was not counted in. */
  lemma {:induction false} ReleaseOnFields(s: State, name: string)
    requires Ok(s)
    ensures var s' := Release(s, name);
            && OnlyTouches(s, s', name) && s'.services.Keys == s.services.Keys
            && Members(s', name) == Members(s, name) && (name in s.services ==> Silent(s, s', name))
            && Waiters(s', name) == (if Waiters(s, name) > 0 then Waiters(s, name) - 1 else 0)
            && s'.closed == s.closed && s'.renews == s.renews && s'.protected == s.protected
  {
    if name in s.services {
      assert ServiceOk(s.services[name], name, s);
    }
  }

  /** Instance IDs that a sweep with clock reading `now` must leave: silent for at most HardEvictAfter and, unless the
      guard protects, for at most `EvictFactor` heartbeat intervals. */
  ghost function InTouch(s: State, cfg: Config, protected: bool, now: int, name: string): set<string> {
    set id | id in Members(s, name)
             && now - Members(s, name)[id].lastRenew <= cfg.hardEvictAfter
             && (protected || now - Members(s, name)[id].lastRenew <= cfg.heartbeatInterval * cfg.evictFactor)
  }

  /** A sweep leaves exactly the instances in touch, as they are; it reaps exactly the services that then have
      neither instances nor waiters, so no such entry remains; and it announces the change of just those that lost
      an instance. */
  lemma {:induction false} SweepOnFields(s: State, cfg: Config, protected: bool, now: int, wall: string -> int,
                                         name: string)
    requires Ok(s) && name in s.services
    ensures var s', left := Sweep(s, cfg, protected, now, wall), InTouch(s, cfg, protected, now, name);
            var svc := s.services[name];
            && (name in s'.services <==> left != {} || svc.waiters != 0)
            && (name in s'.services ==>
                  var svc' := s'.services[name];
                  && svc'.instances.Keys == left
                  && (forall id | id in left :: svc'.instances[id] == svc.instances[id])
                  && svc'.waiters == svc.waiters
                  && svc'.version == (if left == svc.instances.Keys then svc.version
                                      else if wall(name) > svc.version then wall(name) else svc.version + 1)
                  && (if left == svc.instances.Keys then svc'.update == svc.update
                      else svc'.update.name == name && svc'.update.serial >= s.serial))
            && (svc.update in s'.closed <==> left != svc.instances.Keys)
  {
    SurvivorsInTouch(s, cfg, protected, now, name);
    SweepCloses(s, cfg, protected, now, wall, name);
    hide Expired, Filed, Ok;
  }

  lemma {:induction false} SurvivorsInTouch(s: State, cfg: Config, protected: bool, now: int, name: string)
    requires name in s.services
    ensures var left, m := Survivors(s.services[name].instances, cfg, protected, now), s.services[name].instances;
            && left.Keys == InTouch(s, cfg, protected, now, name)
            && (forall id | id in left :: left[id] == m[id])
            && (left == m <==> left.Keys == m.Keys) && (left == map[] <==> left.Keys == {})
  {}

  lemma {:induction false} SweepCloses(s: State, cfg: Config, protected: bool, now: int, wall: string -> int,
                                       name: string)
    requires Ok(s) && name in s.services
    ensures s.services[name].update in Sweep(s, cfg, protected, now, wall).closed
        <==> Shrinks(s.services[name], cfg, protected, now)
  {
    assert ServiceOk(s.services[name], name, s);
    forall n | n in s.services && s.services[n].update == s.services[name].update ensures n == name {
      assert ServiceOk(s.services[n], n, s);
    }
    hide Survivors, Filed;
  }

  /** And of all services together. */
  lemma {:induction false} SweepReaps(s: State, cfg: Config, protected: bool, now: int, wall: string -> int)
    requires Ok(s)
    ensures var s' := Sweep(s, cfg, protected, now, wall);
            && s'.services.Keys <= s.services.Keys
            && (forall n | n in s'.services :: !(s'.services[n].instances == map[] && s'.services[n].waiters == 0))
            && s'.renews == s.renews && s'.protected == s.protected
  {
    forall n | n in Sweep(s, cfg, protected, now, wall).services
      ensures var svc := Sweep(s, cfg, protected, now, wall).services[n];
              !(svc.instances == map[] && svc.waiters == 0)
    {
      SweepOnFields(s, cfg, protected, now, wall, n);
    }
  }

  /** The guard protects from here on if and only if it is enabled, anybody is present, and fewer heartbeats came
      than the threshold's share of what so many instances send in a window. The count starts anew; nothing else
      changes. */
  lemma {:induction false} EvaluateOnFields(s: State, count: nat, cfg: Config)
    requires cfg.Ok()
    ensures var s' := Evaluate(s, count, cfg);
            && s' == s.(protected := s'.protected, renews := 0)
            && (s'.protected <==>
                  && cfg.guardThreshold > 0.0 && count > 0
                  && (s.renews * cfg.heartbeatInterval) as real
                     < count as real * cfg.guardWindow as real * cfg.guardThreshold)
  {
    Share(s.renews, count, cfg.guardWindow, cfg.heartbeatInterval, cfg.guardThreshold);
  }

  lemma {:induction false} Share(renews: int, count: nat, window: int, interval: int, threshold: real)
    requires window > 0 && interval > 0
    ensures var expected := count as real * ((window as real) / (interval as real));
            && (expected > 0.0 <==> count > 0)
            && (renews as real < expected * threshold
                <==> (renews * interval) as real < count as real * window as real * threshold)
  {
    var i := interval as real;
    Share1(window as real, i);
  }

  lemma {:induction false} Share1(w: real, i: real)
    requires w > 0.0 && i > 0.0
    ensures w / i > 0.0 && (w / i) * i == w
  {}

  /** Each setting is filled in by itself: a set one stays, whatever the others are. */
  lemma {:induction false} DefaultsPerField(c: Config)
    ensures var d, second := c.WithDefaults(), 1000 * 1000 * 1000;
            && d.heartbeatInterval == (if c.heartbeatInterval > 0 then c.heartbeatInterval else 30 * second)
            && d.evictFactor == (if c.evictFactor > 0 then c.evictFactor else 3)
            && d.hardEvictAfter == (if c.hardEvictAfter > 0 then c.hardEvictAfter else 60 * 60 * second)
            && d.guardWindow == (if c.guardWindow > 0 then c.guardWindow else 60 * second)
            && d.guardThreshold == (if c.guardThreshold != 0.0 then c.guardThreshold else 0.85)
  {}
}
