/**
 * The supervisor (include/lux.js): the registry of service records built
 * from the configuration, the dispatch of the messages the services send,
 * the dependency bookkeeping of `_connectService` and of the `connected`
 * release loop, and the two-stage health check.
 *
 * Timers are explicit steps: `Healthcheck` is one tick of the health-check
 * interval and `FireKillTimer` is the expiry of the oldest kill timer.
 * The definition files `require` would load are the input map `defs`, from
 * service path to parsed definition.
 */
module Lux {
  import opened Js
  import opened Data
  import Scheduler

  // ---------------------------------------------------------------------
  // `_registerServices`, as pure functions of the configuration
  // ---------------------------------------------------------------------

  /** Where `_registerServices` looks for a service: the configuration's own
      truthy `path`, otherwise `modules/` followed by its truthy `name` or,
      failing that, by the key. `path.resolve` raises on a path that is not
      a string. */
  function ServicePath(key: string, cfg: Value): (r: Completion<string>)
    ensures r.Throw? <==> Truthy(cfg) && Truthy(Prop(cfg, "path")) && !Prop(cfg, "path").Str?
    ensures r.Return? && Truthy(cfg) && Truthy(Prop(cfg, "path")) ==> r.value == Prop(cfg, "path").s
    ensures !Truthy(cfg) ==> r == Return("modules/" + key)
    ensures Truthy(cfg) && !Truthy(Prop(cfg, "path")) ==>
              r == Return("modules/" + (if Truthy(Prop(cfg, "name")) then ToString(Prop(cfg, "name")) else key))
  {
    if Truthy(cfg) && Truthy(Prop(cfg, "path")) then
      match Prop(cfg, "path")
      case Str(p) => Return(p)
      case _ => Throw
    else
      Return("modules/" + (if Truthy(cfg) && Truthy(Prop(cfg, "name")) then ToString(Prop(cfg, "name")) else key))
  }

  /** `def && typeof def === 'object'`: a definition that loaded */
  predicate Loaded(def: Value) {
    Truthy(def) && IsObject(def)
  }

  /** The definition found at a path; `null` when loading it fails */
  function DefinitionAt(defs: map<string, Value>, p: string): Value {
    if p in defs then defs[p] else Null
  }

  /** What one registration records: the resolved path, the definition,
      the configuration and whether `autoStart` held. */
  datatype Registration = Registration(path: string, def: Value, config: Value, autoStart: bool)

  /** One pass of the registration loop: raises, skips the entry
      (`Return(None)`) or registers it. */
  function Register(key: string, cfg: Value, defs: map<string, Value>): (r: Completion<Option<Registration>>)
    ensures r.Return? && r.value.Some? ==>
              var reg := r.value.value;
              && ServicePath(key, cfg) == Return(reg.path)
              && reg.def == DefinitionAt(defs, reg.path) && Loaded(reg.def)
              && reg.config == cfg
              && AutoStartOf(reg.def, cfg) == Return(reg.autoStart)
    ensures r == Return(None) <==> ServicePath(key, cfg).Return? && !Loaded(DefinitionAt(defs, ServicePath(key, cfg).value))
  {
    match ServicePath(key, cfg)
    case Throw => Throw
    case Return(p) =>
      var def := DefinitionAt(defs, p);
      if !Loaded(def) then Return(None)
      else match AutoStartOf(def, cfg)
        case Throw => Throw
        case Return(a) => Return(Some(Registration(p, def, cfg, a)))
  }

  /** The registry after a run of the registration loop, and whether it raised */
  datatype Plan = Plan(regs: map<string, Registration>, threw: bool)

  /** The registration loop over the entries of `services`, in order; once
      an entry raises, the later ones are not reached. */
  function Registry(entries: seq<(string, Value)>, defs: map<string, Value>): Plan
    decreases |entries|
  {
    if entries == [] then Plan(map[], false)
    else
      var p := Registry(entries[..|entries| - 1], defs);
      var key := entries[|entries| - 1].0;
      if p.threw then p
      else match Register(key, entries[|entries| - 1].1, defs)
        case Throw => Plan(p.regs, true)
        case Return(None) => p
        case Return(Some(reg)) => Plan(p.regs[key := reg], false)
  }

  /** Once the loop has raised, the entries after that point change nothing */
  lemma {:induction false} RegistryStops(entries: seq<(string, Value)>, defs: map<string, Value>, n: nat)
    requires n <= |entries| && Registry(entries[..n], defs).threw
    ensures Registry(entries, defs) == Registry(entries[..n], defs)
    decreases |entries| - n
  {
    if n < |entries| {
      var m := |entries| - 1;
      assert entries[..m][..n] == entries[..n];
      RegistryStops(entries[..m], defs, n);
      assert entries[..|entries|] == entries;
    } else {
      assert entries[..n] == entries;
    }
  }

  /** One pass of the loop at entry `i`, reached without a raise */
  lemma RegistryTurn(entries: seq<(string, Value)>, defs: map<string, Value>, i: nat)
    requires i < |entries| && !Registry(entries[..i], defs).threw
    ensures var p := Registry(entries[..i], defs);
            var q := Registry(entries[..i + 1], defs);
            match Register(entries[i].0, entries[i].1, defs)
            case Throw => Registry(entries, defs) == q && q == Plan(p.regs, true)
            case Return(None) => q == p
            case Return(Some(reg)) => q == Plan(p.regs[entries[i].0 := reg], false)
  {
    assert entries[..i + 1][..i] == entries[..i];
    if Register(entries[i].0, entries[i].1, defs).Throw? {
      RegistryStops(entries, defs, i + 1);
      assert entries[..|entries|] == entries;
    }
  }

  /** The loop raises exactly when some entry raises */
  lemma {:induction false} RegistryThrows(entries: seq<(string, Value)>, defs: map<string, Value>)
    ensures Registry(entries, defs).threw <==> exists i :: 0 <= i < |entries| && Register(entries[i].0, entries[i].1, defs).Throw?
    decreases |entries|
  {
    if entries != [] {
      var m := |entries| - 1;
      RegistryThrows(entries[..m], defs);
      assert forall i :: 0 <= i < m ==> entries[..m][i] == entries[i];
    }
  }

  /** When nothing raises, a key is registered exactly when one of its
      entries has a definition that loads, and it is registered as one of
      those entries says. */
  lemma {:induction false} RegistryKeyAt(entries: seq<(string, Value)>, defs: map<string, Value>, k: string)
    requires !Registry(entries, defs).threw
    ensures var regs := Registry(entries, defs).regs;
            k in regs <==> exists i :: 0 <= i < |entries| && entries[i].0 == k
                                       && Register(k, entries[i].1, defs).Return?
                                       && Register(k, entries[i].1, defs).value.Some?
    ensures var regs := Registry(entries, defs).regs;
            k in regs ==> exists i :: 0 <= i < |entries| && entries[i].0 == k
                                      && Register(k, entries[i].1, defs) == Return(Some(regs[k]))
    decreases |entries|
  {
    if entries != [] {
      var m := |entries| - 1;
      var pre := entries[..m];
      var p := Registry(pre, defs);
      assert !p.threw;
      RegistryKeyAt(pre, defs, k);
      var regs := Registry(entries, defs).regs;
      var last := Register(k, entries[m].1, defs);
      if k == entries[m].0 && last.Return? && last.value.Some? {
        assert regs[k] == last.value.value;
      } else {
        assert k in regs <==> k in p.regs;
        if k in p.regs {
          assert regs[k] == p.regs[k];
          var i :| 0 <= i < m && pre[i].0 == k && Register(k, pre[i].1, defs) == Return(Some(p.regs[k]));
          assert entries[i] == pre[i];
        }
        if exists i :: 0 <= i < |entries| && entries[i].0 == k && Register(k, entries[i].1, defs).Return?
                       && Register(k, entries[i].1, defs).value.Some? {
          var i :| 0 <= i < |entries| && entries[i].0 == k && Register(k, entries[i].1, defs).Return?
                   && Register(k, entries[i].1, defs).value.Some?;
          assert i != m;
          assert pre[i] == entries[i];
        }
      }
    }
  }

  lemma RegistryKeys(entries: seq<(string, Value)>, defs: map<string, Value>)
    requires !Registry(entries, defs).threw
    ensures var regs := Registry(entries, defs).regs;
            forall k :: k in regs <==> exists i :: 0 <= i < |entries| && entries[i].0 == k
                                                 && Register(k, entries[i].1, defs).Return?
                                                 && Register(k, entries[i].1, defs).value.Some?
    ensures var regs := Registry(entries, defs).regs;
            forall k :: k in regs ==> exists i :: 0 <= i < |entries| && entries[i].0 == k
                                                && Register(k, entries[i].1, defs) == Return(Some(regs[k]))
  {
    forall k ensures var regs := Registry(entries, defs).regs;
                     && (k in regs <==> exists i :: 0 <= i < |entries| && entries[i].0 == k
                                                    && Register(k, entries[i].1, defs).Return?
                                                    && Register(k, entries[i].1, defs).value.Some?)
                     && (k in regs ==> exists i :: 0 <= i < |entries| && entries[i].0 == k
                                                   && Register(k, entries[i].1, defs) == Return(Some(regs[k])))
    {
      RegistryKeyAt(entries, defs, k);
    }
  }


  // ---------------------------------------------------------------------
  // The supervisor
  // ---------------------------------------------------------------------

  /** A pending kill timer of the health check: the registry key it tests
      and the record it kills, as captured when the timer was set. */
  datatype KillTimer = KillTimer(name: string, record: ServiceData)

  /** The kill timers the health check sets for the services `names`, in order */
  function TimersFor(names: seq<string>, services: map<string, ServiceData>): (r: seq<KillTimer>)
    requires forall i :: 0 <= i < |names| ==> names[i] in services
    ensures |r| == |names| && forall i :: 0 <= i < |names| ==> r[i] == KillTimer(names[i], services[names[i]])
    decreases |names|
  {
    if names == [] then [] else [KillTimer(names[0], services[names[0]])] + TimersFor(names[1..], services)
  }

  /** How `start` ends: normally, by `process.exit()` when there is no
      services object, or by an exception out of the registration loop. */
  datatype StartOutcome = Started | Exited | Raised

  /** The dependency entries of a service as registry keys: `this._services[d]`
      converts each entry to a string. */
  function Keys(deps: seq<Value>): seq<string> {
    seq(|deps|, i requires 0 <= i < |deps| => ToString(deps[i]))
  }

  /** A record just as the registration loop leaves it for `reg` under `key` */
  predicate Registered(rec: ServiceData, key: string, reg: Registration)
    reads rec
  {
    && rec.name == key && rec.path == reg.path && rec.def == reg.def && rec.config == reg.config
    && rec.dependencies == [] && rec.pong == None
    && if reg.autoStart then
         rec.status == 1 && rec.process == Some(Handle(reg.path, true)) && rec.outbox == [Fork(Handle(reg.path, true))]
       else
         rec.status == 0 && rec.process == None && rec.outbox == []
  }

  /** A registered record's `autoStart` getter reports what registration
      decided, and it holds exactly for the records that were forked. */
  lemma RegisteredAutoStart(rec: ServiceData, key: string, reg: Registration)
    requires Registered(rec, key, reg) && AutoStartOf(reg.def, reg.config) == Return(reg.autoStart)
    ensures rec.AutoStart() == Return(reg.autoStart)
    ensures rec.AutoStart() == Return(true) <==> rec.process.Some?
    ensures rec.AutoStart() == Return(false) <==> rec.Dead() && rec.outbox == []
  {
  }

  class Lux {
    /** The parsed `config.json` */
    const config: Value
    var services: map<string, ServiceData>
    /** dependency name -> the names waiting for it, one entry per wait */
    var serviceQueue: map<string, seq<string>>
    /** waiter name -> number of its unmet dependency entries */
    var waitingFor: map<string, int>
    /** How many health-check intervals have been set up */
    var healthchecks: nat
    /** The services the health check asked to stop, in order */
    var stopRequests: seq<string>
    /** The pending kill timers, oldest first; all have the same delay */
    var killTimers: seq<KillTimer>

    ghost function Bookkeeping(): Scheduler.Sched
      reads this`serviceQueue, this`waitingFor
    {
      Scheduler.Sched(serviceQueue, waitingFor)
    }

    /** Which registered services are running */
    ghost function RunningMap(): map<string, bool>
      reads this`services, services.Values`status
    {
      map k | k in services :: services[k].Running()
    }

    /** Every record is registered under its own name, holds a status the
        records ever take, and is registered once; the counters agree with
        the waiter lists. */
    ghost predicate Valid()
      reads this`services, this`serviceQueue, this`waitingFor, services.Values`status
    {
      && (forall k :: k in services ==> services[k].name == k && services[k].Valid())
      && (forall k, k' :: k in services && k' in services && k != k' ==> services[k] != services[k'])
      && Scheduler.Inv(Bookkeeping())
    }

    /** `_loadConfig` has produced `config`; both bookkeeping maps start empty. */
    constructor (config: Value)
      ensures this.config == config && services == map[]
      ensures serviceQueue == map[] && waitingFor == map[]
      ensures healthchecks == 0 && stopRequests == [] && killTimers == []
      ensures Valid()
    {
      this.config := config;
      services := map[];
      serviceQueue := map[];
      waitingFor := map[];
      healthchecks := 0;
      stopRequests := [];
      killTimers := [];
      new;
      Scheduler.EmptyInv();
    }

    /** `_registerServices`: the registry is rebuilt from the `services`
        entry of the configuration, one fresh record per registered key,
        started when `autoStart` holds. */
    method RegisterServices(defs: map<string, Value>) returns (r: StartOutcome)
      modifies this`services
      ensures Get(config, "services").Throw? ==> r == Raised && services == map[]
      ensures Get(config, "services").Return? && !Loaded(Get(config, "services").value) ==> r == Exited && services == map[]
      ensures Get(config, "services").Return? && Loaded(Get(config, "services").value) ==>
                var plan := Registry(Entries(Get(config, "services").value), defs);
                && r == (if plan.threw then Raised else Started)
                && services.Keys == plan.regs.Keys
                && (forall k :: k in services ==> Registered(services[k], k, plan.regs[k]))
      ensures forall k :: k in services ==> fresh(services[k])
      ensures forall k :: k in services ==> services[k].name == k && services[k].Valid()
      ensures forall k, k' :: k in services && k' in services && k != k' ==> services[k] != services[k']
    {
      services := map[];
      var list := Get(config, "services");
      if list.Throw? {
        return Raised;
      }
      if !Loaded(list.value) {
        return Exited;
      }
      var threw := RegisterEntries(Entries(list.value), defs);
      r := if threw then Raised else Started;
    }

    /** The `for ... in` loop of `_registerServices` over `entries`, from an
        empty registry */
    method RegisterEntries(entries: seq<(string, Value)>, defs: map<string, Value>) returns (threw: bool)
      requires services == map[]
      modifies this`services
      ensures var plan := Registry(entries, defs);
              && threw == plan.threw
              && services.Keys == plan.regs.Keys
              && (forall k :: k in services ==> Registered(services[k], k, plan.regs[k]))
      ensures forall k :: k in services ==> fresh(services[k])
      ensures forall k :: k in services ==> services[k].name == k && services[k].Valid()
      ensures forall k, k' :: k in services && k' in services && k != k' ==> services[k] != services[k']
    {
      var i := 0;
      while i < |entries|
        invariant 0 <= i <= |entries|
        invariant !Registry(entries[..i], defs).threw
        invariant services.Keys == Registry(entries[..i], defs).regs.Keys
        invariant forall k :: k in services ==> fresh(services[k]) && Registered(services[k], k, Registry(entries[..i], defs).regs[k])
        invariant forall k, k' :: k in services && k' in services && k != k' ==> services[k] != services[k']
      {
        var key := entries[i].0;
        RegistryTurn(entries, defs, i);
        match Register(key, entries[i].1, defs) {
          case Throw =>
            return true;
          case Return(None) =>
          case Return(Some(reg)) =>
            var rec := Enroll(key, reg);
            services := services[key := rec];
        }
        i := i + 1;
      }
      assert entries[..i] == entries;
      return false;
    }

    /** The record one registered entry gets: built, and started at once when
        its auto-start condition holds */
    method Enroll(key: string, reg: Registration) returns (rec: ServiceData)
      ensures fresh(rec) && Registered(rec, key, reg) && rec.Valid()
    {
      rec := new ServiceData(key, reg.path, reg.def, reg.config);
      if reg.autoStart {
        rec.Start(true);
      }
    }

    /** `start`: registration, then the health-check interval, then an empty
        queue. Registration that ends the process or raises skips the rest. */
    method Start(defs: map<string, Value>) returns (r: StartOutcome)
      modifies this`services, this`serviceQueue, this`healthchecks
      ensures Get(config, "services").Throw? ==> r == Raised && services == map[]
      ensures Get(config, "services").Return? && !Loaded(Get(config, "services").value) ==> r == Exited && services == map[]
      ensures Get(config, "services").Return? && Loaded(Get(config, "services").value) ==>
                var plan := Registry(Entries(Get(config, "services").value), defs);
                && r == (if plan.threw then Raised else Started)
                && services.Keys == plan.regs.Keys
                && (forall k :: k in services ==> Registered(services[k], k, plan.regs[k]))
      ensures forall k :: k in services ==> fresh(services[k])
      ensures r == Started ==> serviceQueue == map[] && healthchecks == old(healthchecks) + 1
      ensures r != Started ==> serviceQueue == old(serviceQueue) && healthchecks == old(healthchecks)
      ensures r == Started && waitingFor == map[] ==> Valid()
    {
      r := RegisterServices(defs);
      if r == Started {
        healthchecks := healthchecks + 1;
        serviceQueue := map[];
        if waitingFor == map[] {
          Scheduler.EmptyInv();
          assert Bookkeeping() == Scheduler.Sched(map[], map[]);
        }
      }
    }

    /** `_connectService`: every dependency entry that is registered but not
        running parks `name` in its waiter list and bumps the counter of
        `name`; an entry that is not registered raises. `connect` is sent
        only when the loop ends without a parked entry. */
    method ConnectService(name: string, rec: ServiceData) returns (threw: bool)
      requires Valid() && name in services && services[name] == rec
      modifies this`serviceQueue, this`waitingFor, rec`outbox
      ensures Valid()
      ensures var deps := Keys(rec.dependencies);
              var w := Scheduler.Wait(old(Bookkeeping()), name, deps, RunningMap());
              && Bookkeeping() == w.sched && threw == w.threw
              && rec.outbox == old(rec.outbox) + (if !threw && Scheduler.Unmet(deps, RunningMap()) == [] then rec.ConnectSends() else [])
    {
      var connecting;
      threw, connecting := AwaitDependencies(name, Keys(rec.dependencies));
      ghost var running := RunningMap();
      if connecting {
        rec.Connect();
      }
      assert RunningMap() == running;
    }

    /** The `forEach` of `_connectService`: each entry that is not running
        parks `name` behind it, and an unregistered entry stops the walk
        with the updates made so far. `connecting` says that no entry was
        waited for. */
    method AwaitDependencies(name: string, deps: seq<string>) returns (threw: bool, connecting: bool)
      requires Scheduler.Inv(Bookkeeping())
      modifies this`serviceQueue, this`waitingFor
      ensures Scheduler.Inv(Bookkeeping())
      ensures var w := Scheduler.Wait(old(Bookkeeping()), name, deps, RunningMap());
              && Bookkeeping() == w.sched && threw == w.threw
              && (connecting <==> !threw && Scheduler.Unmet(deps, RunningMap()) == [])
    {
      ghost var running := RunningMap();
      ghost var st0 := Bookkeeping();
      connecting := true;
      var i := 0;
      while i < |deps|
        invariant 0 <= i <= |deps|
        invariant Scheduler.Wait(Bookkeeping(), name, deps[i..], running) == Scheduler.Wait(st0, name, deps, running)
        invariant connecting <==> Scheduler.Unmet(deps[..i], running) == []
        invariant Scheduler.Inv(Bookkeeping())
        invariant RunningMap() == running
      {
        var d := deps[i];
        Scheduler.WaitTurn(Bookkeeping(), name, deps, i, running);
        if d !in services {
          return true, false;
        }
        if !services[d].Running() {
          Park(d, name);
          connecting := false;
        }
        i := i + 1;
      }
      assert deps[..i] == deps;
      return false, connecting;
    }

    /** One not-running dependency entry: `name` joins the waiter list of
        `d` and its counter goes up by one. */
    method Park(d: string, name: string)
      requires Scheduler.Inv(Bookkeeping())
      modifies this`serviceQueue, this`waitingFor
      ensures Bookkeeping() == Scheduler.Block(old(Bookkeeping()), d, name)
      ensures Scheduler.Inv(Bookkeeping())
    {
      Scheduler.BlockInv(Bookkeeping(), d, name);
      serviceQueue := serviceQueue[d := Scheduler.Waiters(serviceQueue, d) + [name]];
      waitingFor := waitingFor[name := Scheduler.Count(waitingFor, name) + 1];
    }

    /** The `connect` case: an array of dependencies replaces the record's
        list, then `_connectService` runs. */
    method OnConnect(name: string, rec: ServiceData, msg: Value) returns (threw: bool)
      requires Valid() && name in services && services[name] == rec && msg.Obj?
      modifies this`serviceQueue, this`waitingFor, rec`dependencies, rec`outbox
      ensures Valid()
      ensures var deps := Keys(rec.dependencies);
              var w := Scheduler.Wait(old(Bookkeeping()), name, deps, RunningMap());
              && rec.dependencies == (if Lookup(msg.props, "dependencies").Arr? then Lookup(msg.props, "dependencies").elems
                                      else old(rec.dependencies))
              && Bookkeeping() == w.sched && threw == w.threw
              && rec.outbox == old(rec.outbox) + (if !threw && Scheduler.Unmet(deps, RunningMap()) == [] then rec.ConnectSends() else [])
    {
      var ds := Prop(msg, "dependencies");
      if ds.Arr? {
        rec.dependencies := ds.elems;
      }
      threw := ConnectService(name, rec);
    }

    /** The `connected` case: the record completes its handshake, then each
        entry of the waiter list of `name` decrements its waiter's counter;
        a waiter whose counter reaches zero is released (its record sends
        `connect`, when it is still registered) and its counter is deleted.
        The waiter list of `name` is deleted at the end. */
    method OnConnected(name: string) returns (released: seq<string>)
      requires Valid() && name in services
      modifies this`serviceQueue, this`waitingFor, services.Values
      ensures Valid()
      ensures Bookkeeping() == Scheduler.Connected(old(Bookkeeping()), name).sched
      ensures released == Scheduler.Connected(old(Bookkeeping()), name).released
      ensures var rec := services[name];
              && rec.status == (if old(rec.process).Some? then 2 else old(rec.status))
              && rec.outbox == old(rec.outbox) + (if old(rec.process).Some? then [Send(ConnectedMessage())] else [])
                                               + (if name in released then rec.ConnectSends() else [])
              && rec.process == old(rec.process) && rec.pong == old(rec.pong) && rec.dependencies == old(rec.dependencies)
      ensures forall k :: k in services && k != name ==>
                if k in released then services[k].Reconnected() else services[k].Untouched()
    {
      var rec := services[name];
      rec.Connected();
      released := ReleaseQueue(name);
    }

    /** The waiters of `name` are released and its waiter list is deleted;
        a service nobody waits on changes nothing. */
    method ReleaseQueue(name: string) returns (released: seq<string>)
      requires Scheduler.Inv(Bookkeeping())
      requires forall k :: k in services ==> services[k].name == k
      modifies this`serviceQueue, this`waitingFor, services.Values
      ensures Scheduler.Inv(Bookkeeping())
      ensures Bookkeeping() == Scheduler.Connected(old(Bookkeeping()), name).sched
      ensures released == Scheduler.Connected(old(Bookkeeping()), name).released
      ensures forall k :: k in services ==> if k in released then services[k].Reconnected() else services[k].Untouched()
    {
      Scheduler.ConnectedStep(Bookkeeping(), name);
      released := [];
      if name in serviceQueue {
        released := ReleaseWaiters(serviceQueue[name]);
        serviceQueue := serviceQueue - {name};
      }
    }

    /** The release loop of the `connected` case over the waiter list `ws`:
        the counters are decremented entry by entry, and each waiter whose
        counter reaches zero is released. The connects of the released
        waiters are issued after the counting pass, in release order. */
    method ReleaseWaiters(ws: seq<string>) returns (released: seq<string>)
      requires Scheduler.Covers(waitingFor, ws)
      requires forall k :: k in services ==> services[k].name == k
      modifies this`waitingFor, services.Values
      ensures waitingFor == Scheduler.Decrement(old(waitingFor), ws).waiting
      ensures released == Scheduler.Decrement(old(waitingFor), ws).released
      ensures forall k :: k in services ==>
                if k in released then services[k].Reconnected()
                else services[k].Untouched()
    {
      released := CountDown(ws);
      StartServices(released);
    }

    /** The counting pass: `--this._waitingFor[s]` for each entry, deleting
        a counter that reaches zero; the released waiters are distinct. */
    method CountDown(ws: seq<string>) returns (released: seq<string>)
      requires Scheduler.Covers(waitingFor, ws)
      modifies this`waitingFor
      ensures waitingFor == Scheduler.Decrement(old(waitingFor), ws).waiting
      ensures released == Scheduler.Decrement(old(waitingFor), ws).released
      ensures forall i, j :: 0 <= i < j < |released| ==> released[i] != released[j]
    {
      ghost var total := Scheduler.Decrement(waitingFor, ws);
      Scheduler.DecrementReleased(waitingFor, ws);
      released := [];
      var i := 0;
      while i < |ws|
        invariant 0 <= i <= |ws|
        invariant Scheduler.Releasing(waitingFor, ws[i..], released, total)
      {
        released := ReleaseOne(ws[i], ws[i..], released, total);
        assert ws[i..][1..] == ws[i + 1..];
        i := i + 1;
      }
      assert ws[i..] == [] && released + [] == released;
    }

    /** One waiter entry: its counter is decremented, and at zero the waiter
        is released and its counter deleted. */
    method ReleaseOne(s: string, ghost rest: seq<string>, rel: seq<string>, ghost total: Scheduler.Release)
      returns (rel': seq<string>)
      requires rest != [] && rest[0] == s && Scheduler.Releasing(waitingFor, rest, rel, total)
      modifies this`waitingFor
      ensures Scheduler.Releasing(waitingFor, rest[1..], rel', total)
      ensures rel' == rel || (s !in rel && rel' == rel + [s])
    {
      Scheduler.ReleasingStep(waitingFor, rest, rel, total);
      ghost var next := Scheduler.Decremented(waitingFor, s);
      var left := waitingFor[s] - 1;
      waitingFor := waitingFor[s := left];
      if left == 0 {
        waitingFor := waitingFor - {s};
        rel' := rel + [s];
      } else {
        rel' := rel;
      }
      assert waitingFor == next;
    }

    /** `_startService` for each released waiter, in order */
    method StartServices(names: seq<string>)
      requires forall i, j :: 0 <= i < j < |names| ==> names[i] != names[j]
      requires forall k :: k in services ==> services[k].name == k
      modifies services.Values
      ensures forall k :: k in services ==>
                if k in names then services[k].Reconnected()
                else services[k].Untouched()
    {
      var i := 0;
      while i < |names|
        invariant 0 <= i <= |names|
        invariant forall k :: k in services ==>
                if k in names[..i] then services[k].Reconnected()
                else services[k].Untouched()
      {
        StartService(names[i]);
        assert names[..i + 1] == names[..i] + [names[i]];
        i := i + 1;
      }
      assert names[..i] == names;
    }

    /** Releasing the waiter `s`: its record, when it is still registered,
        sends `connect`; no other record changes. */
    method StartService(s: string)
      requires forall k :: k in services ==> services[k].name == k
      modifies services.Values
      ensures forall k :: k in services ==>
                if k == s then services[k].Reconnected()
                else services[k].Untouched()
    {
      if s in services {
        services[s].Connect();
      }
    }

    /** The `ping` case: the reply time is recorded. The delayed probe that
        follows is bound to the supervisor, which has no process, so it
        sends nothing and is not part of the state. */
    method OnPing(rec: ServiceData, now: int)
      modifies rec`pong
      ensures rec.pong == Some(now)
    {
      rec.Pong(now);
    }

    /** What a `connect` from the registered `name` does: an array of
        dependencies replaces the record's list, the bookkeeping moves to
        `Scheduler.Wait`, and the record sends its connect message back iff
        nothing raised or was left to wait for. Nothing else changes. */
    twostate predicate ConnectEffect(name: string, msg: Value, r: Outcome)
      reads this, services.Values
    {
      && services == old(services) && name in services && msg.Obj?
      && var rec := services[name];
         var ds := Prop(msg, "dependencies");
         var w := Scheduler.Wait(old(Bookkeeping()), name, Keys(rec.dependencies), RunningMap());
         && Bookkeeping() == w.sched && r == (if w.threw then Threw else Handled)
         && rec.dependencies == (if ds.Arr? then ds.elems else old(rec.dependencies))
         && rec.outbox == old(rec.outbox)
                          + (if !w.threw && Scheduler.Unmet(Keys(rec.dependencies), RunningMap()) == [] then rec.ConnectSends() else [])
         && rec.status == old(rec.status) && rec.process == old(rec.process) && rec.pong == old(rec.pong)
         && (forall k :: k in services && k != name ==> services[k].Untouched())
    }

    /** What a `connected` from the registered `name` does: a sender with a
        process becomes running and acknowledges, the bookkeeping moves to
        `Scheduler.Connected`, and exactly the released waiters send
        `connect`. Nothing else changes. */
    twostate predicate ConnectedEffect(name: string)
      reads this, services.Values
    {
      && services == old(services) && name in services && Scheduler.Inv(old(Bookkeeping()))
      && var c := Scheduler.Connected(old(Bookkeeping()), name);
         var rec := services[name];
         && Bookkeeping() == c.sched
         && rec.status == (if old(rec.process).Some? then 2 else old(rec.status))
         && rec.outbox == old(rec.outbox) + (if old(rec.process).Some? then [Send(ConnectedMessage())] else [])
                                          + (if name in c.released then rec.ConnectSends() else [])
         && rec.process == old(rec.process) && rec.pong == old(rec.pong) && rec.dependencies == old(rec.dependencies)
         && (forall k :: k in services && k != name ==>
               if k in c.released then services[k].Reconnected() else services[k].Untouched())
    }

    /** What a `ping` from the registered `name` does: its reply time
        becomes `now`, and nothing else changes. */
    twostate predicate PingEffect(name: string, now: int)
      reads this, services.Values
    {
      && services == old(services) && name in services
      && var rec := services[name];
         && Bookkeeping() == old(Bookkeeping()) && rec.pong == Some(now)
         && rec.status == old(rec.status) && rec.process == old(rec.process)
         && rec.outbox == old(rec.outbox) && rec.dependencies == old(rec.dependencies)
         && (forall k :: k in services && k != name ==> services[k].Untouched())
    }

    /** Neither the bookkeeping nor any record has changed */
    twostate predicate Quiet()
      reads this, services.Values
    {
      && services == old(services) && Bookkeeping() == old(Bookkeeping())
      && forall k :: k in services ==> services[k].Untouched()
    }

    /** `_message`: what arrives from the service registered as `name` */
    method Message(name: string, msg: Value, now: int) returns (r: Outcome)
      requires Valid()
      modifies this`serviceQueue, this`waitingFor, services.Values
      ensures Valid()
      ensures r == Dropped <==> Action(msg) == Return(None)
      ensures Action(msg).Throw? ==> r == Threw
      ensures r == Dropped || (r == Threw && (Action(msg).Throw? || name !in services)) ==> Quiet()
      ensures Action(msg).Return? && Action(msg).value.Some? ==>
                var a := Action(msg).value.value;
                && (a != "connect" && a != "connected" && a != "ping" ==> r == Handled && Quiet())
                && (name !in services && (a == "connect" || a == "connected" || a == "ping") ==> r == Threw)
                && (name in services && a == "ping" ==> r == Handled && PingEffect(name, now))
                && (name in services && a == "connected" ==> r == Handled && ConnectedEffect(name))
                && (name in services && a == "connect" ==> ConnectEffect(name, msg, r))
    {
      var action := Action(msg);
      if action.Throw? {
        return Threw;
      }
      if action.value.None? {
        return Dropped;
      }
      var a := action.value.value;
      if a != "connect" && a != "connected" && a != "ping" {
        return Handled;
      }
      if name !in services {
        return Threw;
      }
      if a == "connect" {
        r := HandleConnect(name, msg);
      } else if a == "connected" {
        HandleConnected(name);
        r := Handled;
      } else {
        HandlePing(name, now);
        r := Handled;
      }
    }

    /** The `connect` case of `_message` */
    method HandleConnect(name: string, msg: Value) returns (r: Outcome)
      requires Valid() && name in services && msg.Obj?
      modifies this`serviceQueue, this`waitingFor, services.Values
      ensures Valid() && ConnectEffect(name, msg, r)
    {
      var threw := OnConnect(name, services[name], msg);
      r := if threw then Threw else Handled;
    }

    /** The `connected` case of `_message` */
    method HandleConnected(name: string)
      requires Valid() && name in services
      modifies this`serviceQueue, this`waitingFor, services.Values
      ensures Valid() && ConnectedEffect(name)
    {
      var released := OnConnected(name);
    }

    /** The `ping` case of `_message` */
    method HandlePing(name: string, now: int)
      requires Valid() && name in services
      modifies this`serviceQueue, this`waitingFor, services.Values
      ensures Valid() && PingEffect(name, now)
    {
      OnPing(services[name], now);
    }

    /** `_healthcheck` as written: `service.stop` does not exist, so the tick
        raises at the first record whose `deadPing` holds, before any timer
        is set; otherwise it does nothing. */
    method HealthcheckAsWritten() returns (r: Outcome)
      ensures r == Threw <==> exists k :: k in services && services[k].DeadPing()
      ensures r == Threw || r == Handled
    {
      var todo := services.Keys;
      while todo != {}
        invariant todo <= services.Keys
        invariant forall k :: k in services && k !in todo ==> !services[k].DeadPing()
        decreases |todo|
      {
        var k :| k in todo;
        if services[k].DeadPing() {
          return Threw;
        }
        todo := todo - {k};
      }
      return Handled;
    }

    /** One health-check tick with the stop request and the intended elapsed-time
        test: every service silent for longer than 4 * PING
        is asked to stop and gets one kill timer. `stopped` lists them in the
        order visited, each once. */
    method Healthcheck(now: int) returns (stopped: seq<string>)
      modifies this`stopRequests, this`killTimers
      ensures forall k :: k in stopped <==> k in services && Stale(services[k].pong, now)
      ensures forall i, j :: 0 <= i < j < |stopped| ==> stopped[i] != stopped[j]
      ensures stopRequests == old(stopRequests) + stopped
      ensures killTimers == old(killTimers) + TimersFor(stopped, services)
    {
      stopped := StaleServices(now);
      stopRequests := stopRequests + stopped;
      killTimers := killTimers + TimersFor(stopped, services);
    }

    /** The services the tick visits and finds stale, in the order visited */
    method StaleServices(now: int) returns (stopped: seq<string>)
      ensures forall k :: k in stopped <==> k in services && Stale(services[k].pong, now)
      ensures forall i, j :: 0 <= i < j < |stopped| ==> stopped[i] != stopped[j]
    {
      var todo := services.Keys;
      stopped := [];
      while todo != {}
        invariant todo <= services.Keys
        invariant forall k :: k in stopped ==> k in services && k !in todo && Stale(services[k].pong, now)
        invariant forall k :: k in services && k !in todo && Stale(services[k].pong, now) ==> k in stopped
        invariant forall i, j :: 0 <= i < j < |stopped| ==> stopped[i] != stopped[j]
        decreases |todo|
      {
        var k :| k in todo;
        if Stale(services[k].pong, now) {
          stopped := stopped + [k];
        }
        todo := todo - {k};
      }
    }

    /** The oldest kill timer expires: when its key is still registered, the
        record it captured is killed and the key leaves the registry; the
        other registered services are untouched. */
    method FireKillTimer()
      requires Valid() && killTimers != []
      modifies this`killTimers, this`services, killTimers[0].record`process, killTimers[0].record`outbox
      ensures Valid()
      ensures var t := old(killTimers[0]);
              && killTimers == old(killTimers[1..])
              && (t.name in old(services) ==>
                    && services == old(services) - {t.name}
                    && t.record.process == None
                    && t.record.outbox == old(t.record.outbox) + (if old(t.record.process).Some? then [Interrupt] else []))
              && (t.name !in old(services) ==> services == old(services) && unchanged(t.record))
    {
      var t := killTimers[0];
      killTimers := killTimers[1..];
      if t.name in services {
        t.record.Kill();
        services := services - {t.name};
      }
    }
  }
}
