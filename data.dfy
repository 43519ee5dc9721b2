/**
 * The supervisor-side record of one service (include/data.js): identity,
 * definition and configuration, a status code, the handle of the forked
 * child process and the time of the last heartbeat reply. Everything the
 * record does to its child process is appended to `outbox`, in order.
 */
module Data {
  import opened Js

  /** The heartbeat period, in milliseconds */
  const PING := 1000

  /** The handle `cp.fork('service.js', [path])` returns; `listening` says
      whether a message listener was attached to it. */
  datatype Handle = Handle(path: string, listening: bool)

  /** What the record does to its child process: fork it, send it a message
      over the channel, or interrupt it with SIGINT. Messages and signals go
      to the process of the latest `Fork`. */
  datatype Effect = Fork(handle: Handle) | Send(msg: Value) | Interrupt

  /** The message `connected()` sends */
  function ConnectedMessage(): Value {
    Obj([("action", Str("connected"))])
  }

  /** The message `ping()` sends */
  function PingMessage(): Value {
    Obj([("action", Str("ping"))])
  }

  class ServiceData {
    const name: string
    const path: string
    const def: Value
    const config: Value
    /** 0 dead, 1 starting, 2 running, 3 paused */
    var status: int
    var process: Option<Handle>
    /** The time of the last heartbeat reply; `undefined` until the first one */
    var pong: Option<int>
    /** The dependency list the service announced in its `connect` message */
    var dependencies: seq<Value>
    var outbox: seq<Effect>

    /** Only the codes 0, 1 and 2 are ever stored; nothing sets `paused`. */
    ghost predicate Valid()
      reads `status
    {
      0 <= status <= 2
    }

    /** A new record is dead, has no process, no heartbeat and no
        dependencies, and keeps name, path, definition and configuration. */
    constructor (name: string, path: string, def: Value, config: Value)
      ensures this.name == name && this.path == path && this.def == def && this.config == config
      ensures status == 0 && process == None && pong == None
      ensures dependencies == [] && outbox == []
      ensures Valid() && Dead()
    {
      this.name := name;
      this.path := path;
      this.def := def;
      this.config := config;
      status := 0;
      process := None;
      pong := None;
      dependencies := [];
      outbox := [];
    }

    /** Forks the child process, whatever the current status; the old
        process, if any, is abandoned without a signal. */
    method Start(listenerIsFunction: bool)
      modifies this`status, this`process, this`outbox
      ensures status == 1 && Starting() && Valid()
      ensures process == Some(Handle(path, listenerIsFunction))
      ensures outbox == old(outbox) + [Fork(Handle(path, listenerIsFunction))]
    {
      process := Some(Handle(path, listenerIsFunction));
      outbox := outbox + [Fork(process.value)];
      status := 1;
    }

    /** The message `connect()` sends: the configuration, definition and name */
    function ConnectMessage(): Value {
      Obj([("action", Str("connect")), ("config", config), ("def", def), ("name", Str(name))])
    }

    /** What `connect()` sends: the connect message if there is a process, nothing otherwise */
    function ConnectSends(): seq<Effect>
      reads `process
    {
      if process.Some? then [Send(ConnectMessage())] else []
    }

    /** Sends the configuration to the child process, if there is one */
    method Connect()
      modifies this`outbox
      ensures outbox == old(outbox) + ConnectSends()
      ensures process.Some? ==> |outbox| == |old(outbox)| + 1 && outbox[|outbox| - 1] == Send(ConnectMessage())
      ensures process.None? ==> outbox == old(outbox)
    {
      if process.Some? {
        outbox := outbox + [Send(ConnectMessage())];
      }
    }

    /** Between two states the record has sent `connect`, when it has a
        process, and nothing else about it has changed. */
    twostate predicate Reconnected()
      reads this
    {
      && outbox == old(outbox) + ConnectSends()
      && status == old(status) && process == old(process)
      && pong == old(pong) && dependencies == old(dependencies)
    }

    /** Between two states nothing about the record has changed */
    twostate predicate Untouched()
      reads this
    {
      && outbox == old(outbox) && status == old(status) && process == old(process)
      && pong == old(pong) && dependencies == old(dependencies)
    }

    /** Completes the handshake: running, and one `connected` message, but
        only when there is a process; otherwise nothing happens. */
    method Connected()
      modifies this`status, this`outbox
      ensures old(process).Some? ==> status == 2 && outbox == old(outbox) + [Send(ConnectedMessage())]
      ensures old(process).None? ==> status == old(status) && outbox == old(outbox)
      ensures old(Valid()) ==> Valid()
    {
      if process.Some? {
        status := 2;
        outbox := outbox + [Send(ConnectedMessage())];
      }
    }

    /** One heartbeat probe, sent only when there is a process */
    method Ping()
      modifies this`outbox
      ensures outbox == old(outbox) + (if process.Some? then [Send(PingMessage())] else [])
    {
      if process.Some? {
        outbox := outbox + [Send(PingMessage())];
      }
    }

    /** Records a heartbeat reply received at `now` (the value of `Date.now()`) */
    method Pong(now: int)
      modifies this`pong
      ensures pong == Some(now)
    {
      pong := Some(now);
    }

    /** Interrupts and forgets the process if there is one. The status is
        never touched, and a second call does nothing. */
    method Kill()
      modifies this`process, this`outbox
      ensures process == None
      ensures outbox == old(outbox) + (if old(process).Some? then [Interrupt] else [])
    {
      if process.Some? {
        outbox := outbox + [Interrupt];
        process := None;
      }
    }

    predicate Dead() reads `status { status == 0 }
    predicate Starting() reads `status { status == 1 }
    predicate Running() reads `status { status == 2 }
    predicate Paused() reads `status { status == 3 }

    /** For the codes 0 to 3 exactly one status getter holds, and none for any other code */
    lemma StatusGetters()
      ensures 0 <= status <= 3 <==> Dead() || Starting() || Running() || Paused()
      ensures !(Dead() && Starting()) && !(Dead() && Running()) && !(Dead() && Paused())
      ensures !(Starting() && Running()) && !(Starting() && Paused()) && !(Running() && Paused())
    {
    }

    /** Whether the service is started on registration: raises when the
        definition is missing, or when it asks for auto-start and the
        configuration is missing; otherwise holds iff the definition asks
        for it and the configuration does not turn it off. */
    function AutoStart(): (r: Completion<bool>)
      ensures r.Throw? <==> (def.Null? || def.Undefined?)
                            || (Truthy(Prop(def, "autoStart")) && (config.Null? || config.Undefined?))
      ensures r.Return? ==> (r.value <==> Truthy(Prop(def, "autoStart")) && Prop(config, "autoStart") != Bool(false))
    {
      AutoStartOf(def, config)
    }

    /** `_pong > 4 * PING`, as written: the stored timestamp itself is
        compared with 4000, and an undefined one compares false. */
    predicate DeadPing()
      reads `pong
      ensures DeadPing() ==> pong.Some?
      ensures pong.Some? ==> (DeadPing() <==> pong.value > 4 * PING)
    {
      pong.Some? && pong.value > 4 * PING
    }

    /** The `type`, `description` and `version` getters: properties of the
        definition, raising when there is none */
    function Type(): (r: Completion<Value>)
      ensures r.Throw? <==> def.Undefined? || def.Null?
    {
      Get(def, "name")
    }

    function Description(): (r: Completion<Value>)
      ensures r.Throw? <==> def.Undefined? || def.Null?
    {
      Get(def, "description")
    }

    function Version(): (r: Completion<Value>)
      ensures r.Throw? <==> def.Undefined? || def.Null?
    {
      Get(def, "version")
    }
  }

  /** `def.autoStart && config.autoStart !== false`, as a condition. Reading
      `autoStart` of a null or undefined configuration raises, but only when
      the definition asks for auto-start. */
  function AutoStartOf(def: Value, config: Value): (r: Completion<bool>)
    ensures r.Throw? <==> (def.Null? || def.Undefined?)
                          || (Truthy(Prop(def, "autoStart")) && (config.Null? || config.Undefined?))
    ensures r.Return? ==> (r.value <==> Truthy(Prop(def, "autoStart")) && Prop(config, "autoStart") != Bool(false))
  {
    match Get(def, "autoStart")
    case Throw => Throw
    case Return(a) =>
      if !Truthy(a) then Return(false)
      else match Get(config, "autoStart")
        case Throw => Throw
        case Return(c) => Return(c != Bool(false))
  }

  /** The intended heartbeat test: more than 4 * PING
      milliseconds have passed since the last reply. A service that never
      replied is not stale. */
  predicate Stale(pong: Option<int>, now: int) {
    pong.Some? && now - pong.value > 4 * PING
  }

  /** A reply received at time 5000 makes `deadPing` hold at once, at 5000,
      though no time has passed; the elapsed-time test does not. */
  lemma DeadPingIgnoresElapsedTime(d: ServiceData)
    requires d.pong == Some(5000)
    ensures d.DeadPing() && !Stale(d.pong, 5000)
  {
  }

  /** With the elapsed-time test, replies that keep arriving within 4 * PING
      keep the service fresh, and one older than that makes it stale. */
  lemma StaleIffSilentTooLong(t: int, now: int)
    ensures !Stale(Some(t), now) <==> now <= t + 4 * PING
    ensures !Stale(None, now)
    ensures forall later :: now <= later && Stale(Some(t), now) ==> Stale(Some(t), later)
  {
  }
}
