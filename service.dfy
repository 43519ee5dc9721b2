/**
 * The service-side base class (include/service.js): the object a child
 * process builds around its module. It keeps a status code, the signal of
 * the last refused lifecycle request and what the supervisor told it in the
 * handshake; everything it sends to the supervisor over `process.send` is
 * appended to `sent`, in order.
 */
module Service {
  import opened Js
  import Data

  /** The lifecycle requests of the base class */
  datatype Verb = Start | Stop | Restart | Pause | Update | Reload | Reset

  /** The signal a request records when the base class refuses it in
      `status`, or `None` when it goes ahead. Only `start` (refused while
      running, code 3), `stop` (refused while dead, code 0) and `pause`
      (refused unless running) have a guard. */
  function Refusal(verb: Verb, status: int): Option<string> {
    match verb
    case Start => if status == 3 then Some("running") else None
    case Stop => if status == 0 then Some("stopped") else None
    case Pause => if status != 3 then Some("notRunning") else None
    case _ => None
  }

  /** What a request returns: `false` when refused, `null` otherwise.
      `start` is refused while running (3), `stop` while dead (0), `pause`
      unless running; the other requests always go ahead. */
  function Answer(verb: Verb, status: int): (r: Value)
    ensures r == Bool(false) || r == Null
    ensures verb == Start ==> (r == Bool(false) <==> status == 3)
    ensures verb == Stop ==> (r == Bool(false) <==> status == 0)
    ensures verb == Pause ==> (r == Bool(false) <==> status != 3)
    ensures verb !in {Start, Stop, Pause} ==> r == Null
  {
    if Refusal(verb, status).Some? then Bool(false) else Null
  }

  /** In every status exactly one of `start` and `pause` is refused, and
      `start` and `stop` are never refused together. */
  lemma StartPauseComplementary(status: int)
    ensures Refusal(Start, status).Some? != Refusal(Pause, status).Some?
    ensures !(Refusal(Start, status).Some? && Refusal(Stop, status).Some?)
  {
  }

  /** A recorded signal names the request that was refused and the status
      class it was refused in. */
  lemma {:induction false} SignalIdentifiesRequest(verb: Verb, status: int, signal: string)
    requires Refusal(verb, status) == Some(signal)
    ensures signal == "running" <==> verb == Start
    ensures signal == "stopped" <==> verb == Stop
    ensures signal == "notRunning" <==> verb == Pause
    ensures verb == Start ==> status == 3
    ensures verb == Stop ==> status == 0
    ensures verb == Pause ==> status != 3
  {
    match verb {
      case Start =>
        assert signal == "running";
      case Stop =>
        assert signal == "stopped";
        assert signal != "running" && signal != "notRunning";
      case Pause =>
        assert signal == "notRunning";
        assert signal != "running" && signal != "stopped";
      case _ =>
        assert false;
    }
  }

  /** `restart`, `update`, `reload` and `reset` have no guard: they answer
      `null` in every status. */
  lemma UnguardedRequests(verb: Verb, status: int)
    requires verb in {Restart, Update, Reload, Reset}
    ensures Refusal(verb, status) == None && Answer(verb, status) == Null
  {
  }

  /** The message `connect()` sends: the action and the dependency list */
  function ConnectRequest(deps: seq<Value>): Value {
    Obj([("action", Str("connect")), ("dependencies", Arr(deps))])
  }

  class Service {
    /** 0 dead, 1 starting, 2 connecting, 3 running, 4 paused */
    var status: int
    /** The signal of the last refused request; `undefined` until one is refused */
    var signalError: Option<string>
    /** What the supervisor's `connect` message carried; `undefined` before it */
    var config: Value
    var def: Value
    var name: Value
    /** Whether `connect()` has attached the message listener to the process */
    var listening: bool
    /** The messages sent to the supervisor, in order */
    var sent: seq<Value>

    /** A new service is starting and has heard nothing from the supervisor */
    constructor ()
      ensures status == 1 && Starting()
      ensures signalError == None && listening == false && sent == []
      ensures config == Undefined && def == Undefined && name == Undefined
    {
      status := 1;
      signalError := None;
      config := Undefined;
      def := Undefined;
      name := Undefined;
      listening := false;
      sent := [];
    }

    predicate Dead() reads `status { status == 0 }
    predicate Starting() reads `status { status == 1 }
    predicate Connecting() reads `status { status == 2 }
    predicate Running() reads `status { status == 3 }
    predicate Paused() reads `status { status == 4 }

    /** For the codes 0 to 4 exactly one status getter holds, and none for any other code */
    lemma StatusGetters()
      ensures 0 <= status <= 4 <==> Dead() || Starting() || Connecting() || Running() || Paused()
      ensures !(Dead() && (Starting() || Connecting() || Running() || Paused()))
      ensures !(Starting() && (Connecting() || Running() || Paused()))
      ensures !(Connecting() && (Running() || Paused())) && !(Running() && Paused())
    {
    }

    /** `start`: refused with the signal `running` while running; the
        status is never touched. */
    method Start() returns (r: Value)
      modifies this`signalError
      ensures r == Answer(Verb.Start, status)
      ensures r == Bool(false) <==> Running()
      ensures signalError == if Running() then Some("running") else old(signalError)
    {
      if Running() {
        signalError := Some("running");
        return Bool(false);
      }
      return Null;
    }

    /** `stop`: refused with the signal `stopped` while dead */
    method Stop() returns (r: Value)
      modifies this`signalError
      ensures r == Answer(Verb.Stop, status)
      ensures r == Bool(false) <==> Dead()
      ensures signalError == if Dead() then Some("stopped") else old(signalError)
    {
      if Dead() {
        signalError := Some("stopped");
        return Bool(false);
      }
      return Null;
    }

    /** `pause`: refused with the signal `notRunning` unless running */
    method Pause() returns (r: Value)
      modifies this`signalError
      ensures r == Answer(Verb.Pause, status)
      ensures r == Bool(false) <==> !Running()
      ensures signalError == if !Running() then Some("notRunning") else old(signalError)
    {
      if !Running() {
        signalError := Some("notRunning");
        return Bool(false);
      }
      return Null;
    }

    /** `restart`, `update`, `reload` and `reset` answer without a guard and change nothing */
    method Restart() returns (r: Value)
      ensures r == Answer(Verb.Restart, status)
    {
      return Null;
    }

    method Update() returns (r: Value)
      ensures r == Answer(Verb.Update, status)
    {
      return Null;
    }

    method Reload() returns (r: Value)
      ensures r == Answer(Verb.Reload, status)
    {
      return Null;
    }

    method Reset() returns (r: Value)
      ensures r == Answer(Verb.Reset, status)
    {
      return Null;
    }

    /** The base class depends on nothing */
    function Dependencies(): (r: seq<Value>)
      ensures |r| == 0
    {
      []
    }

    /** `connect`: attaches the message listener and announces the dependency list */
    method Connect()
      modifies this`listening, this`sent
      ensures listening
      ensures sent == old(sent) + [ConnectRequest(Dependencies())]
    {
      listening := true;
      sent := sent + [ConnectRequest(Dependencies())];
    }

    /** `connected`: acknowledges the configuration */
    method Connected()
      modifies this`sent
      ensures sent == old(sent) + [Data.ConnectedMessage()]
    {
      sent := sent + [Data.ConnectedMessage()];
    }

    /** `_message`: what arrives from the supervisor. A message that is no
        object or has no string action is dropped and `null` raises.
        `connect` stores the configuration, definition and name and
        acknowledges; `connected` asks to start; `ping` raises, since the
        base class has no `ping` method to bind; any other action changes
        nothing. */
    method Message(msg: Value) returns (r: Outcome)
      modifies this`config, this`def, this`name, this`sent, this`signalError
      ensures r == Dropped <==> Action(msg) == Return(None)
      ensures r == Threw <==> Action(msg).Throw? || Action(msg) == Return(Some("ping"))
      ensures r != Handled ==> unchanged(this)
      ensures Action(msg) == Return(Some("connect")) ==>
                && r == Handled
                && config == Lookup(msg.props, "config") && def == Lookup(msg.props, "def")
                && name == Lookup(msg.props, "name")
                && sent == old(sent) + [Data.ConnectedMessage()] && signalError == old(signalError)
      ensures Action(msg) == Return(Some("connected")) ==>
                && r == Handled
                && config == old(config) && def == old(def) && name == old(name) && sent == old(sent)
                && signalError == if Running() then Some("running") else old(signalError)
      ensures Action(msg).Return? && Action(msg).value.Some? && Action(msg).value.value !in {"connect", "connected", "ping"} ==>
                r == Handled && unchanged(this)
    {
      var action := Action(msg);
      if action.Throw? {
        return Threw;
      }
      if action.value.None? {
        return Dropped;
      }
      var a := action.value.value;
      if a == "connect" {
        config := Prop(msg, "config");
        def := Prop(msg, "def");
        name := Prop(msg, "name");
        Connected();
        r := Handled;
      } else if a == "connected" {
        var _ := Start();
        r := Handled;
      } else if a == "ping" {
        r := Threw;
      } else {
        r := Handled;
      }
    }

    /** The type, description and version come from the definition the
        supervisor sent; reading them before `connect` raises. */
    function Type(): (r: Completion<Value>)
      reads `def
      ensures r.Throw? <==> def.Undefined? || def.Null?
    {
      Get(def, "name")
    }

    function Description(): (r: Completion<Value>)
      reads `def
      ensures r.Throw? <==> def.Undefined? || def.Null?
    {
      Get(def, "description")
    }

    function Version(): (r: Completion<Value>)
      reads `def
      ensures r.Throw? <==> def.Undefined? || def.Null?
    {
      Get(def, "version")
    }
  }
}
