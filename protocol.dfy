/**
 * The handshake between the supervisor (lux.dfy) and a child process
 * (service.dfy), as both ends of the channel see it: every message one end
 * builds is read by the other end's handler as the action it names, with
 * the contents it was built with.
 */
module Protocol {
  import opened Js
  import Data
  import Service
  import Lux
  import Scheduler

  /** The supervisor's `connect` message reaches the service's handler as
      `connect`, carrying the record's configuration, definition and name. */
  lemma ConnectMessageCarries(d: Data.ServiceData)
    ensures var m := d.ConnectMessage();
            && Action(m) == Return(Some("connect"))
            && Lookup(m.props, "config") == d.config
            && Lookup(m.props, "def") == d.def
            && Lookup(m.props, "name") == Str(d.name)
  {
    var c, df, nm := d.config, d.def, Str(d.name);
    var ps := [("action", Str("connect")), ("config", c), ("def", df), ("name", nm)];
    assert d.ConnectMessage().props == ps;
    var p1, p2, p3 := [("config", c), ("def", df), ("name", nm)], [("def", df), ("name", nm)], [("name", nm)];
    assert ps[1..] == p1 && p1[1..] == p2 && p2[1..] == p3;
    assert Lookup(ps, "action") == Str("connect");
    assert Prop(Obj(ps), "action") == Str("connect");
    assert Lookup(ps, "config") == Lookup(p1, "config") == c;
    assert Lookup(ps, "def") == Lookup(p1, "def") == Lookup(p2, "def") == df;
    assert Lookup(ps, "name") == Lookup(p1, "name") == Lookup(p2, "name") == Lookup(p3, "name") == nm;
  }

  /** The service's `connect` request reaches the supervisor's handler as
      `connect`, and its `dependencies` property is the announced list. */
  lemma ConnectRequestCarries(deps: seq<Value>)
    ensures var m := Service.ConnectRequest(deps);
            && Action(m) == Return(Some("connect"))
            && Lookup(m.props, "dependencies") == Arr(deps)
  {
  }

  /** The acknowledgement and the heartbeat probe are read as the actions they name */
  lemma SignalsCarry()
    ensures Action(Data.ConnectedMessage()) == Return(Some("connected"))
    ensures Action(Data.PingMessage()) == Return(Some("ping"))
  {
  }

  /** The child's side of the handshake: the `connect` message of the record
      `d` makes the service store exactly the record's configuration,
      definition and name, and answer with `connected`; from then on both
      ends report the same type, description and version. */
  method ServiceReceivesConnect(d: Data.ServiceData, s: Service.Service)
    modifies s`config, s`def, s`name, s`sent, s`signalError
    ensures s.config == d.config && s.def == d.def && s.name == Str(d.name)
    ensures s.sent == old(s.sent) + [Data.ConnectedMessage()]
    ensures Action(s.sent[|s.sent| - 1]) == Return(Some("connected"))
    ensures s.Type() == d.Type() && s.Description() == d.Description() && s.Version() == d.Version()
  {
    ConnectMessageCarries(d);
    SignalsCarry();
    var r := s.Message(d.ConnectMessage());
  }

  /** The supervisor's side: the base class announces no dependencies, so
      its `connect` request leaves the bookkeeping as it was and is answered
      with the record's `connect` message straight away. */
  method SupervisorReceivesBaseConnect(lux: Lux.Lux, name: string, rec: Data.ServiceData, s: Service.Service)
    requires lux.Valid() && name in lux.services && lux.services[name] == rec
    modifies lux`serviceQueue, lux`waitingFor, rec`dependencies, rec`outbox
    ensures lux.Valid()
    ensures rec.dependencies == []
    ensures lux.Bookkeeping() == old(lux.Bookkeeping())
    ensures rec.outbox == old(rec.outbox) + rec.ConnectSends()
  {
    var m := Service.ConnectRequest(s.Dependencies());
    ConnectRequestCarries(s.Dependencies());
    var threw := lux.OnConnect(name, rec, m);
    assert Lux.Keys(rec.dependencies) == [];
  }
}
