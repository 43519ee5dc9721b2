/**
 * The configuration pass of include/config.js: `config.json` is read, each
 * top-level option goes to its handler, and the `services` option loads
 * each service module and registers it, or parks it in a queue until its
 * dependencies are registered. The functions below state what each step
 * does to a `Setup`; the class `Configuration` does the same step by step
 * and is proved against them.
 */
module Config {
  import opened Js

  // ---------------------------------------------------------------------
  // SERVICE_REGEX, /^[a-z][a-z0-9-]*[a-z0-9]$/
  // ---------------------------------------------------------------------

  predicate Lower(c: char) { 'a' <= c <= 'z' }
  predicate LowerOrDigit(c: char) { Lower(c) || '0' <= c <= '9' }
  predicate NameChar(c: char) { LowerOrDigit(c) || c == '-' }

  /** The regex, matched as it is built: one letter, then the tail */
  predicate MatchesServiceRegex(s: string) {
    |s| >= 1 && Lower(s[0]) && MatchesTail(s[1..])
  }

  /** `[a-z0-9-]*[a-z0-9]$`: either the star stops and one letter or digit
      ends the string, or the star takes one more character. */
  predicate MatchesTail(s: string)
    decreases |s|
  {
    (|s| == 1 && LowerOrDigit(s[0])) || (|s| > 1 && NameChar(s[0]) && MatchesTail(s[1..]))
  }

  lemma {:induction false} TailShape(s: string)
    ensures MatchesTail(s) <==> |s| >= 1 && LowerOrDigit(s[|s| - 1]) && forall i :: 0 <= i < |s| ==> NameChar(s[i])
    decreases |s|
  {
    if |s| > 1 {
      TailShape(s[1..]);
      assert forall i :: 1 <= i < |s| ==> s[i] == s[1..][i - 1];
    }
  }

  /** The names the regex accepts: at least two characters, a letter
      first, a letter or digit last, and only letters, digits and dashes. */
  lemma ServiceRegexShape(s: string)
    ensures MatchesServiceRegex(s) <==>
              && |s| >= 2 && Lower(s[0]) && LowerOrDigit(s[|s| - 1])
              && forall i :: 0 <= i < |s| ==> NameChar(s[i])
  {
    if |s| >= 1 {
      TailShape(s[1..]);
      assert forall i :: 1 <= i < |s| ==> s[i] == s[1..][i - 1];
    }
  }

  /** The name test of `_servicesOption` as written: a service is skipped
      with "Invalid service name" when its name MATCHES the regex. */
  predicate SkipsName(name: string) {
    MatchesServiceRegex(name)
  }

  /** As written, a well-formed name is skipped and a malformed one is let through. */
  lemma InvertedNameTest()
    ensures SkipsName("irc") && !SkipsName("IRC")
  {
    assert MatchesTail("rc") by { assert MatchesTail("c"); assert "rc"[1..] == "c"; }
    assert "irc"[1..] == "rc";
  }

  /** The test the regex is there for: skip a name the regex refuses */
  predicate IntendedSkipsName(name: string) {
    !MatchesServiceRegex(name)
  }

  /** With the intended test, a service is let through exactly when its
      name has the shape of a service name. */
  lemma IntendedAdmitsWellFormed(name: string)
    ensures !IntendedSkipsName(name) <==>
              && |name| >= 2 && Lower(name[0]) && LowerOrDigit(name[|name| - 1])
              && forall i :: 0 <= i < |name| ==> NameChar(name[i])
  {
    ServiceRegexShape(name);
  }

  // ---------------------------------------------------------------------
  // Data
  // ---------------------------------------------------------------------

  /** What loading a service module gives: the export of `main.js`, whether
      it passes `instanceof Service`, and the parsed `main.json`. */
  datatype Module = Module(cls: Value, isService: bool, def: Value)

  /** What `require` finds: the modules by directory (`<path>/<name>`),
      and the integration modules by file, with whether each passes
      `instanceof Integratable`. A missing entry is a `require` that raises. */
  datatype Resources = Resources(modules: map<string, Module>, integrables: map<string, bool>)

  /** `new Integ(service.integration)`: an integration with a registered service */
  datatype Integration = Integration(service: string)

  /** `new cls(def, config, integrations)` */
  datatype Instance = Instance(cls: Value, def: Value, config: Value, integrations: seq<Integration>)

  /** A service parked until the dependencies in `deps` are registered */
  datatype Queued = Queued(name: string, cls: Value, def: Value, config: Value, deps: seq<Value>)

  /** Everything the pass builds: the error messages, the number of caught
      exceptions, the registered services, the queue, the process title and
      the debug flag (`None` stands for never set). */
  datatype Setup = Setup(
    errors: seq<string>,
    exceptions: nat,
    services: map<string, Instance>,
    queue: seq<Queued>,
    title: Option<string>,
    debug: Option<bool>)

  /** Every queued service still waits for something */
  ghost predicate QueueLive(queue: seq<Queued>) {
    forall i :: 0 <= i < |queue| ==> queue[i].deps != []
  }

  const LoadError := "Configuration could not be loaded. Check if `config.json` file exists and is valid JSON"
  const FormatError := "Configuration has invalid format. Consult the documentation on how to configure Lux"
  const TitleError := "`title` option has to be a string"

  // ---------------------------------------------------------------------
  // Small steps
  // ---------------------------------------------------------------------

  /** `def.dependencies.filter(d => !this._services[d])`: the entries that
      name no registered service, in order */
  function MissingDeps(deps: seq<Value>, services: map<string, Instance>): (r: seq<Value>)
    ensures forall x :: x in r <==> x in deps && ToString(x) !in services
    ensures |r| <= |deps|
    decreases |deps|
  {
    if deps == [] then []
    else (if ToString(deps[0]) !in services then [deps[0]] else []) + MissingDeps(deps[1..], services)
  }

  /** `s.indexOf(x)`: the first position of `x`, or -1 */
  function IndexOf(s: seq<Value>, x: Value): (r: int)
    ensures -1 <= r < |s|
    ensures r == -1 <==> x !in s
    ensures r >= 0 ==> s[r] == x && x !in s[..r]
    decreases |s|
  {
    if s == [] then -1
    else if s[0] == x then 0
    else var k := IndexOf(s[1..], x); if k == -1 then -1 else k + 1
  }

  /** `s.splice(start, count)` with `start` inside `s`: the list without
      the `count` elements from `start` on */
  function Splice(s: seq<Value>, start: nat, count: nat): (r: seq<Value>)
    requires start <= |s|
    ensures count == 0 ==> r == s
    ensures start < |s| && count == 1 ==> r == s[..start] + s[start + 1..] && |r| == |s| - 1
  {
    if start + count <= |s| then s[..start] + s[start + count..] else s[..start]
  }

  /** One queued entry after `name` has been registered: the first
      occurrence of `name` in its list is spliced with `count` */
  function Unlist(q: Queued, name: string, count: nat): Queued {
    var index := IndexOf(q.deps, Str(name));
    if index == -1 then q else q.(deps := Splice(q.deps, index, count))
  }

  /** The `forEach` over the queue after `name` has been registered */
  function Scan(queue: seq<Queued>, name: string, count: nat): (r: seq<Queued>)
    ensures |r| == |queue|
  {
    seq(|queue|, i requires 0 <= i < |queue| => Unlist(queue[i], name, count))
  }

  /** As written, `splice(index, 0)` removes nothing: the scan leaves every
      queued list as it was, so no queued service ever loses a dependency. */
  lemma ScanAsWrittenKeepsQueue(queue: seq<Queued>, name: string)
    ensures Scan(queue, name, 0) == queue
  {
    assert forall i :: 0 <= i < |queue| ==> Unlist(queue[i], name, 0) == queue[i];
  }

  /** `splice(index, 1)`: the scan removes exactly one occurrence of `name`
      from each list that has one and changes nothing else. */
  lemma ScanRemovesOne(queue: seq<Queued>, name: string, i: nat)
    requires i < |queue|
    ensures var q := queue[i];
            var r := Scan(queue, name, 1)[i];
            && r.name == q.name && r.cls == q.cls && r.def == q.def && r.config == q.config
            && (Str(name) in q.deps ==> |r.deps| == |q.deps| - 1 && multiset(r.deps) == multiset(q.deps) - multiset{Str(name)})
            && (Str(name) !in q.deps ==> r == q)
  {
    var q := queue[i];
    var index := IndexOf(q.deps, Str(name));
    if index != -1 {
      assert q.deps == q.deps[..index] + [Str(name)] + q.deps[index + 1..];
    }
  }

  /** The queued entry after the names `names` are registered in order */
  function UnlistAll(q: Queued, names: seq<string>, count: nat): Queued
    decreases |names|
  {
    if names == [] then q else UnlistAll(Unlist(q, names[0], count), names[1..], count)
  }

  function Strs(names: seq<string>): (r: seq<Value>)
    ensures |r| == |names| && forall i :: 0 <= i < |names| ==> r[i] == Str(names[i])
  {
    seq(|names|, i requires 0 <= i < |names| => Str(names[i]))
  }

  /** With `splice(index, 1)`, a service queued for missing dependencies
      waits for nothing once all of them are among the registered names
      `names`, in any order and with other services registered in between. */
  lemma {:induction false} DrainAnyOrder(q: Queued, names: seq<string>)
    requires multiset(q.deps) <= multiset(Strs(names))
    ensures UnlistAll(q, names, 1).deps == []
    decreases |names|
  {
    if names == [] {
      assert |q.deps| == |multiset(q.deps)| == 0;
    } else {
      var n := Str(names[0]);
      var next := Unlist(q, names[0], 1);
      var rest := multiset(Strs(names[1..]));
      assert Strs(names) == [n] + Strs(names[1..]);
      assert multiset(Strs(names)) == multiset{n} + rest;
      ScanRemovesOne([q], names[0], 0);
      assert Scan([q], names[0], 1)[0] == next;
      if n in q.deps {
        assert multiset(next.deps) == multiset(q.deps) - multiset{n};
        assert multiset(next.deps) <= rest by {
          forall x ensures multiset(next.deps)[x] <= rest[x] {
            assert multiset(q.deps)[x] <= multiset{n}[x] + rest[x];
          }
        }
      } else {
        assert next == q;
        assert multiset(q.deps) <= rest by {
          forall x ensures multiset(q.deps)[x] <= rest[x] {
            assert multiset(q.deps)[x] <= multiset{n}[x] + rest[x];
            if x == n { assert multiset(q.deps)[x] == 0; }
          }
        }
      }
      DrainAnyOrder(next, names[1..]);
    }
  }

  /** As written, a queued entry keeps its list whatever is registered after it */
  lemma {:induction false} NeverDrains(q: Queued, names: seq<string>)
    ensures UnlistAll(q, names, 0) == q
    decreases |names|
  {
    if names != [] {
      ScanAsWrittenKeepsQueue([q], names[0]);
      assert Scan([q], names[0], 0)[0] == Unlist(q, names[0], 0);
      NeverDrains(Unlist(q, names[0], 0), names[1..]);
    }
  }

  /** The modules directory: the `path` property of the services object, or the default */
  function ModulesDir(config: Value): string
    requires !config.Null? && !config.Undefined?
  {
    var p := Prop(config, "path");
    if Truthy(p) then ToString(p) else "../modules"
  }

  /** The outcome of `_createService` for one integration name: an
      integration, or one error message */
  datatype Hookup = Hookup(errors: seq<string>, integrations: seq<Integration>)

  function Hook(iname: Value, services: map<string, Instance>, dir: string, integrables: map<string, bool>): Hookup {
    var n := ToString(iname);
    var file := dir + "/" + n + ".js";
    if n !in services then Hookup(["Service " + n + " doesn't exist [integration]"], [])
    else if file !in integrables then Hookup(["Service " + n + " is not integratable"], [])
    else if integrables[file] then Hookup([], [Integration(n)])
    else Hookup(["Integratable has to extend correct superclass"], [])
  }

  /** The `forEach` over `def.integrations`, in order */
  function Integrate(inames: seq<Value>, services: map<string, Instance>, dir: string, integrables: map<string, bool>): Hookup
    decreases |inames|
  {
    if inames == [] then Hookup([], [])
    else
      var h := Integrate(inames[..|inames| - 1], services, dir, integrables);
      var e := Hook(inames[|inames| - 1], services, dir, integrables);
      Hookup(h.errors + e.errors, h.integrations + e.integrations)
  }

  /** Each integration name yields exactly one integration or one error;
      an integration is made only with a registered service whose module
      is integratable, and an unregistered name is reported as such. */
  lemma {:induction false} IntegrateAccounts(inames: seq<Value>, services: map<string, Instance>, dir: string, integrables: map<string, bool>)
    ensures var h := Integrate(inames, services, dir, integrables);
            && |h.errors| + |h.integrations| == |inames|
            && (forall g :: g in h.integrations ==>
                  g.service in services && dir + "/" + g.service + ".js" in integrables
                  && integrables[dir + "/" + g.service + ".js"])
            && (forall i :: 0 <= i < |inames| && ToString(inames[i]) !in services ==>
                  "Service " + ToString(inames[i]) + " doesn't exist [integration]" in h.errors)
    decreases |inames|
  {
    if inames != [] {
      var m := |inames| - 1;
      IntegrateAccounts(inames[..m], services, dir, integrables);
      assert forall i :: 0 <= i < m ==> inames[..m][i] == inames[i];
    }
  }

  /** `_validateConfig`: a stub that accepts every configuration */
  function ValidateConfig(def: Value, config: Value): (r: bool)
    ensures r
  {
    true
  }

  /** `_createService` as written. A service with unregistered dependencies
      is queued with exactly those; otherwise it is registered with its
      integrations and the queue is scanned with `splice(index, 0)`. The
      scan's `!el.deps.length` branch cannot be taken: queued lists are
      never empty and the scan keeps them. */
  function Create(s: Setup, name: string, cls: Value, def: Value, config: Value, integrables: map<string, bool>): Setup
    requires !def.Null? && !def.Undefined? && !config.Null? && !config.Undefined?
  {
    var ds := Prop(def, "dependencies");
    if ds.Arr? && MissingDeps(ds.elems, s.services) != [] then
      s.(queue := s.queue + [Queued(name, cls, def, config, MissingDeps(ds.elems, s.services))])
    else if Truthy(Prop(def, "config")) && !ValidateConfig(Prop(def, "config"), config) then
      s.(errors := s.errors + ["Failed to validate configuration for " + name])
    else Register(s, name, cls, def, config, integrables)
  }

  /** The service is built with its integrations and registered, then the
      queue is scanned */
  function Register(s: Setup, name: string, cls: Value, def: Value, config: Value, integrables: map<string, bool>): Setup
    requires !def.Null? && !def.Undefined? && !config.Null? && !config.Undefined?
  {
    var ins := Prop(def, "integrations");
    var h := if ins.Arr? then Integrate(ins.elems, s.services, ModulesDir(config) + "/integrations", integrables) else Hookup([], []);
    s.(errors := s.errors + h.errors,
       services := s.services[name := Instance(cls, def, config, h.integrations)],
       queue := Scan(s.queue, name, 0))
  }

  /** What `_createService` does: a service waiting for unregistered
      dependencies is queued with exactly those and nothing else changes;
      any other is registered under `name` and the queue is kept. Errors
      and queue only grow, and queued lists stay non-empty. */
  lemma CreateFacts(s: Setup, name: string, cls: Value, def: Value, config: Value, integrables: map<string, bool>)
    requires !def.Null? && !def.Undefined? && !config.Null? && !config.Undefined?
    ensures var r := Create(s, name, cls, def, config, integrables);
            && r.exceptions == s.exceptions && r.title == s.title && r.debug == s.debug
            && s.errors <= r.errors && s.queue <= r.queue
            && (QueueLive(s.queue) ==> QueueLive(r.queue))
            && r.services.Keys <= s.services.Keys + {name}
    ensures var r := Create(s, name, cls, def, config, integrables);
            var ds := Prop(def, "dependencies");
            ds.Arr? && MissingDeps(ds.elems, s.services) != [] ==>
              && r.services == s.services && r.errors == s.errors
              && r.queue == s.queue + [Queued(name, cls, def, config, MissingDeps(ds.elems, s.services))]
    ensures var r := Create(s, name, cls, def, config, integrables);
            var ds := Prop(def, "dependencies");
            !(ds.Arr? && MissingDeps(ds.elems, s.services) != []) ==>
              && r.queue == s.queue && name in r.services
              && r.services == s.services[name := r.services[name]]
              && r.services[name].cls == cls && r.services[name].def == def && r.services[name].config == config
  {
    ScanAsWrittenKeepsQueue(s.queue, name);
  }

  /** `val.name || i`, with a non-object entry read as `{}`; reading the
      name of a `null` entry raises. */
  function EntryName(key: string, val: Value): (r: Completion<string>)
    ensures r.Throw? <==> val.Null?
    ensures !IsObject(val) || val.Arr? ==> r == Return(key)
    ensures val.Obj? && Truthy(Lookup(val.props, "name")) ==> r == Return(ToString(Lookup(val.props, "name")))
    ensures val.Obj? && Lookup(val.props, "name").Str? && Lookup(val.props, "name").s != "" ==>
              r == Return(Lookup(val.props, "name").s)
    ensures val.Obj? && !Truthy(Lookup(val.props, "name")) ==> r == Return(key)
  {
    var v := if !IsObject(val) then Obj([]) else val;
    match Get(v, "name")
    case Throw => Throw
    case Return(n) => Return(if Truthy(n) then ToString(n) else key)
  }

  /** One entry of the services object: the body of the `for ... in` loop
      of `_servicesOption` */
  function Admit(s: Setup, key: string, val: Value, config: Value, res: Resources): Completion<Setup>
    requires !config.Null? && !config.Undefined?
  {
    match EntryName(key, val)
    case Throw => Throw
    case Return(name) => Return(Enlist(s, name, config, res))
  }

  /** The entry named `name`: the name test, then loading its module */
  function Enlist(s: Setup, name: string, config: Value, res: Resources): Setup
    requires !config.Null? && !config.Undefined?
  {
    if SkipsName(name) then s.(errors := s.errors + ["Invalid service name: " + name])
    else
      var dir := ModulesDir(config) + "/" + name;
      if dir !in res.modules then
        s.(errors := s.errors + ["Failed to load resources for " + name], exceptions := s.exceptions + 1)
      else Install(s, name, res.modules[dir], config, res.integrables)
  }

  /** A loaded module: the superclass and format checks, then `_createService` */
  function Install(s: Setup, name: string, m: Module, config: Value, integrables: map<string, bool>): Setup
    requires !config.Null? && !config.Undefined?
  {
    if !(Truthy(m.cls) && Truthy(m.def)) then s
    else if !m.isService then s.(errors := s.errors + [name + " has to inherit the correct superclass"])
    else if !IsObject(m.def) then s.(errors := s.errors + ["Invalid definition format for " + name])
    else Create(s, name, m.cls, m.def, config, integrables)
  }

  /** One entry raises exactly when it is `null`; otherwise errors and
      queue only grow, queued lists stay non-empty, and a newly registered
      service has a name the regex refuses. */
  lemma AdmitFacts(s: Setup, key: string, val: Value, config: Value, res: Resources)
    requires !config.Null? && !config.Undefined?
    ensures Admit(s, key, val, config, res).Throw? <==> val.Null?
    ensures var r := Admit(s, key, val, config, res);
            r.Return? ==>
              && s.errors <= r.value.errors && s.queue <= r.value.queue
              && (QueueLive(s.queue) ==> QueueLive(r.value.queue))
              && forall k :: k in r.value.services && k !in s.services ==> !MatchesServiceRegex(k)
  {
    if EntryName(key, val).Return? {
      var name := EntryName(key, val).value;
      var dir := ModulesDir(config) + "/" + name;
      if !SkipsName(name) && dir in res.modules {
        var m := res.modules[dir];
        if Truthy(m.cls) && Truthy(m.def) && m.isService && IsObject(m.def) {
          CreateFacts(s, name, m.cls, m.def, config, res.integrables);
        }
      }
    }
  }

  /** The `for ... in` loop over the entries of the services object; a raise ends it */
  function Pass(s: Setup, entries: seq<(string, Value)>, config: Value, res: Resources): Completion<Setup>
    requires !config.Null? && !config.Undefined?
    decreases |entries|
  {
    if entries == [] then Return(s)
    else match Pass(s, entries[..|entries| - 1], config, res)
      case Throw => Throw
      case Return(t) => Admit(t, entries[|entries| - 1].0, entries[|entries| - 1].1, config, res)
  }

  /** One turn of the loop, at entry `i` */
  lemma PassTurn(s: Setup, entries: seq<(string, Value)>, config: Value, res: Resources, i: nat)
    requires !config.Null? && !config.Undefined?
    requires i < |entries| && Pass(s, entries[..i], config, res).Return?
    ensures Pass(s, entries[..i + 1], config, res)
            == Admit(Pass(s, entries[..i], config, res).value, entries[i].0, entries[i].1, config, res)
  {
    assert entries[..i + 1][..i] == entries[..i];
  }

  /** Once the loop has raised, the later entries change nothing */
  lemma {:induction false} PassStops(s: Setup, entries: seq<(string, Value)>, config: Value, res: Resources, n: nat)
    requires !config.Null? && !config.Undefined?
    requires n <= |entries| && Pass(s, entries[..n], config, res).Throw?
    ensures Pass(s, entries, config, res).Throw?
    decreases |entries| - n
  {
    if n < |entries| {
      var m := |entries| - 1;
      assert entries[..m][..n] == entries[..n];
      PassStops(s, entries[..m], config, res, n);
    } else {
      assert entries[..n] == entries;
    }
  }

  /** The loop only adds: errors and queue grow at the end, no queued
      service ever leaves the queue, and every service it registers has a
      name the regex refuses. */
  lemma {:induction false} PassGrows(s: Setup, entries: seq<(string, Value)>, config: Value, res: Resources)
    requires !config.Null? && !config.Undefined?
    requires Pass(s, entries, config, res).Return?
    ensures var t := Pass(s, entries, config, res).value;
            && s.errors <= t.errors && s.queue <= t.queue
            && (QueueLive(s.queue) ==> QueueLive(t.queue))
            && forall k :: k in t.services && k !in s.services ==> !MatchesServiceRegex(k)
    decreases |entries|
  {
    if entries != [] {
      var m := |entries| - 1;
      PassGrows(s, entries[..m], config, res);
      AdmitFacts(Pass(s, entries[..m], config, res).value, entries[m].0, entries[m].1, config, res);
    }
  }

  /** `_servicesOption`: for an object, the registry is emptied and rebuilt */
  function ServicesStep(s: Setup, config: Value, res: Resources): Completion<Setup> {
    if !IsObject(config) then Return(s)
    else if config.Null? then Return(s.(services := map[]))
    else Pass(s.(services := map[]), Entries(config), config, res)
  }

  /** As written, the `services` option registers only services whose
      names the regex refuses. */
  lemma RegisteredNamesFailRegex(s: Setup, config: Value, res: Resources)
    requires IsObject(config) && ServicesStep(s, config, res).Return?
    ensures forall k :: k in ServicesStep(s, config, res).value.services ==> !MatchesServiceRegex(k)
  {
    if !config.Null? {
      PassGrows(s.(services := map[]), Entries(config), config, res);
    }
  }

  /** Whether `this['_' + key + 'Option']` is a method */
  predicate HasHandler(key: string) {
    key == "title" || key == "debug" || key == "services"
  }

  /** The handler of one top-level option */
  function OptionStep(s: Setup, key: string, val: Value, res: Resources): Completion<Setup> {
    if key == "title" then Return(if val.Str? then s.(title := Some(val.s)) else s.(errors := s.errors + [TitleError]))
    else if key == "debug" then Return(s.(debug := Some(Truthy(val))))
    else if key == "services" then ServicesStep(s, val, res)
    else Return(s)
  }

  /** The `for ... in` loop over the top-level options; a raise ends it */
  function Options(s: Setup, entries: seq<(string, Value)>, res: Resources): Completion<Setup>
    decreases |entries|
  {
    if entries == [] then Return(s)
    else match Options(s, entries[..|entries| - 1], res)
      case Throw => Throw
      case Return(t) => OptionStep(t, entries[|entries| - 1].0, entries[|entries| - 1].1, res)
  }

  /** One pass of the option loop at entry `i` */
  lemma OptionsTurn(s: Setup, entries: seq<(string, Value)>, res: Resources, i: nat)
    requires i < |entries|
    ensures Options(s, entries[..i + 1], res)
            == match Options(s, entries[..i], res)
               case Throw => Throw
               case Return(t) => OptionStep(t, entries[i].0, entries[i].1, res)
    ensures Unneeded(entries[..i + 1]) == Unneeded(entries[..i]) + (if HasHandler(entries[i].0) then [] else [entries[i].0])
  {
    assert entries[..i + 1][..i] == entries[..i];
  }

  lemma {:induction false} OptionsStops(s: Setup, entries: seq<(string, Value)>, res: Resources, n: nat)
    requires n <= |entries| && Options(s, entries[..n], res).Throw?
    ensures Options(s, entries, res).Throw?
    decreases |entries| - n
  {
    if n < |entries| {
      var m := |entries| - 1;
      assert entries[..m][..n] == entries[..n];
      OptionsStops(s, entries[..m], res, n);
    } else {
      assert entries[..n] == entries;
    }
  }

  /** The option keys without a handler, in order */
  function Unneeded(entries: seq<(string, Value)>): (r: seq<string>)
    ensures forall k :: k in r ==> !HasHandler(k) && exists i :: 0 <= i < |entries| && entries[i].0 == k
    ensures forall i :: 0 <= i < |entries| && !HasHandler(entries[i].0) ==> entries[i].0 in r
    decreases |entries|
  {
    if entries == [] then []
    else
      var m := |entries| - 1;
      assert forall i :: 0 <= i < m ==> entries[..m][i] == entries[i];
      Unneeded(entries[..m]) + (if HasHandler(entries[m].0) then [] else [entries[m].0])
  }

  /** The options with a handler, in order */
  function Handled(entries: seq<(string, Value)>): seq<(string, Value)>
    decreases |entries|
  {
    if entries == [] then []
    else
      var m := |entries| - 1;
      Handled(entries[..m]) + (if HasHandler(entries[m].0) then [entries[m]] else [])
  }

  /** An option without a handler changes nothing: the loop does the same
      with the unneeded options taken out. */
  lemma {:induction false} OptionsIgnoreUnneeded(s: Setup, entries: seq<(string, Value)>, res: Resources)
    ensures Options(s, entries, res) == Options(s, Handled(entries), res)
    decreases |entries|
  {
    if entries != [] {
      var m := |entries| - 1;
      OptionsIgnoreUnneeded(s, entries[..m], res);
      var h := Handled(entries[..m]);
      if HasHandler(entries[m].0) {
        var h' := h + [entries[m]];
        assert h'[..|h'| - 1] == h;
      } else {
        assert Handled(entries) == h;
      }
    }
  }

  function UnneededMessage(opts: seq<string>): string {
    "Options " + Join(opts, ", ") + " are unneeded"
  }

  /** The constructor after its first four lines: load, dispatch, report */
  function Configure(s: Setup, loaded: Option<Value>, res: Resources): Completion<Setup> {
    match loaded
    case None => Return(s.(errors := s.errors + [LoadError], exceptions := s.exceptions + 1))
    case Some(c) =>
      if !Truthy(c) then Return(s)
      else if !IsObject(c) then Return(s.(errors := s.errors + [FormatError]))
      else match Options(s, Entries(c), res)
        case Throw => Throw
        case Return(t) =>
          var opts := Unneeded(Entries(c));
          Return(if opts != [] then t.(errors := t.errors + [UnneededMessage(opts)]) else t)
  }

  /** The option loop only appends errors: no handler takes one back */
  lemma {:induction false} OptionsGrows(s: Setup, entries: seq<(string, Value)>, res: Resources)
    requires Options(s, entries, res).Return?
    ensures s.errors <= Options(s, entries, res).value.errors
    decreases |entries|
  {
    if entries != [] {
      var m := |entries| - 1;
      OptionsGrows(s, entries[..m], res);
      var t := Options(s, entries[..m], res).value;
      var val := entries[m].1;
      if entries[m].0 == "services" && IsObject(val) && !val.Null? {
        PassGrows(t.(services := map[]), Entries(val), val, res);
      }
    }
  }

  /** The constructor keeps every error it finds, in order, and ends with
      one message naming all unneeded options when there are any; it
      raises only out of the option loop. */
  lemma ConfigureFacts(s: Setup, loaded: Option<Value>, res: Resources)
    ensures var r := Configure(s, loaded, res);
            r.Return? ==> s.errors <= r.value.errors
    ensures var r := Configure(s, loaded, res);
            r.Throw? ==> loaded.Some? && IsObject(loaded.value) && Options(s, Entries(loaded.value), res).Throw?
    ensures var r := Configure(s, loaded, res);
            loaded.Some? && Truthy(loaded.value) && IsObject(loaded.value) && r.Return?
            && Unneeded(Entries(loaded.value)) != [] ==>
              r.value.errors[|r.value.errors| - 1] == UnneededMessage(Unneeded(Entries(loaded.value)))
    ensures loaded.None? ==> Configure(s, loaded, res) == Return(s.(errors := s.errors + [LoadError], exceptions := s.exceptions + 1))
  {
    if loaded.Some? && Truthy(loaded.value) && IsObject(loaded.value) && Options(s, Entries(loaded.value), res).Return? {
      OptionsGrows(s, Entries(loaded.value), res);
    }
  }

  // ---------------------------------------------------------------------
  // The class
  // ---------------------------------------------------------------------

  class Configuration {
    /** What `require` finds */
    const resources: Resources
    var errors: seq<string>
    /** How many exceptions `_errorsEx` holds */
    var exceptions: nat
    var services: map<string, Instance>
    var queue: seq<Queued>
    /** `process.title`, once the `title` option has set it */
    var title: Option<string>
    var debug: Option<bool>

    function State(): Setup
      reads this
    {
      Setup(errors, exceptions, services, queue, title, debug)
    }

    ghost predicate Valid()
      reads this`queue
    {
      QueueLive(queue)
    }

    /** The first four lines of the constructor: nothing is known yet */
    constructor (resources: Resources)
      ensures this.resources == resources
      ensures State() == Setup([], 0, map[], [], None, None)
      ensures Valid()
    {
      this.resources := resources;
      errors := [];
      exceptions := 0;
      services := map[];
      queue := [];
      title := None;
      debug := None;
    }

    /** The rest of the constructor, given what `require('../config.json')`
        yields (`None` when it raises). `threw` says that an exception
        escapes, and the object is then never built. */
    method Load(loaded: Option<Value>) returns (threw: bool)
      requires Valid()
      modifies this`errors, this`exceptions, this`services, this`queue, this`title, this`debug
      ensures Valid()
      ensures Configure(old(State()), loaded, resources) == if threw then Throw else Return(State())
    {
      if loaded.None? {
        errors := errors + [LoadError];
        exceptions := exceptions + 1;
        return false;
      }
      var c := loaded.value;
      if !Truthy(c) {
        return false;
      }
      if !IsObject(c) {
        errors := errors + [FormatError];
        return false;
      }
      var entries := Entries(c);
      ghost var s0 := State();
      var opts: seq<string> := [];
      var i := 0;
      while i < |entries|
        invariant 0 <= i <= |entries|
        invariant Valid()
        invariant Options(s0, entries[..i], resources) == Return(State())
        invariant opts == Unneeded(entries[..i])
      {
        var key := entries[i].0;
        OptionsTurn(s0, entries, resources, i);
        if HasHandler(key) {
          threw := ApplyOption(key, entries[i].1);
          if threw {
            OptionsStops(s0, entries, resources, i + 1);
            return true;
          }
        } else {
          opts := opts + [key];
        }
        i := i + 1;
      }
      assert entries[..i] == entries;
      if opts != [] {
        errors := errors + [UnneededMessage(opts)];
      }
      return false;
    }

    /** The dispatch to `_<key>Option` for an option that has a handler */
    method ApplyOption(key: string, val: Value) returns (threw: bool)
      requires Valid() && HasHandler(key)
      modifies this`errors, this`exceptions, this`services, this`queue, this`title, this`debug
      ensures Valid()
      ensures OptionStep(old(State()), key, val, resources) == if threw then Throw else Return(State())
    {
      threw := false;
      if key == "title" {
        TitleOption(val);
      } else if key == "debug" {
        DebugOption(val);
      } else {
        threw := ServicesOption(val);
      }
    }

    /** `_titleOption`: a string becomes the process title, anything else is an error */
    method TitleOption(t: Value)
      modifies this`title, this`errors
      ensures t.Str? ==> title == Some(t.s) && errors == old(errors)
      ensures !t.Str? ==> title == old(title) && errors == old(errors) + [TitleError]
    {
      if t.Str? {
        title := Some(t.s);
      } else {
        errors := errors + [TitleError];
      }
    }

    /** `_debugOption`: `Boolean(debug)` */
    method DebugOption(d: Value)
      modifies this`debug
      ensures debug == Some(Truthy(d))
    {
      debug := Some(Truthy(d));
    }

    /** `_servicesOption`: for an object, the registry is emptied and each
        entry is admitted in order; a raise ends the loop. */
    method ServicesOption(config: Value) returns (threw: bool)
      requires Valid()
      modifies this`errors, this`exceptions, this`services, this`queue
      ensures Valid()
      ensures ServicesStep(old(State()), config, resources) == if threw then Throw else Return(State())
    {
      if !IsObject(config) {
        return false;
      }
      services := map[];
      if config.Null? {
        return false;
      }
      threw := AdmitAll(Entries(config), config);
    }

    /** The `for ... in` loop of `_servicesOption` */
    method AdmitAll(entries: seq<(string, Value)>, config: Value) returns (threw: bool)
      requires Valid() && !config.Null? && !config.Undefined?
      modifies this`errors, this`exceptions, this`services, this`queue
      ensures Valid()
      ensures Pass(old(State()), entries, config, resources) == if threw then Throw else Return(State())
    {
      ghost var s0 := State();
      var i := 0;
      while i < |entries|
        invariant 0 <= i <= |entries|
        invariant Valid()
        invariant Pass(s0, entries[..i], config, resources) == Return(State())
      {
        PassTurn(s0, entries, config, resources, i);
        threw := AdmitEntry(entries[i].0, entries[i].1, config);
        if threw {
          PassStops(s0, entries, config, resources, i + 1);
          return true;
        }
        i := i + 1;
      }
      assert entries[..i] == entries;
      return false;
    }

    /** One entry of the services object: `val.name || i`, then the rest */
    method AdmitEntry(key: string, val: Value, config: Value) returns (threw: bool)
      requires Valid() && !config.Null? && !config.Undefined?
      modifies this`errors, this`exceptions, this`services, this`queue
      ensures Valid()
      ensures Admit(old(State()), key, val, config, resources) == if threw then Throw else Return(State())
    {
      var name := EntryName(key, val);
      if name.Throw? {
        return true;
      }
      EnlistEntry(name.value, config);
      return false;
    }

    /** The inverted name test, then loading the module of `name` */
    method EnlistEntry(name: string, config: Value)
      requires Valid() && !config.Null? && !config.Undefined?
      modifies this`errors, this`exceptions, this`services, this`queue
      ensures Valid()
      ensures State() == Enlist(old(State()), name, config, resources)
    {
      if SkipsName(name) {
        errors := errors + ["Invalid service name: " + name];
        return;
      }
      var dir := ModulesDir(config) + "/" + name;
      if dir !in resources.modules {
        errors := errors + ["Failed to load resources for " + name];
        exceptions := exceptions + 1;
        return;
      }
      InstallModule(name, resources.modules[dir], config);
    }

    /** `if (cls && def)`: the superclass and format checks, then `_createService` */
    method InstallModule(name: string, m: Module, config: Value)
      requires Valid() && !config.Null? && !config.Undefined?
      modifies this`errors, this`services, this`queue
      ensures Valid()
      ensures State() == Install(old(State()), name, m, config, resources.integrables)
    {
      if Truthy(m.cls) && Truthy(m.def) {
        if !m.isService {
          errors := errors + [name + " has to inherit the correct superclass"];
        } else if !IsObject(m.def) {
          errors := errors + ["Invalid definition format for " + name];
        } else {
          CreateService(name, m.cls, m.def, config);
        }
      }
    }

    /** `_createService` */
    method CreateService(name: string, cls: Value, def: Value, config: Value)
      requires Valid() && !def.Null? && !def.Undefined? && !config.Null? && !config.Undefined?
      modifies this`errors, this`services, this`queue
      ensures Valid()
      ensures State() == Create(old(State()), name, cls, def, config, resources.integrables)
    {
      var ds := Prop(def, "dependencies");
      if ds.Arr? {
        var missing := MissingDeps(ds.elems, services);
        if missing != [] {
          queue := queue + [Queued(name, cls, def, config, missing)];
          return;
        }
      }
      var c := Prop(def, "config");
      var rejected := Truthy(c) && !ValidateConfig(c, config);
      if !rejected {
        RegisterService(name, cls, def, config);
      }
      errors := errors + (if rejected then ["Failed to validate configuration for " + name] else []);
    }

    /** The last part of `_createService`: integrations, the instance, the queue scan */
    method RegisterService(name: string, cls: Value, def: Value, config: Value)
      requires Valid() && !def.Null? && !def.Undefined? && !config.Null? && !config.Undefined?
      modifies this`errors, this`services, this`queue
      ensures Valid()
      ensures State() == Register(old(State()), name, cls, def, config, resources.integrables)
    {
      var integrations: seq<Integration> := [];
      var ins := Prop(def, "integrations");
      if ins.Arr? {
        integrations := Integrations(ins.elems, ModulesDir(config) + "/integrations");
      }
      services := services[name := Instance(cls, def, config, integrations)];
      ScanQueue(name);
    }

    /** The `forEach` over `def.integrations` */
    method Integrations(inames: seq<Value>, dir: string) returns (list: seq<Integration>)
      modifies this`errors
      ensures errors == old(errors) + Integrate(inames, services, dir, resources.integrables).errors
      ensures list == Integrate(inames, services, dir, resources.integrables).integrations
    {
      list := [];
      var i := 0;
      while i < |inames|
        invariant 0 <= i <= |inames|
        invariant errors == old(errors) + Integrate(inames[..i], services, dir, resources.integrables).errors
        invariant list == Integrate(inames[..i], services, dir, resources.integrables).integrations
      {
        assert inames[..i + 1][..i] == inames[..i];
        ghost var h := Integrate(inames[..i], services, dir, resources.integrables);
        ghost var e := Hook(inames[i], services, dir, resources.integrables);
        assert Integrate(inames[..i + 1], services, dir, resources.integrables) == Hookup(h.errors + e.errors, h.integrations + e.integrations);
        assert old(errors) + (h.errors + e.errors) == (old(errors) + h.errors) + e.errors;
        var n := ToString(inames[i]);
        var file := dir + "/" + n + ".js";
        if n in services {
          if file !in resources.integrables {
            errors := errors + ["Service " + n + " is not integratable"];
          } else if resources.integrables[file] {
            list := list + [Integration(n)];
          } else {
            errors := errors + ["Integratable has to extend correct superclass"];
          }
        } else {
          errors := errors + ["Service " + n + " doesn't exist [integration]"];
        }
        i := i + 1;
      }
      assert inames[..i] == inames;
    }

    /** The `forEach` over the queue once `name` is registered, as written:
        `splice(index, 0)` keeps every list, so the `!el.deps.length`
        branch, with its recursive `_createService` and `delete`, is never
        taken. */
    method ScanQueue(name: string)
      requires Valid()
      modifies this`queue
      ensures Valid()
      ensures queue == Scan(old(queue), name, 0)
    {
      var i := 0;
      while i < |queue|
        invariant 0 <= i <= |queue| == |old(queue)|
        invariant Valid()
        invariant forall j :: 0 <= j < i ==> queue[j] == Unlist(old(queue)[j], name, 0)
        invariant forall j :: i <= j < |queue| ==> queue[j] == old(queue)[j]
      {
        var el := queue[i];
        var index := IndexOf(el.deps, Str(name));
        if index != -1 {
          el := el.(deps := Splice(el.deps, index, 0));
          queue := queue[i := el];
        }
        if el.deps == [] {
          assert false;
        }
        i := i + 1;
      }
    }
  }
}
