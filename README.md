# Lux, modelled in Dafny

Lux is a single-host supervisor written for Node.js. It reads `config.json`, and for
every configured service it builds a record. It forks a child process for each
service whose definition asks for auto-start. It then talks to each child over the
process channel:

- a child announces its dependencies with `connect`;
- the supervisor answers with the service's configuration once every dependency is running;
- the child acknowledges with `connected`, which releases the services that waited for it;
- a periodic health check is meant to ask silent services to stop and kill them later; as written it raises instead (see Findings).

On the child side, a base class keeps a status code and guards its lifecycle
requests. A separate configuration pass (`include/config.js`) validates option
names, loads service modules and defers the registration of services whose
dependencies are not registered yet.

The project models these four pieces and proves what each operation does:

| file | module | models |
|---|---|---|
| `js.dfy` | `Js` | JavaScript values as they arrive from JSON or over the channel; truthiness; property access that raises on `null`/`undefined`; string coercion; the message check both handlers share |
| `data.dfy` | `Data` | `ServiceData` (include/data.js), a class. Everything it does to its child process is appended to an `outbox` of effects |
| `service.dfy` | `Service` | the child-side base class (include/service.js). The refusal table is a pure function; the class records the messages it sends in `sent` |
| `scheduler.dfy` | `Scheduler` | the dependency bookkeeping of include/lux.js as pure functions on the two maps `_serviceQueue` and `_waitingFor`, with its invariant: each counter equals the number of waiter entries naming it |
| `lux.dfy` | `Lux` | the supervisor class (include/lux.js). Its loops are proved to compute the `Scheduler` functions and the registration functions beside them |
| `protocol.dfy` | `Protocol` | the handshake seen from both ends: each message one end builds is read by the other end as the action it names, with the contents it was built with |
| `config.dfy` | `Config` | the configuration pass (include/config.js) as functions on a `Setup` value, and the class `Configuration` proved against them |

Inputs the code gets from the outside are parameters:

- what `require` would load: `defs` in `Lux`, `Resources` in `Config`;
- the time `Date.now()` would give: `now`;
- whether a module passes `instanceof`: a flag in `Config.Module` and `Resources`.

Timers are explicit steps. `Lux.Lux.Healthcheck` is one tick of the interval, and
`Lux.Lux.FireKillTimer` is the expiry of the oldest kill timer.

## Model

| member | source | states |
|---|---|---|
| Js.Get | include/lux.js:67 | reading a property raises exactly on `null` and `undefined` |
| Js.Action | include/lux.js:157-160 | the message check: `null` raises; a non-object or an array is dropped; an object is kept iff its `action` property is a string, and the kept action is that string |
| Data.ServiceData.constructor | include/data.js:29-36 | a new record is dead, has no process, no heartbeat and no dependencies, and keeps name, path, definition and configuration |
| Data.ServiceData.Start | include/data.js:41-47 | from any status: starting (1), a new process handle, and exactly one fork effect |
| Data.ServiceData.Connect | include/data.js:51-60 | one `connect` message carrying `ConnectMessage()` when there is a process; otherwise nothing is sent |
| Data.ServiceData.Connected | include/data.js:64-71 | with a process: running (2) and exactly one `connected` message; without one: status and outbox unchanged |
| Data.ServiceData.Ping | include/data.js:75-81 | one `ping` message when there is a process, nothing otherwise |
| Data.ServiceData.Pong | include/data.js:85-87 | the stored reply time becomes `now` |
| Data.ServiceData.Kill | include/data.js:91-96 | the process is cleared; SIGINT is sent only if there was one, so a second call does nothing; the status is outside the frame |
| Data.ServiceData.StatusGetters | include/data.js:122-145 | for the codes 0..3 exactly one of dead/starting/running/paused holds, and none for any other code |
| Data.AutoStartOf | include/data.js:115-117 | auto-start holds iff `def.autoStart` is truthy and `config.autoStart` is not `false`; it raises exactly when the definition is missing, or when auto-start is asked for and the configuration is missing |
| Data.ServiceData.AutoStart | include/data.js:115-117 | the record's getter: raises exactly when the definition is missing, or when it asks for auto-start and the configuration is missing; otherwise holds iff the definition asks for it and the configuration does not set `autoStart` to `false` |
| Data.ServiceData.Type | include/data.js:157-159 | the definition's `name`, raising exactly when there is no definition (`null` or `undefined`) |
| Data.ServiceData.Description | include/data.js:164-166 | the definition's `description`, raising exactly when there is no definition |
| Data.ServiceData.Version | include/data.js:171-173 | the definition's `version`, raising exactly when there is no definition |
| Data.ServiceData.DeadPing | include/data.js:150-152 | as written: a record that never replied is not dead; one that replied is dead iff the stored reply timestamp itself exceeds 4 * PING, whatever the current time |
| Data.DeadPingIgnoresElapsedTime | include/data.js:150-152 | as written, a reply stored at 5000 makes `deadPing` hold at once, though no time has passed |
| Data.StaleIffSilentTooLong | include/data.js:150-152 | the elapsed-time test: a service is stale iff more than 4 * PING ms have passed since its last reply; one that never replied is not stale; once stale, it stays stale while no reply arrives |
| Service.Answer | include/service.js:29-64 | per request and status: `start` answers `false` iff running (3), `stop` iff dead (0), `pause` iff not running; every other request answers `null`; no other answer occurs |
| Service.StartPauseComplementary | include/service.js:29-64 | in every status exactly one of `start` and `pause` is refused, and `start` and `stop` are never refused together |
| Service.SignalIdentifiesRequest | include/service.js:29-64 | a recorded signal names the refused request (`running`/`stopped`/`notRunning`) and the status it was refused in |
| Service.UnguardedRequests | include/service.js:51-85 | `restart`, `update`, `reload` and `reset` are never refused and answer `null` |
| Service.Service.constructor | include/service.js:22-24 | a new service is starting (1), with no signal, no listener, nothing sent and no configuration |
| Service.Service.StatusGetters | include/service.js:144-174 | for the codes 0..4 exactly one of dead/starting/connecting/running/paused holds, and none for any other code |
| Service.Service.Start | include/service.js:29-35 | answers `false` and records `running` iff running (3); otherwise answers `null` and leaves the signal alone; the status is outside the frame |
| Service.Service.Stop | include/service.js:40-46 | answers `false` and records `stopped` iff dead (0); otherwise `null`, signal untouched |
| Service.Service.Pause | include/service.js:58-64 | answers `false` and records `notRunning` iff not running; otherwise `null`, signal untouched |
| Service.Service.Restart | include/service.js:51-53 | answers `null` and changes nothing |
| Service.Service.Update | include/service.js:69-71 | answers `null` and changes nothing |
| Service.Service.Reload | include/service.js:76-78 | answers `null` and changes nothing |
| Service.Service.Reset | include/service.js:83-85 | answers `null` and changes nothing |
| Service.Service.Dependencies | include/service.js:179-181 | the base class announces no dependencies, so the supervisor answers its `connect` at once (`Protocol.SupervisorReceivesBaseConnect`) |
| Service.Service.Connect | include/service.js:89-95 | the listener is attached, and exactly one `connect` request is sent, carrying the (empty) dependency list |
| Service.Service.Connected | include/service.js:99-103 | exactly one `connected` message is sent |
| Service.Service.Message | include/service.js:109-131 | drops the message iff it is a non-object or has no string action, and then nothing changes; `null` raises. `connect` stores config, def and name and acknowledges. `connected` runs `start`. `ping` raises. Any other action changes nothing |
| Service.Service.Type | include/service.js:186-188 | raises exactly before a definition has been received (`undefined`) or when it is `null` |
| Service.Service.Description | include/service.js:193-195 | raises exactly when the stored definition is `undefined` or `null` |
| Service.Service.Version | include/service.js:200-202 | raises exactly when the stored definition is `undefined` or `null` |
| Scheduler.EmptyInv | include/lux.js:42 | empty maps satisfy the bookkeeping invariant |
| Scheduler.BlockInv | include/lux.js:107-112 | parking one waiter entry keeps the invariant |
| Scheduler.BlocksWaiting | include/lux.js:106-114 | the waiter's counter grows by one per unmet entry, and no other counter changes |
| Scheduler.BlocksQueue | include/lux.js:106-114 | the waiter is appended to the list of each dependency once per unmet entry naming it, counted with multiplicity |
| Scheduler.BlocksQueueKeys | include/lux.js:106-114 | exactly the unmet dependencies gain a waiter list |
| Scheduler.BlocksInv | include/lux.js:106-114 | parking all unmet entries keeps the invariant |
| Scheduler.WaitThrows | include/lux.js:106-107 | the dependency loop raises exactly when some entry names an unregistered service; when it does not raise, it visits every entry |
| Scheduler.WaitBlocks | include/lux.js:106-114 | whether or not it raises, the loop parks the waiter on exactly the non-running entries it reached |
| Scheduler.WaitEffect | include/lux.js:103-121 | the whole effect of `_connectService` on both maps: counter, waiter lists and key sets, and the invariant kept |
| Scheduler.WaitAllRunning | include/lux.js:105-120 | `connect` is reached iff every dependency entry names a running service, and then neither map changes |
| Scheduler.DecrementCounts | include/lux.js:175-180 | each counter goes down by the number of entries naming it, and is deleted exactly when it reaches zero |
| Scheduler.DecrementReleased | include/lux.js:175-180 | a waiter is released exactly when its counter reaches zero, and at most once |
| Scheduler.ConnectedInv | include/lux.js:172-183 | the `connected` step keeps the invariant, removes the waiter list of the sender, and lowers each counter by its entries in that list |
| Scheduler.ConnectedReleases | include/lux.js:172-183 | a waiter is released iff it waited on the sender and on nothing else; each waiter is released once |
| Lux.ServicePath | include/lux.js:73-80 | the configuration's truthy `path`, else `modules/` plus its truthy `name` or the key; a non-string path raises |
| Lux.Register | include/lux.js:81-95 | a registration carries the resolved path, the loaded definition, the entry's configuration and its auto-start flag; an entry is skipped exactly when its definition does not load |
| Lux.RegistryStops | include/lux.js:72-96 | once an entry raises, the later entries change nothing |
| Lux.RegistryThrows | include/lux.js:72-96 | the registration loop raises exactly when some entry raises |
| Lux.RegistryKeys | include/lux.js:72-96 | without a raise, a key is registered iff one of its entries has a definition that loads, and it is registered as one of those entries says |
| Lux.RegisteredAutoStart | include/lux.js:88-94 | a registered record's `autoStart` getter reports the registration's decision: `true` exactly for the records that were forked, `false` exactly for those left dead with nothing sent |
| Lux.TimersFor | include/lux.js:142-147 | one kill timer per stopped service, in order, each capturing the record then registered |
| Lux.Lux.constructor | include/lux.js:33-35 | the configuration is kept; registry, both maps, timers and stop requests start empty; the invariant holds |
| Lux.Lux.RegisterServices | include/lux.js:65-97 | a missing configuration raises, and a services value that does not load exits, both with an empty registry. Otherwise the registry has exactly the keys of the registration plan, each a fresh, distinct record built and started as its registration says |
| Lux.Lux.RegisterEntries | include/lux.js:72-96 | the loop registers exactly the plan's keys with fresh records; it raises iff the plan does |
| Lux.Lux.Enroll | include/lux.js:88-94 | one fresh record under `key`, forked with a listener iff auto-start holds, otherwise dead with no effects |
| Lux.Lux.Start | include/lux.js:39-43 | registration, then one health-check interval and an empty queue when registration completes; neither when it exits or raises |
| Lux.Lux.ConnectService | include/lux.js:103-121 | the bookkeeping becomes `Scheduler.Wait` of the old one. The record sends `connect` iff the loop neither raised nor parked an entry. The invariant is kept |
| Lux.Lux.AwaitDependencies | include/lux.js:105-114 | the `forEach` loop computes `Scheduler.Wait`; `connecting` is true iff it did not raise and found nothing unmet |
| Lux.Lux.Park | include/lux.js:108-112 | the maps become `Scheduler.Block` of the old ones; the invariant is kept |
| Lux.Lux.OnConnect | include/lux.js:166-171 | the dependencies are replaced only by an array; then `_connectService` runs as above |
| Lux.Lux.OnConnected | include/lux.js:172-183 | the sender completes its handshake. The maps become `Scheduler.Connected` of the old ones. Exactly the released waiters send `connect`, and every other record is untouched |
| Lux.Lux.ReleaseQueue | include/lux.js:174-182 | the release loop runs over the sender's waiter list, which is then deleted; a sender nobody waits on changes nothing |
| Lux.Lux.ReleaseWaiters | include/lux.js:175-180 | the counters become `Scheduler.Decrement` of the old ones; exactly the released waiters send `connect` |
| Lux.Lux.CountDown | include/lux.js:175-180 | the decrement loop computes `Scheduler.Decrement`; the released waiters are distinct |
| Lux.Lux.ReleaseOne | include/lux.js:176-179 | one decrement; at zero the waiter is released once and its counter deleted |
| Lux.Lux.StartServices | include/lux.js:177 | each released waiter that is still registered sends `connect`; no other record changes |
| Lux.Lux.StartService | include/lux.js:177 | the registered record of `s` sends `connect`; no other record changes |
| Lux.Lux.OnPing | include/lux.js:184-187 | the reply time is recorded |
| Lux.Lux.HandleConnect | include/lux.js:166-171 | the `connect` case as a whole: dependencies replaced only by an array, bookkeeping moved to `Scheduler.Wait`, the connect message sent back iff nothing raised or was left to wait for, and no other field or record changed |
| Lux.Lux.HandleConnected | include/lux.js:172-183 | the `connected` case as a whole: a sender with a process becomes running and acknowledges, bookkeeping moved to `Scheduler.Connected`, exactly the released waiters send `connect`, and nothing else changes |
| Lux.Lux.HandlePing | include/lux.js:184-187 | the `ping` case as a whole: the sender's reply time becomes `now`, and no other field, record or counter changes |
| Lux.Lux.Message | include/lux.js:156-192 | dropped iff malformed, with no change; `null` raises. An unknown action is handled with no change. A known action from an unregistered name raises. `connect` replaces the sender's dependencies only by an array, moves the bookkeeping to `Scheduler.Wait`, and sends the connect message back iff nothing raised or was left to wait for. `connected` moves the bookkeeping to `Scheduler.Connected`, marks a sender with a process running and acknowledges it, and makes exactly the released waiters send `connect`. Apart from the effects named here, the sender's fields stay as they were. `ping` records the reply time and changes nothing else. Records nothing names are untouched. The invariant is kept |
| Lux.Lux.HealthcheckAsWritten | include/lux.js:136-150 | as written, the tick raises iff some record's `deadPing` holds, and changes nothing |
| Lux.Lux.Healthcheck | include/lux.js:136-150 | with the stop request and the elapsed-time test: exactly the stale services are asked to stop, each once, and each gets one kill timer |
| Lux.Lux.StaleServices | include/lux.js:137-139 | the visit collects exactly the stale registered services, each once |
| Lux.Lux.FireKillTimer | include/lux.js:142-147 | when its key is still registered, the captured record's process is interrupted and cleared and the key leaves the registry; otherwise nothing changes. Only the record's process and outbox can change, so its status, heartbeat and dependencies stay as they were. The invariant is kept |
| Protocol.ConnectMessageCarries | include/data.js:51-60 | the supervisor's `connect` message is read as `connect` and carries the record's configuration, definition and name |
| Protocol.ConnectRequestCarries | include/service.js:89-95 | the service's `connect` request is read as `connect`, and its `dependencies` is the announced list |
| Protocol.SignalsCarry | include/data.js:64-81 | `connected` and `ping` are read as the actions they name |
| Protocol.ServiceReceivesConnect | include/service.js:115-120 | a service receiving a record's `connect` stores exactly that record's configuration, definition and name, and acknowledges with `connected`; afterwards the service's `type`, `description` and `version` agree with the record's (include/data.js:157-173, include/service.js:186-202) |
| Protocol.SupervisorReceivesBaseConnect | include/lux.js:166-171 | the base class announces no dependencies, so its request leaves the bookkeeping unchanged and is answered with `connect` at once |
| Config.ServiceRegexShape | include/config.js:17 | the regex accepts exactly: at least two characters, a lowercase letter first, a letter or digit last, and only letters, digits and dashes |
| Config.InvertedNameTest | include/config.js:98-101 | as written, the well-formed name `irc` is skipped and the malformed `IRC` is let through |
| Config.IntendedAdmitsWellFormed | include/config.js:98-101 | with the intended test, a name is let through iff it has the shape above |
| Config.RegisteredNamesFailRegex | include/config.js:89-126 | as written, the `services` option registers only names the regex refuses |
| Config.MissingDeps | include/config.js:137 | the missing dependencies are exactly the entries naming no registered service, and there are no more of them than entries |
| Config.IndexOf | include/config.js:176 | `indexOf`: the first position of the element, or -1 exactly when it is absent |
| Config.Splice | include/config.js:178 | `splice(i, 0)` leaves the list as it was; `splice(i, 1)` removes exactly the element at `i` |
| Config.ScanAsWrittenKeepsQueue | include/config.js:175-184 | as written, the queue scan leaves every queued entry as it was |
| Config.NeverDrains | include/config.js:175-184 | as written, a queued entry keeps its list whatever is registered after it |
| Config.ScanRemovesOne | include/config.js:178 | with `splice(index, 1)`, the scan removes exactly one occurrence of the new name from each list that has one, and changes nothing else |
| Config.DrainAnyOrder | include/config.js:175-184 | with `splice(index, 1)`, a queued service waits for nothing once every one of its missing dependencies is among the names registered after it, in any order and with other services registered in between |
| Config.IntegrateAccounts | include/config.js:147-173 | each integration name yields one integration or one error. Integrations are made only for registered services whose module passes the check. An unregistered name is reported as missing |
| Config.ValidateConfig | include/config.js:192-194 | the validation stub accepts every configuration |
| Config.CreateFacts | include/config.js:135-185 | a service with unregistered dependencies is queued with exactly those, and nothing else changes. Any other service is registered under its name with its class, definition and configuration. Errors and queue only grow, and queued lists stay non-empty |
| Config.EntryName | include/config.js:93-97 | `val.name \|\| i`: a non-object entry uses the key; a truthy name is used, as its string form; a falsy one gives the key; `null` raises |
| Config.AdmitFacts | include/config.js:93-123 | one entry raises iff it is `null`; otherwise errors and queue only grow, and a newly registered service has a name the regex refuses |
| Config.PassStops | include/config.js:92-124 | once an entry raises, the later entries are not reached |
| Config.PassGrows | include/config.js:92-124 | the services loop only appends errors and queued entries, and registers only names the regex refuses |
| Config.OptionsStops | include/config.js:45-52 | once an option handler raises, the later options are not reached |
| Config.Unneeded | include/config.js:44-52 | the collected options are exactly the keys without a handler |
| Config.OptionsIgnoreUnneeded | include/config.js:45-52 | an option without a handler changes nothing: the loop does the same with those options taken out |
| Config.OptionsGrows | include/config.js:45-52 | the option loop only appends errors |
| Config.ConfigureFacts | include/config.js:33-64 | a failed load adds the load error and one caught exception. The constructor only appends errors and raises only out of the option loop. When options are unneeded, the last error names them all |
| Config.Configuration.constructor | include/config.js:29-32 | no errors, no exceptions, no services, an empty queue, no title and no debug flag |
| Config.Configuration.Load | include/config.js:33-64 | the constructor's load, dispatch and report steps produce exactly `Configure` of the empty state, or raise where it raises; queued lists stay non-empty |
| Config.Configuration.ApplyOption | include/config.js:46-48 | the handler of one handled option does what `OptionStep` says |
| Config.Configuration.TitleOption | include/config.js:71-77 | a string becomes the title with no error; anything else adds exactly the title error |
| Config.Configuration.DebugOption | include/config.js:82-84 | the debug flag becomes the truthiness of the value |
| Config.Configuration.ServicesOption | include/config.js:89-126 | for an object, the registry is emptied and rebuilt entry by entry as `ServicesStep` says; anything else changes nothing |
| Config.Configuration.AdmitAll | include/config.js:92-124 | the `for ... in` loop computes `Pass`, and a raise ends it |
| Config.Configuration.AdmitEntry | include/config.js:93-97 | one entry does what `Admit` says, raising only on `null` |
| Config.Configuration.EnlistEntry | include/config.js:97-110 | the name test, then loading the module, as `Enlist` says; a failed load adds an error and one exception |
| Config.Configuration.InstallModule | include/config.js:111-123 | the superclass and format checks, then `_createService`, as `Install` says |
| Config.Configuration.CreateService | include/config.js:135-146 | `_createService` does what `Create` says |
| Config.Configuration.RegisterService | include/config.js:147-184 | integrations, then the instance, then the queue scan, as `Register` says |
| Config.Configuration.Integrations | include/config.js:147-173 | the `forEach` over the integration names computes `Integrate`: the errors it appends and the integrations it builds |
| Config.Configuration.ScanQueue | include/config.js:175-184 | the `forEach` over the queue computes the as-written `Scan` (`splice(index, 0)`); queued lists stay non-empty |

## Left out

- Process I/O (`child_process.fork`, `process.send`, the message listeners, `kill('SIGINT')`) is modelled as effects appended to a record's `outbox` or a service's `sent`. Children run concurrently in reality; here messages are handled one at a time, in the order the steps are called.
- Timers are modelled as follows:
  - `setInterval` is a counter of the intervals set up.
  - A health-check kill timer is a `KillTimer` value that `FireKillTimer` consumes, oldest first.
  - The delayed ping of the supervisor's `ping` case is bound to the supervisor, which has no process, so it sends nothing and is omitted.
  - The service-side `ping` timer raises before it is set, because the base class has no `ping` method.
- `Date.now()` is the parameter `now`.
- `require` of `config.json`, `main.json`, `main.js` and the integration modules is an input map. A `require` that raises is a missing map entry.
- `path.resolve` is not modelled: paths are kept as the strings the code builds.
- `instanceof Service` and `instanceof Integratable` are boolean inputs.
- `new cls(def, config, integrations)` is an `Instance` value. `new Integ(service.integration)` is an `Integration` value naming the service.
- Logging (`console`, `_debugLog`) is not modelled.
- `process.exit()` is the outcome `Exited`.
- `process.title` is the `title` field of the configuration.
- `_errorsEx` is kept as a count, not as the exception objects.
- `Object.freeze(this._errors)` is left out. The model never writes errors after the constructor.
- Numbers are integers; floating point is not modelled.
- Object keys that name prototype members (`constructor`, `toString`) are treated like any other missing key.
- `_loadConfig` failing ends the process, so `Lux.Lux.constructor` takes the parsed configuration as given.
- `_waitingFor` is never initialised in the source. So the first time a service has to wait, reading `this._waitingFor[name] || 0` (include/lux.js:110) raises. By then `_serviceQueue[d]` has already been created and pushed (include/lux.js:108-109), and the `++` on include/lux.js:111 is never reached. The model starts `_waitingFor` empty, which is what the counting needs.
- Lux.Lux.constructor: the source leaves `_services` and `_serviceQueue` undefined until `start` (include/lux.js:33-42). The model starts them empty. Nothing reads them before `start`.
- `_startService` does not exist in the source. Releasing a waiter is modelled as intended: its record sends `connect` when it is still registered.
- A dependency entry naming an unregistered service makes `this._services[d].running` raise. The model raises there too, and keeps the updates made before that entry.
- Lux.Lux.ReleaseWaiters: the `connect` messages of released waiters are issued after the counting pass, in release order, not interleaved with it. Connecting reads no counter and counting touches no record, so the resulting state is the same.
- Lux.Lux.Start: ensures the invariant only when `_waitingFor` is empty on entry, since `start` resets `_serviceQueue` alone.
- Lux.Lux.Healthcheck: does not state the order of `stopped`. The source visits keys in insertion order; the model visits them in an unspecified order.
- Config.EntryName: a truthy name that is not a string (a number, `true`, an object) is converted to its string form. The source keeps the raw value: it is pushed onto the queue and compared strictly by `el.deps.indexOf(name)` (include/config.js:176). The difference shows only in the corrected scan, since as written `splice(index, 0)` removes nothing anyway.
- Lux.Lux.Message: the supervisor's message structure (`msg.dependencies instanceof Array`) is modelled as a JSON array test.
- Config.Configuration.Load: when an exception escapes the constructor, the object is never built, so the state after a raise is left unspecified.
- Config.Configuration.ScanQueue: the branch taken when a queued list becomes empty (include/config.js:180-183) is not modelled, because `splice(index, 0)` keeps every list non-empty. With the corrected `splice(index, 1)`, `Config.DrainAnyOrder` proves when a list empties, but that fix alone does not give a terminating program. The branch calls `_createService` with the current service's fields, not the queued entry's, so the current service is registered again and the queue is scanned again. The emptied entry is still in the queue, because its `delete` runs only after the call returns. Its list is still empty, so the branch calls `_createService` again, and so on until the stack overflows. The queued service is never registered, and the `delete` is never reached. The model therefore does not model the recursive registration at all.
- The `autoStart` getter of the service base class reads a field nothing assigns, so it is always `undefined`; it is not modelled.
- The `services`, `errors` and `debug` getters of `Configuration` are the fields themselves.
- `include/integration.js` and `include/integratable.js` are constructors that store one reference and are not part of this model. Neither are `index.js` and `main.js`, which only export and bootstrap.

## Findings

| source | as written | input that shows it | evidently intended | confidence | as-written member | corrected member |
|---|---|---|---|---|---|---|
| include/data.js:150-152 | `deadPing` compares the stored reply timestamp itself with 4 * PING | a reply recorded at time 5000: `deadPing` holds at once, though no time has passed | more than 4 * PING ms elapsed since the last reply | high, not executed | Data.DeadPingIgnoresElapsedTime | Data.StaleIffSilentTooLong |
| include/lux.js:140 | the health check calls `service.stop()`, but `ServiceData` has no `stop` method | one registered record with a stale reply: the tick raises a TypeError before any kill timer is set | ask the service to stop, then kill it after 4 * PING | high, not executed | Lux.Lux.HealthcheckAsWritten | Lux.Lux.Healthcheck |
| include/config.js:98 | a name that matches `SERVICE_REGEX` is rejected as invalid | `irc` is skipped; `IRC` is let through | reject names that do not match | high, not executed | Config.InvertedNameTest | Config.IntendedAdmitsWellFormed |
| include/config.js:178 | `el.deps.splice(index, 0)` removes nothing | a service queued for `a`; then `a` is registered, and the entry still waits for `a` | `splice(index, 1)` | high, not executed | Config.NeverDrains | Config.DrainAnyOrder |

`Lux.Lux.Healthcheck` uses the corrected staleness test and the stop request. The
`Configuration` class keeps the as-written name test and scan, because what the
configuration pass does as written is what `Config.RegisteredNamesFailRegex` and
`Config.ScanAsWrittenKeepsQueue` describe. The corrected name test and scan are the
functions `Config.IntendedSkipsName` and `Config.Scan` with count 1. The two proofs
in the corrected column are about those functions.
