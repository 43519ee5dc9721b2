/**
 * The dependency bookkeeping of the Lux controller, on values.
 *
 * `queue` is `_serviceQueue`: for each dependency name, the names of the
 * services waiting on it, one entry per unmet dependency entry. `waiting` is
 * `_waitingFor`: for each waiting service, its count of unmet dependency
 * entries. The class in lux.dfy updates both maps in place with loops that
 * are proved to compute the functions below.
 */
module Scheduler {

  datatype Sched = Sched(queue: map<string, seq<string>>, waiting: map<string, int>)

  /** `_waitingFor[x] || 0` */
  function Count(w: map<string, int>, x: string): int {
    if x in w then w[x] else 0
  }

  /** `_serviceQueue[d] || []` */
  function Waiters(q: map<string, seq<string>>, d: string): seq<string> {
    if d in q then q[d] else []
  }

  function Repeat(x: string, n: nat): (r: seq<string>)
    ensures |r| == n && forall i :: 0 <= i < n ==> r[i] == x
  {
    if n == 0 then [] else [x] + Repeat(x, n - 1)
  }

  // ---------------------------------------------------------------------
  // The invariant: every counter is the number of queue entries naming it
  // ---------------------------------------------------------------------

  /** All waiter entries of the queue, counted with multiplicity */
  ghost function Pending(q: map<string, seq<string>>): multiset<string>
    decreases q.Keys
  {
    if q == map[] then multiset{}
    else
      var k :| k in q;
      multiset(q[k]) + Pending(q - {k})
  }

  lemma {:induction false} PendingRemove(q: map<string, seq<string>>, k: string)
    requires k in q
    ensures Pending(q) == multiset(q[k]) + Pending(q - {k})
    decreases q.Keys
  {
    var k' :| k' in q && Pending(q) == multiset(q[k']) + Pending(q - {k'});
    if k' != k {
      PendingRemove(q - {k'}, k);
      PendingRemove(q - {k}, k');
      assert q - {k'} - {k} == q - {k} - {k'};
    }
  }

  /** Replacing the waiter list of `d` changes the pending entries by exactly that list */
  lemma PendingUpdate(q: map<string, seq<string>>, d: string, v: seq<string>)
    ensures Pending(q[d := v]) + multiset(Waiters(q, d)) == Pending(q) + multiset(v)
  {
    PendingRemove(q[d := v], d);
    assert q[d := v] - {d} == q - {d};
    if d in q {
      PendingRemove(q, d);
    } else {
      assert q - {d} == q;
    }
  }

  /** The scheduler invariant: a counter exists exactly for the services that
      have queue entries, it is positive, and it equals their number. */
  ghost predicate Inv(st: Sched) {
    && (forall x :: Count(st.waiting, x) == Pending(st.queue)[x])
    && (forall x :: x in st.waiting ==> st.waiting[x] > 0)
  }

  lemma EmptyInv()
    ensures Inv(Sched(map[], map[]))
  {
  }

  // ---------------------------------------------------------------------
  // `_connectService`
  // ---------------------------------------------------------------------

  /** Registering `name` as a waiter on the dependency `d`, which is not running */
  function Block(st: Sched, d: string, name: string): Sched {
    Sched(st.queue[d := Waiters(st.queue, d) + [name]],
          st.waiting[name := Count(st.waiting, name) + 1])
  }

  lemma BlockInv(st: Sched, d: string, name: string)
    requires Inv(st)
    ensures Inv(Block(st, d, name))
  {
    var r := Block(st, d, name);
    var v := Waiters(st.queue, d) + [name];
    PendingUpdate(st.queue, d, v);
    assert multiset(v) == multiset(Waiters(st.queue, d)) + multiset{name};
    assert Pending(r.queue) + multiset(Waiters(st.queue, d)) == Pending(st.queue) + multiset(v);
    forall x ensures Count(r.waiting, x) == Pending(r.queue)[x] {
      assert (Pending(r.queue) + multiset(Waiters(st.queue, d)))[x] == (Pending(st.queue) + multiset(v))[x];
      assert multiset(v)[x] == multiset(Waiters(st.queue, d))[x] + (if x == name then 1 else 0);
    }
  }

  /** Registering `name` on each of the dependencies `u` in turn */
  function Blocks(st: Sched, name: string, u: seq<string>): Sched
    decreases |u|
  {
    if u == [] then st else Blocks(Block(st, u[0], name), name, u[1..])
  }

  /** The counter of `name` grows by one per entry of `u`; no other counter changes */
  lemma {:induction false} BlocksWaiting(st: Sched, name: string, u: seq<string>)
    ensures var r := Blocks(st, name, u);
            && Count(r.waiting, name) == Count(st.waiting, name) + |u|
            && (forall x :: x != name ==> Count(r.waiting, x) == Count(st.waiting, x))
            && r.waiting.Keys == st.waiting.Keys + (if u == [] then {} else {name})
    decreases |u|
  {
    if u != [] {
      BlocksWaiting(Block(st, u[0], name), name, u[1..]);
    }
  }

  /** One `Block` appends `name` to the waiter list of `d0` and to no other */
  lemma BlockWaiters(st: Sched, d0: string, name: string, d: string)
    ensures Waiters(Block(st, d0, name).queue, d) == Waiters(st.queue, d) + (if d == d0 then [name] else [])
  {
  }

  lemma MultisetHead(u: seq<string>, d: string)
    requires u != []
    ensures multiset(u)[d] == (if d == u[0] then 1 else 0) + multiset(u[1..])[d]
  {
    assert u == [u[0]] + u[1..];
  }

  lemma KeysHead(u: seq<string>)
    requires u != []
    ensures (set d | d in u) == {u[0]} + set d | d in u[1..]
  {
    assert u == [u[0]] + u[1..];
  }

  /** `BlocksQueue` at the single dependency `d` */
  lemma {:induction false} BlocksQueueAt(st: Sched, name: string, u: seq<string>, d: string)
    ensures Waiters(Blocks(st, name, u).queue, d) == Waiters(st.queue, d) + Repeat(name, multiset(u)[d])
    decreases |u|
  {
    if u != [] {
      var d0 := u[0];
      var st' := Block(st, d0, name);
      BlocksQueueAt(st', name, u[1..], d);
      BlockWaiters(st, d0, name, d);
      MultisetHead(u, d);
      var n' := multiset(u[1..])[d];
      if d == d0 {
        assert Repeat(name, n' + 1) == [name] + Repeat(name, n');
        assert (Waiters(st.queue, d) + [name]) + Repeat(name, n') == Waiters(st.queue, d) + ([name] + Repeat(name, n'));
      }
    }
  }

  /** `name` is appended to the waiter list of each dependency once per entry of `u` */
  lemma BlocksQueue(st: Sched, name: string, u: seq<string>)
    ensures forall d :: Waiters(Blocks(st, name, u).queue, d) == Waiters(st.queue, d) + Repeat(name, multiset(u)[d])
  {
    forall d ensures Waiters(Blocks(st, name, u).queue, d) == Waiters(st.queue, d) + Repeat(name, multiset(u)[d]) {
      BlocksQueueAt(st, name, u, d);
    }
  }

  lemma {:induction false} BlocksQueueKeys(st: Sched, name: string, u: seq<string>)
    ensures Blocks(st, name, u).queue.Keys == st.queue.Keys + set d | d in u
    decreases |u|
  {
    if u != [] {
      BlocksQueueKeys(Block(st, u[0], name), name, u[1..]);
      KeysHead(u);
    }
  }

  lemma {:induction false} BlocksInv(st: Sched, name: string, u: seq<string>)
    requires Inv(st)
    ensures Inv(Blocks(st, name, u))
    decreases |u|
  {
    if u != [] {
      BlockInv(st, u[0], name);
      BlocksInv(Block(st, u[0], name), name, u[1..]);
    }
  }

  datatype WaitResult = WaitResult(sched: Sched, threw: bool)

  /** The `forEach` over a service's dependency entries. `running` maps each
      registered service name to whether it is running; reading `.running` of
      an unregistered name raises, which ends the loop with the entries seen
      so far already recorded. */
  function Wait(st: Sched, name: string, deps: seq<string>, running: map<string, bool>): WaitResult
    decreases |deps|
  {
    if deps == [] then WaitResult(st, false)
    else if deps[0] !in running then WaitResult(st, true)
    else if running[deps[0]] then Wait(st, name, deps[1..], running)
    else Wait(Block(st, deps[0], name), name, deps[1..], running)
  }

  /** The entries the loop reaches before it raises: the longest prefix of registered names */
  function Reached(deps: seq<string>, running: map<string, bool>): (r: seq<string>)
    ensures |r| <= |deps| && r == deps[..|r|]
    ensures forall i :: 0 <= i < |r| ==> r[i] in running
  {
    if deps == [] || deps[0] !in running then [] else [deps[0]] + Reached(deps[1..], running)
  }

  /** The registered entries that are not running, in order and with repetitions */
  function Unmet(ds: seq<string>, running: map<string, bool>): seq<string> {
    if ds == [] then []
    else (if ds[0] in running && !running[ds[0]] then [ds[0]] else []) + Unmet(ds[1..], running)
  }

  lemma {:induction false} UnmetAppend(a: seq<string>, b: seq<string>, running: map<string, bool>)
    ensures Unmet(a + b, running) == Unmet(a, running) + Unmet(b, running)
    decreases |a|
  {
    if a == [] {
      assert a + b == b;
    } else {
      assert (a + b)[0] == a[0];
      assert (a + b)[1..] == a[1..] + b;
      UnmetAppend(a[1..], b, running);
      var h := if a[0] in running && !running[a[0]] then [a[0]] else [];
      assert Unmet(a + b, running) == h + Unmet(a[1..] + b, running);
      assert Unmet(a, running) == h + Unmet(a[1..], running);
    }
  }

  /** One turn of the `forEach` of `_connectService`, at entry `i` */
  lemma WaitTurn(st: Sched, name: string, deps: seq<string>, i: nat, running: map<string, bool>)
    requires i < |deps|
    ensures deps[i] !in running ==> Wait(st, name, deps[i..], running) == WaitResult(st, true)
    ensures deps[i] in running ==>
              Wait(st, name, deps[i..], running)
              == Wait(if running[deps[i]] then st else Block(st, deps[i], name), name, deps[i + 1..], running)
    ensures Unmet(deps[..i + 1], running)
            == Unmet(deps[..i], running) + (if deps[i] in running && !running[deps[i]] then [deps[i]] else [])
  {
    assert deps[i..][1..] == deps[i + 1..];
    assert deps[..i + 1] == deps[..i] + [deps[i]];
    UnmetAppend(deps[..i], [deps[i]], running);
  }

  /** Every dependency entry names a registered, running service */
  predicate AllRunning(deps: seq<string>, running: map<string, bool>) {
    forall i :: 0 <= i < |deps| ==> deps[i] in running && running[deps[i]]
  }

  /** The loop raises exactly when some entry names an unregistered service;
      otherwise it reaches every entry. */
  lemma {:induction false} WaitThrows(st: Sched, name: string, deps: seq<string>, running: map<string, bool>)
    ensures Wait(st, name, deps, running).threw <==> exists i :: 0 <= i < |deps| && deps[i] !in running
    ensures !Wait(st, name, deps, running).threw ==> Reached(deps, running) == deps
    decreases |deps|
  {
    if deps != [] && deps[0] in running {
      var st' := if running[deps[0]] then st else Block(st, deps[0], name);
      WaitThrows(st', name, deps[1..], running);
      if exists i :: 0 <= i < |deps[1..]| && deps[1..][i] !in running {
        var i :| 0 <= i < |deps[1..]| && deps[1..][i] !in running;
        assert deps[i + 1] !in running;
      }
      if exists i :: 0 <= i < |deps| && deps[i] !in running {
        var i :| 0 <= i < |deps| && deps[i] !in running;
        assert i > 0 && deps[1..][i - 1] !in running;
      }
    }
  }

  /** Whether or not it raises, the loop registers `name` on exactly the
      not-running entries it reaches, in order and with repetitions. */
  lemma {:induction false} WaitBlocks(st: Sched, name: string, deps: seq<string>, running: map<string, bool>)
    ensures Wait(st, name, deps, running).sched == Blocks(st, name, Unmet(Reached(deps, running), running))
    decreases |deps|
  {
    if deps != [] && deps[0] in running {
      var d0 := deps[0];
      var st' := if running[d0] then st else Block(st, d0, name);
      WaitBlocks(st', name, deps[1..], running);
      assert Reached(deps, running) == [d0] + Reached(deps[1..], running);
      var u' := Unmet(Reached(deps[1..], running), running);
      assert Unmet(Reached(deps, running), running) == (if running[d0] then [] else [d0]) + u';
      if !running[d0] {
        assert ([d0] + u')[1..] == u';
        assert Blocks(st, name, [d0] + u') == Blocks(Block(st, d0, name), name, u');
        assert Wait(st, name, deps, running) == Wait(Block(st, d0, name), name, deps[1..], running);
      } else {
        assert Unmet(Reached(deps, running), running) == u';
        assert Wait(st, name, deps, running) == Wait(st, name, deps[1..], running);
      }
    }
  }

  /** The effect of `_connectService` on the two maps: the counter of `name`
      grows by the number of not-running entries reached, counted with
      multiplicity; `name` is appended to the waiter list of each such
      dependency once per entry; nothing else changes; the invariant is kept. */
  lemma WaitEffect(st: Sched, name: string, deps: seq<string>, running: map<string, bool>)
    ensures var r := Wait(st, name, deps, running).sched;
            var u := Unmet(Reached(deps, running), running);
            && Count(r.waiting, name) == Count(st.waiting, name) + |u|
            && (forall x :: x != name ==> Count(r.waiting, x) == Count(st.waiting, x))
            && r.waiting.Keys == st.waiting.Keys + (if u == [] then {} else {name})
            && (forall d :: Waiters(r.queue, d) == Waiters(st.queue, d) + Repeat(name, multiset(u)[d]))
            && r.queue.Keys == st.queue.Keys + set d | d in u
            && (Inv(st) ==> Inv(r))
  {
    var u := Unmet(Reached(deps, running), running);
    WaitBlocks(st, name, deps, running);
    BlocksWaiting(st, name, u);
    BlocksQueue(st, name, u);
    BlocksQueueKeys(st, name, u);
    if Inv(st) {
      BlocksInv(st, name, u);
    }
  }

  /** `connect` is reached exactly when every entry names a running service,
      and then neither map changes. */
  lemma {:induction false} WaitAllRunning(st: Sched, name: string, deps: seq<string>, running: map<string, bool>)
    ensures var r := Wait(st, name, deps, running);
            (!r.threw && Unmet(deps, running) == []) <==> AllRunning(deps, running)
    ensures AllRunning(deps, running) ==> Wait(st, name, deps, running) == WaitResult(st, false)
    decreases |deps|
  {
    if deps != [] && deps[0] in running {
      var st' := if running[deps[0]] then st else Block(st, deps[0], name);
      WaitAllRunning(st', name, deps[1..], running);
      WaitThrows(st, name, deps, running);
      assert AllRunning(deps, running) ==> AllRunning(deps[1..], running) by {
        if AllRunning(deps, running) {
          forall i | 0 <= i < |deps[1..]| ensures deps[1..][i] in running && running[deps[1..][i]] {
            assert deps[1..][i] == deps[i + 1];
          }
        }
      }
      if !running[deps[0]] {
        assert Unmet(deps, running) != [];
      }
    }
  }

  // ---------------------------------------------------------------------
  // The release loop run on `connected`
  // ---------------------------------------------------------------------

  /** Every waiter listed in `ws` has a counter at least as large as its
      number of occurrences, so no decrement meets a missing or zero counter. */
  ghost predicate Covers(w: map<string, int>, ws: seq<string>) {
    forall x :: multiset(ws)[x] > 0 ==> x in w && w[x] >= multiset(ws)[x]
  }

  /** One `--_waitingFor[s]`, deleting the counter when it reaches zero */
  function Decremented(w: map<string, int>, s: string): map<string, int>
    requires s in w
  {
    if w[s] == 1 then w - {s} else w[s := w[s] - 1]
  }

  lemma CoversTail(w: map<string, int>, ws: seq<string>)
    requires ws != [] && Covers(w, ws)
    ensures ws[0] in w && Covers(Decremented(w, ws[0]), ws[1..])
  {
    assert ws == [ws[0]] + ws[1..];
    assert multiset(ws) == multiset{ws[0]} + multiset(ws[1..]);
    assert multiset(ws)[ws[0]] > 0;
  }

  datatype Release = Release(waiting: map<string, int>, released: seq<string>)

  /** The `forEach` over the waiters of a service that became running: each
      entry decrements its waiter's counter and the waiter is released when
      the counter reaches zero. */
  function Decrement(w: map<string, int>, ws: seq<string>): Release
    requires Covers(w, ws)
    decreases |ws|
  {
    if ws == [] then Release(w, [])
    else
      CoversTail(w, ws);
      var s := ws[0];
      var rest := Decrement(Decremented(w, s), ws[1..]);
      if w[s] == 1 then Release(rest.waiting, [s] + rest.released) else rest
  }

  /** One turn of the release loop: the first waiter's counter is
      decremented, and the waiter is released when the counter was 1. */
  lemma DecrementStep(w: map<string, int>, ws: seq<string>)
    requires ws != [] && Covers(w, ws)
    ensures ws[0] in w && w[ws[0]] >= 1
    ensures Covers(Decremented(w, ws[0]), ws[1..])
    ensures var rest := Decrement(Decremented(w, ws[0]), ws[1..]);
            && Decrement(w, ws).waiting == rest.waiting
            && Decrement(w, ws).released == (if w[ws[0]] == 1 then [ws[0]] else []) + rest.released
  {
    CoversTail(w, ws);
    assert multiset(ws)[ws[0]] > 0;
  }

  /** Each counter goes down by the number of entries naming it; a counter
      that reaches zero is deleted. */
  lemma {:induction false} DecrementCounts(w: map<string, int>, ws: seq<string>)
    requires Covers(w, ws)
    ensures var r := Decrement(w, ws);
            && (forall x :: Count(r.waiting, x) == Count(w, x) - multiset(ws)[x])
            && (forall x :: x in r.waiting <==> x in w && !(multiset(ws)[x] > 0 && w[x] == multiset(ws)[x]))
    decreases |ws|
  {
    if ws != [] {
      CoversTail(w, ws);
      var s := ws[0];
      var w' := Decremented(w, s);
      DecrementCounts(w', ws[1..]);
      assert ws == [s] + ws[1..];
      assert multiset(ws) == multiset{s} + multiset(ws[1..]);
      var r := Decrement(w, ws);
      assert r.waiting == Decrement(w', ws[1..]).waiting;
      forall x ensures x in r.waiting <==> x in w && !(multiset(ws)[x] > 0 && w[x] == multiset(ws)[x]) {
        if x == s {
          assert multiset(ws)[s] == 1 + multiset(ws[1..])[s];
          assert s in w && w[s] >= multiset(ws)[s];
          if w[s] == 1 {
            assert s !in w';
          } else {
            assert s in w' && w'[s] == w[s] - 1;
          }
        } else {
          assert multiset(ws)[x] == multiset(ws[1..])[x];
        }
      }
    }
  }

  /** A waiter is released exactly when its counter reaches zero, and at most once */
  lemma {:induction false} DecrementReleased(w: map<string, int>, ws: seq<string>)
    requires Covers(w, ws)
    ensures var r := Decrement(w, ws);
            && (forall x :: x in r.released <==> multiset(ws)[x] > 0 && w[x] == multiset(ws)[x])
            && (forall i, j :: 0 <= i < j < |r.released| ==> r.released[i] != r.released[j])
    decreases |ws|
  {
    if ws != [] {
      CoversTail(w, ws);
      var s := ws[0];
      var w' := Decremented(w, s);
      DecrementReleased(w', ws[1..]);
      assert ws == [s] + ws[1..];
      assert multiset(ws) == multiset{s} + multiset(ws[1..]);
      if w[s] == 1 {
        assert multiset(ws[1..])[s] == 0;
        assert s !in Decrement(w', ws[1..]).released;
      }
    }
  }

  /** The state of the release loop: the entries `rest` are still to be
      handled, `rel` has been released so far, and the loop will end with
      the counters and the releases of `total`, which has no repetitions. */
  ghost predicate Releasing(w: map<string, int>, rest: seq<string>, rel: seq<string>, total: Release) {
    && Covers(w, rest)
    && Decrement(w, rest).waiting == total.waiting
    && rel + Decrement(w, rest).released == total.released
    && (forall j, j' :: 0 <= j < j' < |total.released| ==> total.released[j] != total.released[j'])
  }

  /** One turn of the release loop keeps its state, and a waiter it
      releases has not been released before. */
  lemma ReleasingStep(w: map<string, int>, rest: seq<string>, rel: seq<string>, total: Release)
    requires rest != [] && Releasing(w, rest, rel, total)
    ensures rest[0] in w && w[rest[0]] >= 1
    ensures w[rest[0]] == 1 ==> rest[0] !in rel && Releasing(Decremented(w, rest[0]), rest[1..], rel + [rest[0]], total)
    ensures w[rest[0]] != 1 ==> Releasing(Decremented(w, rest[0]), rest[1..], rel, total)
  {
    var s := rest[0];
    DecrementStep(w, rest);
    var tail := Decrement(Decremented(w, s), rest[1..]);
    if w[s] == 1 {
      assert total.released == (rel + [s]) + tail.released;
      DistinctPrefix(rel, s, tail.released);
    }
  }

  /** In a list without repetitions an element does not occur before itself */
  lemma DistinctPrefix(a: seq<string>, x: string, b: seq<string>)
    requires forall i, j :: 0 <= i < j < |a + [x] + b| ==> (a + [x] + b)[i] != (a + [x] + b)[j]
    ensures x !in a
  {
    var s := a + [x] + b;
    forall i | 0 <= i < |a|
      ensures a[i] != x
    {
      assert s[i] == a[i] && s[|a|] == x;
    }
  }

  datatype Step = Step(sched: Sched, released: seq<string>)

  /** What `connected` from `name` does to the maps: the waiters listed under
      `name` are decremented, the ones that reach zero are released, and the
      list of `name` is deleted. A service nobody waits on changes nothing. */
  function Connected(st: Sched, name: string): Step
    requires Inv(st)
  {
    InvCovers(st, name);
    if name in st.queue then
      var r := Decrement(st.waiting, st.queue[name]);
      Step(Sched(st.queue - {name}, r.waiting), r.released)
    else Step(st, [])
  }

  /** The release step keeps the invariant, and it unfolds as the loop runs it */
  lemma ConnectedStep(st: Sched, name: string)
    requires Inv(st)
    ensures Inv(Connected(st, name).sched)
    ensures name in st.queue ==>
              && Covers(st.waiting, st.queue[name])
              && Connected(st, name)
                 == Step(Sched(st.queue - {name}, Decrement(st.waiting, st.queue[name]).waiting),
                         Decrement(st.waiting, st.queue[name]).released)
    ensures name !in st.queue ==> Connected(st, name) == Step(st, [])
  {
    InvCovers(st, name);
    ConnectedInv(st, name);
  }

  /** Under the invariant every waiter list is covered by the counters */
  lemma InvCovers(st: Sched, name: string)
    requires Inv(st)
    ensures Covers(st.waiting, Waiters(st.queue, name))
  {
    if name in st.queue {
      PendingRemove(st.queue, name);
      forall x | multiset(st.queue[name])[x] > 0
        ensures x in st.waiting && st.waiting[x] >= multiset(st.queue[name])[x]
      {
        assert Pending(st.queue)[x] >= multiset(st.queue[name])[x];
      }
    }
  }

  /** The release step keeps the invariant; each counter goes down by the
      number of entries `name` had for it. */
  lemma ConnectedInv(st: Sched, name: string)
    requires Inv(st)
    ensures Covers(st.waiting, Waiters(st.queue, name))
    ensures var r := Connected(st, name);
            && Inv(r.sched)
            && name !in r.sched.queue
            && (forall x :: Count(r.sched.waiting, x) == Count(st.waiting, x) - multiset(Waiters(st.queue, name))[x])
  {
    InvCovers(st, name);
    if name in st.queue {
      PendingRemove(st.queue, name);
      DecrementCounts(st.waiting, st.queue[name]);
      var r := Connected(st, name);
      forall x ensures Count(r.sched.waiting, x) == Pending(r.sched.queue)[x] {
        assert Count(st.waiting, x) == Pending(st.queue)[x];
      }
      forall x | x in r.sched.waiting ensures r.sched.waiting[x] > 0 {
        assert Count(r.sched.waiting, x) == Pending(r.sched.queue)[x];
      }
    }
  }

  /** A waiter is released on `connected` from `name` exactly when `name` was
      the last dependency it was still waiting for, and at most once. */
  lemma ConnectedReleases(st: Sched, name: string)
    requires Inv(st)
    ensures Covers(st.waiting, Waiters(st.queue, name))
    ensures var r := Connected(st, name);
            && (forall x :: x in r.released <==> x in Waiters(st.queue, name) && Pending(st.queue - {name})[x] == 0)
            && (forall i, j :: 0 <= i < j < |r.released| ==> r.released[i] != r.released[j])
  {
    InvCovers(st, name);
    if name in st.queue {
      var ws := st.queue[name];
      PendingRemove(st.queue, name);
      DecrementReleased(st.waiting, ws);
      var r := Connected(st, name);
      forall x ensures x in r.released <==> x in ws && Pending(st.queue - {name})[x] == 0 {
        assert Count(st.waiting, x) == Pending(st.queue)[x];
      }
    }
  }
}
