/** The connection pool as the secondary updates it in place. Each method is one
    task's piece of code and is proved to be the corresponding event of the
    machine; a get, which waits in the middle, is proved to be a run of it. */
module QueuePools {
  import opened Arithmetic
  import opened PoolMachine
  import opened PoolGuarantees
  import opened PoolDelivery

  /** What opening one connection gave: its expiry, or nothing. */
  datatype Attempt = Connected(expireAt: nat) | Refused

  function Successes(attempts: seq<Attempt>): (r: seq<nat>)
    ensures |r| <= |attempts|
  {
    if attempts == [] then []
    else
      var last := |attempts| - 1;
      Successes(attempts[..last]) + if attempts[last].Connected? then [attempts[last].expireAt] else []
  }

  method AnyNat() returns (n: nat) {
    var k: int := *;
    n := if k < 0 then -k else k;
  }

  lemma RunNothing(s: Pool)
    ensures Run(s, []) == s && OwnerEvents([]) == []
  {
  }

  // What the owner of the pool does in a run.
  function OwnerEvents(trace: seq<Event>): seq<Event> {
    if trace == [] then []
    else
      var last := trace[|trace| - 1];
      OwnerEvents(trace[..|trace| - 1]) + if IsEnvironment(last) then [] else [last]
  }

  lemma OwnersEvents(request: nat)
    ensures !IsEnvironment(GetBegin(request)) && !IsEnvironment(GetSelect) && !IsEnvironment(GetFinish)
  {
  }

  lemma OwnerSnoc(trace: seq<Event>, e: Event)
    ensures OwnerEvents(trace + [e]) == OwnerEvents(trace) + if IsEnvironment(e) then [] else [e]
  {
    assert (trace + [e])[..|trace|] == trace;
  }

  /** One get: it begins, selects, hears of every selected connection, and finishes. */
  predicate IsGet(request: nat, events: seq<Event>) {
    && |events| >= 3
    && events[0] == GetBegin(request) && events[1] == GetSelect && events[|events| - 1] == GetFinish
    && forall k :: 2 <= k < |events| - 1 ==> events[k].ProbeDone?
  }

  /** Every connection a get asked was ready. */
  predicate AllReady(events: seq<Event>) {
    forall k :: 0 <= k < |events| && events[k].ProbeDone? ==> events[k].ok
  }

  lemma AllReadySnoc(events: seq<Event>, e: Event)
    requires e.ProbeDone?
    ensures AllReady(events + [e]) <==> AllReady(events) && e.ok
  {
    var all := events + [e];
    assert all[|events|] == e && forall k :: 0 <= k < |events| ==> all[k] == events[k];
  }

  lemma AllReadySplit(a: seq<Event>, b: seq<Event>, c: seq<Event>)
    requires AllReady(a + b + c)
    ensures AllReady(b)
  {
    assert forall k :: 0 <= k < |b| ==> b[k] == (a + b + c)[|a| + k];
  }

  /** What a get did with the queue: it took n connections off it and, if none of them was
      marked and all were ready, handed out exactly those. */
  ghost predicate Served(vec: seq<Connection>, queue: seq<Connection>, n: nat, events: seq<Event>) {
    && n <= |queue| && |vec| <= n
    && (AllUnmarked(queue[..n]) && AllReady(events) ==> |vec| == n && Delivers(vec, queue[..n]))
  }

  lemma ReadyAreServed(queue: seq<Connection>, n: nat, selected: seq<Connection>, ready: seq<Connection>, clock: nat,
                       events: seq<Event>, probes: seq<Event>)
    requires n <= |queue| && |selected| <= n && (AllUnmarked(queue[..n]) ==> selected == queue[..n])
    requires |ready| <= |selected| && (AllReady(probes) ==> multiset(ready) == multiset(selected))
    ensures Served(LendAll(ready, clock), queue, n, events + probes + [GetFinish])
  {
    if AllReady(events + probes + [GetFinish]) {
      AllReadySplit(events, probes, [GetFinish]);
      LendingDelivers(ready, selected, clock);
    }
  }

  lemma AnswerMoves(probing: seq<Connection>, ready: seq<Connection>, i: nat)
    requires i < |probing|
    ensures multiset(probing[..i] + probing[i + 1..]) + multiset(ready + [probing[i]])
            == multiset(probing) + multiset(ready)
  {
    assert probing == probing[..i] + [probing[i]] + probing[i + 1..];
  }

  /** The connections handed out in a run. */
  function LentIn(s: Pool, trace: seq<Event>): seq<Connection> {
    if trace == [] then []
    else
      var n := |trace| - 1;
      var now := Run(s, trace[..n]);
      LentIn(s, trace[..n]) +
        if trace[n].GetFinish? && Possible(now, GetFinish) then LendAll(now.phase.ready, now.tasks.clock) else []
  }

  lemma {:induction false} NothingLent(s: Pool, trace: seq<Event>)
    requires GetFinish !in OwnerEvents(trace)
    ensures LentIn(s, trace) == []
  {
    if trace != [] {
      NothingLent(s, trace[..|trace| - 1]);
    }
  }

  lemma LentByFinish(s: Pool, trace: seq<Event>)
    requires Possible(Run(s, trace), GetFinish) && GetFinish !in OwnerEvents(trace)
    ensures var now := Run(s, trace);
      LentIn(s, trace + [GetFinish]) == LendAll(now.phase.ready, now.tasks.clock)
  {
    NothingLent(s, trace);
    assert (trace + [GetFinish])[..|trace|] == trace;
  }

  lemma {:induction false} LentConcat(s: Pool, a: seq<Event>, b: seq<Event>)
    ensures LentIn(s, a + b) == LentIn(s, a) + LentIn(Run(s, a), b)
    decreases |b|
  {
    hide Run, Next, Possible, LendAll;
    if b == [] {
      assert a + b == a;
    } else {
      var n := |b| - 1;
      assert (a + b)[..|a + b| - 1] == a + b[..n];
      LentConcat(s, a, b[..n]);
      RunConcat(s, a, b[..n]);
    }
  }

  // Nothing that was handed out is dispatched or dropped.
  predicate HoldsOn(events: seq<Event>) {
    forall k :: 0 <= k < |events| ==> !events[k].Drop? && !events[k].SendOff?
  }

  lemma HoldsOnPrefix(a: seq<Event>, b: seq<Event>)
    requires HoldsOn(a + b)
    ensures HoldsOn(a) && HoldsOn(b)
  {
    assert forall k :: 0 <= k < |a| ==> a[k] == (a + b)[k];
    assert forall k :: 0 <= k < |b| ==> b[k] == (a + b)[|a| + k];
  }

  lemma GetHoldsOn(request: nat, events: seq<Event>)
    requires IsGet(request, events)
    ensures HoldsOn(events)
  {
  }

  // What is handed out stays so, and nobody else's connections are given up.
  lemma HeldNext(s: Pool, e: Event)
    requires !e.Drop? && !e.SendOff?
    ensures Gone(Next(s, e)) == Gone(s)
    ensures Next(s, e).tasks.handed == s.tasks.handed +
      if e.GetFinish? && Possible(s, e) then LendAll(s.phase.ready, s.tasks.clock) else []
  {
    hide LendAll;
    if Possible(s, e) { GoneNext(s, e); }
    assert s.tasks.handed + [] == s.tasks.handed;
  }

  lemma {:induction false} HeldRun(s: Pool, trace: seq<Event>)
    requires HoldsOn(OwnerEvents(trace))
    ensures Run(s, trace).tasks.handed == s.tasks.handed + LentIn(s, trace)
    ensures Gone(Run(s, trace)) == Gone(s)
  {
    hide Run, Next, LendAll, Gone, OwnerEvents;
    if trace == [] {
      NothingHeld(s, trace);
    } else {
      var n := |trace| - 1;
      var before, last := trace[..n], trace[n];
      assert trace == before + [last];
      OwnerSnoc(before, last);
      HoldsOnPrefix(OwnerEvents(before), if IsEnvironment(last) then [] else [last]);
      HeldRun(s, before);
      RunSnoc(s, before, last);
      HeldNext(Run(s, before), last);
    }
  }

  lemma NothingHeld(s: Pool, trace: seq<Event>)
    requires trace == []
    ensures Run(s, trace) == s && s.tasks.handed + LentIn(s, trace) == s.tasks.handed
  {
  }

  lemma BusyCoversReturned(s: Pool)
    requires Invariant(s) && s.phase.Resting?
    ensures s.busy >= |s.recyclable|
  {
  }

  lemma FinishStaysCapped(s: Pool)
    requires Invariant(s) && Possible(s, GetFinish)
    ensures !s.elastic && s.phase.ready != [] ==> Next(s, GetFinish).busy <= s.maxConnection
  {
  }

  // What a get has done when it finishes.
  lemma GetEnds(start: Pool, trace: seq<Event>, request: nat)
    requires Invariant(start) && Possible(Run(start, trace), GetFinish) && GetFinish !in OwnerEvents(trace)
    requires IsGet(request, OwnerEvents(trace) + [GetFinish])
    ensures var now, all := Run(start, trace), trace + [GetFinish];
      var t := Next(now, GetFinish);
      && t == Run(start, all) && Invariant(t) && OwnerEvents(all) == OwnerEvents(trace) + [GetFinish]
      && LentIn(start, all) == LendAll(now.phase.ready, now.tasks.clock)
      && t.tasks.handed == start.tasks.handed + LentIn(start, all) && Gone(t) == Gone(start)
      && (!now.elastic && now.phase.ready != [] ==> t.busy <= now.maxConnection)
  {
    hide *;
    OwnersEvents(request);
    InvariantRun(start, trace);
    FinishStaysCapped(Run(start, trace));
    LentByFinish(start, trace);
    RunSnoc(start, trace, GetFinish);
    OwnerSnoc(trace, GetFinish);
    InvariantRun(start, trace + [GetFinish]);
    GetHoldsOn(request, OwnerEvents(trace + [GetFinish]));
    HeldRun(start, trace + [GetFinish]);
  }

  lemma UsableSnoc(queue: seq<Connection>, i: nat)
    requires i < |queue|
    ensures Usable(queue[..i + 1]) == Usable(queue[..i]) + if queue[i].shouldDrop then [] else [queue[i]]
  {
    assert queue[..i + 1][..i] == queue[..i];
  }

  lemma FrontOf(queue: seq<Connection>, i: nat)
    requires i < |queue|
    ensures queue[i..] != [] && queue[i..][0] == queue[i] && queue[i..][1..] == queue[i + 1..]
  {
  }

  class QueuePool {
    const limit: nat
    var maxConnection: nat
    var connections: seq<Connection>
    var recyclable: seq<Connection>
    var newConnections: seq<Connection>
    var busy: int
    var elastic: bool
    var failed: nat
    var metrics: Metrics
    // what the other tasks hold
    var tasks: Tasks
    // the owner's place in a get, and history
    ghost var phase: Phase
    ghost var history: History

    ghost function View(): Pool
      reads this
    {
      Pool(limit, elastic, maxConnection, connections, recyclable, newConnections, busy, failed, metrics,
           phase, tasks, history)
    }

    constructor (maxRequests: nat, elasticPool: bool)
      requires maxRequests >= 1
      ensures View() == Init(ReuseLimit(maxRequests), elasticPool)
      ensures Invariant(View())
    {
      limit := ReuseLimit(maxRequests);
      maxConnection, busy, failed := 0, 0, 0;
      connections, recyclable, newConnections := [], [], [];
      elastic := elasticPool;
      metrics := Metrics(0, 0, 0, 0, 0, 0);
      tasks := Tasks([], [], [], [], [], [], [], 0, [], 0);
      phase := Resting;
      history := History(0, 0, elasticPool);
    }

    // The owner starts an operation: a shrink task still waiting is now late.
    method Overtake()
      modifies this`tasks
      ensures tasks == RetireShrink(old(tasks))
    {
      if tasks.shrink != 0 {
        tasks := tasks.(shrink := 0, lateShrinks := tasks.lateShrinks + [tasks.shrink]);
      }
    }

    // Drop the oldest idle connections beyond the new count.
    method Drain(count: nat)
      modifies this`connections, this`metrics
      ensures connections == Kept(old(connections), count)
      ensures |connections| == Min(count, |old(connections)|)
              && connections == old(connections)[|old(connections)| - |connections|..]
      ensures var drained := |old(connections)| - |connections|;
        metrics == old(metrics).(dropped := old(metrics).dropped + drained,
                                 discarded := old(metrics).discarded + drained)
    {
      var available := |connections|;
      if available > count {
        connections := connections[available - count..];
      }
      var dropped := available - |connections|;
      metrics := metrics.(dropped := metrics.dropped + dropped, discarded := metrics.discarded + dropped);
    }

    // Start what opens or removes connections.
    method SpawnResizer(diff: int)
      modifies this`tasks
      ensures tasks == old(tasks).(opening := Spawn(old(tasks.opening), Max(0, diff)),
                                   shrink := if diff < 0 then -diff else old(tasks.shrink))
    {
      if diff < 0 {
        tasks := tasks.(shrink := -diff);
      } else if diff > 0 {
        AddNewConnection(diff);
      }
    }

    method SetConnectionCount(count: nat)
      requires phase.Resting?
      modifies this`tasks, this`elastic, this`connections, this`metrics, this`maxConnection, this`history
      ensures View() == DoResize(old(View()), count)
    {
      hide RetireShrink, Kept, Spawn;
      Overtake();
      elastic := elastic && count == maxConnection;
      Drain(count);
      var diff: int := count - maxConnection;
      if diff > 0 {
        var active := |newConnections| + busy + |connections|;
        diff := Max(0, count - active);
      }
      maxConnection := count;
      history := history.(peak := Max(history.peak, count));
      SpawnResizer(diff);
      ghost var expected := DoResize(old(View()), count);
      assert connections == expected.connections;
      assert metrics == expected.metrics;
      assert tasks == expected.tasks;
    }

    // Move every connection of a container to the back of the queue.
    method ClaimConnections(container: seq<Connection>) returns (count: nat)
      modifies this`connections
      ensures connections == old(connections) + container
      ensures count == |container|
    {
      count := |container|;
      for i := 0 to |container|
        invariant connections == old(connections) + container[..i]
      {
        connections := connections + [container[i]];
      }
      assert container[..|container|] == container;
    }

    method AddNewConnection(count: nat)
      modifies this`tasks
      ensures tasks == old(tasks).(opening := Spawn(old(tasks.opening), count))
    {
      if count == 0 {
        return;
      }
      tasks := tasks.(opening := tasks.opening + [count]);
    }

    // Drop the idle connections for which there is no room under the target.
    method EnforceSize()
      requires !elastic
      modifies this`connections, this`metrics
      ensures var keep := Min(|old(connections)|, Room(|old(connections)|, busy, maxConnection));
        && connections == old(connections)[..keep]
        && metrics == old(metrics).(dropped := old(metrics).dropped + |old(connections)| - keep,
                                    idle := old(metrics).idle - (|old(connections)| - keep))
    {
      var available := |connections|;
      var diff := available + busy - maxConnection;
      if diff > 0 {
        var keep := Max(0, available - diff);
        if keep < available {
          connections := connections[..keep];
        }
        var change := available - |connections|;
        if change > 0 {
          metrics := metrics.(dropped := metrics.dropped + change, idle := metrics.idle - change);
        }
      }
    }

    // Take up to `request` connections off the queue; the ones marked for dropping are only counted.
    method PopFront(request: nat) returns (probing: seq<Connection>, dropped: nat)
      modifies this`connections
      ensures var taken := Min(request, |old(connections)|);
        && connections == old(connections)[taken..]
        && probing == Usable(old(connections)[..taken])
        && dropped == taken - |probing|
    {
      assert Usable([]) == [];
      hide Usable;
      probing, dropped := [], 0;
      ghost var queue := connections;
      var i := 0;
      while i < request && connections != []
        invariant 0 <= i <= Min(request, |queue|)
        invariant connections == queue[i..]
        invariant probing == Usable(queue[..i]) && dropped == i - |probing|
        decreases request - i
      {
        UsableSnoc(queue, i);
        FrontOf(queue, i);
        var con := connections[0];
        connections := connections[1..];
        if con.shouldDrop {
          dropped := dropped + 1;
        } else {
          probing := probing + [con];
        }
        i := i + 1;
      }
    }

    // ---------- pieces of other tasks ----------

    // First half of `return_connection`: mark the connection and report it idle.
    method BeginReturn(index: nat)
      requires index < |tasks.sending|
      modifies this`tasks, this`metrics
      ensures View() == DoReturnBegin(old(View()), index)
    {
      var connection := tasks.sending[index];
      if connection.expireAt < tasks.clock || connection.remainingReuse <= 1 {
        connection := connection.(shouldDrop := true);
      }
      connection := connection.(remainingReuse := connection.remainingReuse - 1,
                                cameBack := connection.cameBack + [tasks.clock]);
      metrics := metrics.(busy := metrics.busy - 1, idle := metrics.idle + 1);
      tasks := tasks.(sending := Remove(tasks.sending, index), returning := tasks.returning + [connection]);
    }

    // A send task panics over a request, and a connection it held is dropped.
    method LoseOne(index: nat)
      requires index < |tasks.doomed|
      modifies this`tasks
      ensures View() == DoLose(old(View()), index)
    {
      tasks := tasks.(doomed := Remove(tasks.doomed, index), lost := tasks.lost + [tasks.doomed[index]]);
    }

    // Second half: push it once the lock on the return bag is held.
    method PushReturned(index: nat)
      requires index < |tasks.returning|
      modifies this`tasks, this`recyclable
      ensures View() == DoReturnPush(old(View()), index)
    {
      recyclable := recyclable + [tasks.returning[index]];
      tasks := tasks.(returning := Remove(tasks.returning, index));
    }

    // A batch of opens ends, because all attempts finished or no further one did in time.
    method EndBatch(index: nat, attempts: seq<Attempt>)
      requires index < |tasks.opening| && |attempts| <= tasks.opening[index]
      modifies this`tasks, this`failed, this`metrics
      ensures View() == DoOpenReport(old(View()), index, Successes(attempts))
    {
      var count := tasks.opening[index];
      var conn := [];
      for i := 0 to |attempts|
        modifies {}
        invariant conn == Opened(limit, Successes(attempts[..i]))
      {
        assert attempts[..i + 1][..i] == attempts[..i];
        if attempts[i].Connected? {
          conn := conn + [Connection(false, attempts[i].expireAt, limit, 0, 0, [])];
        }
      }
      assert attempts[..|attempts|] == attempts;
      var len := |conn|;
      failed := failed + (count - len);
      metrics := metrics.(success := metrics.success + len, idle := metrics.idle + len);
      tasks := tasks.(opening := Remove(tasks.opening, index), connected := tasks.connected + [conn]);
    }

    // The batch is appended once the lock on the new connections is held.
    method PublishBatch(index: nat)
      requires index < |tasks.connected|
      modifies this`tasks, this`newConnections
      ensures View() == DoOpenPublish(old(View()), index)
    {
      newConnections := newConnections + tasks.connected[index];
      tasks := tasks.(connected := Remove(tasks.connected, index));
    }

    method ResizeContainer(toBeRemoved: nat) returns (removed: nat)
      modifies this`newConnections
      ensures removed == Min(toBeRemoved, |old(newConnections)|)
      ensures newConnections == old(newConnections)[..|old(newConnections)| - removed]
    {
      var len := |newConnections|;
      if len < toBeRemoved {
        newConnections := [];
        removed := len;
      } else {
        newConnections := newConnections[..len - toBeRemoved];
        removed := toBeRemoved;
      }
    }

    method RunShrink()
      modifies this`newConnections, this`metrics, this`tasks
      ensures View() == DoShrink(old(View()))
    {
      var removed := ResizeContainer(tasks.shrink);
      if removed > 0 {
        metrics := metrics.(dropped := metrics.dropped + removed, idle := metrics.idle - removed);
      }
      tasks := tasks.(shrink := 0);
    }

    method RunLateShrink(index: nat)
      requires index < |tasks.lateShrinks|
      modifies this`newConnections, this`metrics, this`tasks, this`history
      ensures View() == DoShrinkLate(old(View()), index)
    {
      var removed := ResizeContainer(tasks.lateShrinks[index]);
      if removed > 0 {
        metrics := metrics.(dropped := metrics.dropped + removed, idle := metrics.idle - removed);
      }
      tasks := tasks.(lateShrinks := Remove(tasks.lateShrinks, index));
      history := history.(lateRemoved := history.lateRemoved + removed);
    }

    // One step of a send task or of a return, or the passing of time.
    method SendTask(kind: nat, index: nat) returns (ghost e: Event)
      modifies this`tasks, this`metrics, this`recyclable
      ensures IsEnvironment(e) && View() == Next(old(View()), e)
    {
      hide DoReturnBegin, DoReturnPush, DoLose;
      if kind == 0 && index < |tasks.sending| {
        BeginReturn(index);
        e := ReturnBegin(index);
      } else if kind == 1 && index < |tasks.returning| {
        PushReturned(index);
        e := ReturnPush(index);
      } else if kind == 2 && index < |tasks.doomed| {
        LoseOne(index);
        e := Lose(index);
      } else {
        tasks := tasks.(clock := Max(tasks.clock, index));
        e := Advance(index);
      }
    }

    // One step of a task that opens or removes connections, or the passing of time.
    method SizeTask(kind: nat, index: nat) returns (ghost e: Event)
      modifies this`tasks, this`metrics, this`newConnections, this`failed, this`history
      ensures IsEnvironment(e) && View() == Next(old(View()), e)
    {
      hide DoOpenReport, DoOpenPublish, DoShrink, DoShrinkLate;
      if kind == 0 && index < |tasks.opening| {
        var attempts: seq<Attempt> := *;
        if |attempts| > tasks.opening[index] {
          attempts := attempts[..tasks.opening[index]];
        }
        EndBatch(index, attempts);
        e := OpenReport(index, Successes(attempts));
      } else if kind == 1 && index < |tasks.connected| {
        PublishBatch(index);
        e := OpenPublish(index);
      } else if kind == 2 && index < |tasks.lateShrinks| {
        RunLateShrink(index);
        e := ShrinkLate(index);
      } else if kind == 3 {
        RunShrink();
        e := Shrink;
      } else {
        tasks := tasks.(clock := Max(tasks.clock, index));
        e := Advance(index);
      }
    }

    // One step of some other task, or the passing of time.
    method OtherTask() returns (ghost e: Event)
      modifies this
      ensures IsEnvironment(e) && View() == Next(old(View()), e)
      ensures unchanged(this`connections, this`busy, this`elastic, this`maxConnection, this`phase)
    {
      hide Next;
      var kind := AnyNat();
      var index := AnyNat();
      var sends: bool := *;
      if sends {
        e := SendTask(kind, index);
      } else {
        e := SizeTask(kind, index);
      }
    }

    // The owner waits: other tasks do any number of steps, in any order.
    method Wait(ghost start: Pool, ghost before: seq<Event>) returns (ghost trace: seq<Event>)
      requires View() == Run(start, before)
      modifies this
      ensures View() == Run(start, trace)
      ensures OwnerEvents(trace) == OwnerEvents(before)
      ensures unchanged(this`connections, this`busy, this`elastic, this`maxConnection, this`phase)
    {
      hide Run, Next, OwnerEvents;
      trace := before;
      var steps := AnyNat();
      for k := 0 to steps
        invariant View() == Run(start, trace)
        invariant OwnerEvents(trace) == OwnerEvents(before)
        invariant unchanged(this`connections, this`busy, this`elastic, this`maxConnection, this`phase)
      {
        ghost var e := OtherTask();
        RunSnoc(start, trace, e);
        OwnerSnoc(trace, e);
        trace := trace + [e];
      }
    }

    // ---------- a get ----------

    // Claim the new connections and settle the size of the queue.
    method Settle(request: nat, returned: nat)
      requires phase == Claimed(request, returned)
      modifies this`connections, this`newConnections, this`busy, this`tasks, this`metrics
      ensures View() == Settled(old(View()))
    {
      var _ := ClaimConnections(newConnections);
      newConnections := [];
      busy := busy - returned;
      if elastic {
        var diff := |connections| - request;
        if diff < 0 {
          AddNewConnection(-diff);
        }
      } else {
        EnforceSize();
      }
      ghost var expected := Settled(old(View()));
      assert connections == expected.connections;
      assert tasks == expected.tasks;
      assert metrics == expected.metrics;
    }

    // The stretch between the second claim and the wait for readiness.
    method Select(request: nat, returned: nat) returns (probing: seq<Connection>, dropped: nat)
      requires phase == Claimed(request, returned)
      modifies this`connections, this`newConnections, this`busy, this`tasks, this`metrics, this`phase
      ensures View() == Next(old(View()), GetSelect)
      ensures phase == Probing(probing, [], dropped, 0) && |probing| <= request
    {
      hide Settled, Usable;
      Settle(request, returned);
      probing, dropped := PopFront(request);
      phase := Probing(probing, [], dropped, 0);
    }

    // The stretch after the last connection reported: refill and hand out.
    method HandOut(ready: seq<Connection>, dropped: nat, broken: nat) returns (vec: seq<Connection>)
      requires phase == Probing([], ready, dropped, broken)
      modifies this`tasks, this`failed, this`busy, this`metrics, this`phase
      ensures View() == Next(old(View()), GetFinish) && phase.Resting?
      ensures vec == LendAll(ready, old(tasks.clock)) && tasks.handed == old(tasks.handed) + vec
    {
      AddNewConnection(broken + dropped + failed);
      failed := 0;
      var len := |ready|;
      busy := busy + len;
      metrics := metrics.(broken := metrics.broken + broken,
                          dropped := metrics.dropped + broken + dropped,
                          busy := metrics.busy + len,
                          idle := metrics.idle - len,
                          discarded := metrics.discarded + broken + dropped);
      vec := LendAll(ready, tasks.clock);
      tasks := tasks.(handed := tasks.handed + vec);
      phase := Resting;
    }

    // There is no request for the connections handed out, and they are dropped.
    method DropHanded()
      requires phase.Resting?
      modifies this`tasks
      ensures View() == Next(old(View()), Drop)
    {
      tasks := tasks.(handed := [], lost := tasks.lost + tasks.handed);
    }

    // A request is dispatched over each of them; `dooms` says which will not be returned.
    method DispatchHanded(dooms: seq<bool>)
      requires phase.Resting? && |dooms| == |tasks.handed|
      modifies this`tasks
      ensures View() == Next(old(View()), SendOff(dooms))
    {
      var returned, doomed: seq<Connection> := [], [];
      var handed := tasks.handed;
      for k := 0 to |handed|
        modifies {}
        invariant returned == Picked(handed[..k], dooms[..k], false)
        invariant doomed == Picked(handed[..k], dooms[..k], true)
      {
        assert handed[..k + 1][..k] == handed[..k] && dooms[..k + 1][..k] == dooms[..k];
        if dooms[k] {
          doomed := doomed + [handed[k]];
        } else {
          returned := returned + [handed[k]];
        }
      }
      assert handed[..|handed|] == handed && dooms[..|dooms|] == dooms;
      tasks := tasks.(handed := [], sending := tasks.sending + returned, doomed := tasks.doomed + doomed);
    }

    // One of the selected connections turns out ready or broken.
    method SettleProbe(probing: seq<Connection>, ready: seq<Connection>, dropped: nat, broken: nat)
      returns (probing': seq<Connection>, ready': seq<Connection>, broken': nat, ghost e: Event)
      requires phase == Probing(probing, ready, dropped, broken) && probing != []
      modifies this`phase
      ensures e.ProbeDone? && View() == Next(old(View()), e)
      ensures phase == Probing(probing', ready', dropped, broken')
      ensures |probing'| == |probing| - 1 && |ready'| <= |ready| + 1
      ensures e.ok ==> multiset(probing') + multiset(ready') == multiset(probing) + multiset(ready)
    {
      var index := AnyNat();
      index := if index < |probing| then index else 0;
      var ok: bool := *;
      ready', broken' := ready, broken;
      if ok {
        ready' := ready + [probing[index]];
      } else {
        broken' := broken + 1;
      }
      probing' := probing[..index] + probing[index + 1..];
      AnswerMoves(probing, ready, index);
      phase := Probing(probing', ready', dropped, broken');
      e := ProbeDone(index, ok);
    }

    // The stretch up to the second claim.
    method Begin(request: nat) returns (returned: nat)
      requires phase.Resting?
      modifies this`tasks, this`connections, this`recyclable, this`phase
      ensures View() == Next(old(View()), GetBegin(request))
      ensures phase == Claimed(request, returned)
      ensures connections == old(connections) + old(recyclable) && returned == |old(recyclable)|
    {
      Overtake();
      returned := ClaimConnections(recyclable);
      recyclable := [];
      phase := Claimed(request, returned);
    }

    // The waits and answers of a get, up to the last connection selected.
    method Probe(ghost start: Pool, ghost before: seq<Event>, selected: seq<Connection>, dropped: nat)
      returns (ready: seq<Connection>, broken: nat, ghost trace: seq<Event>, ghost probes: seq<Event>)
      requires phase == Probing(selected, [], dropped, 0)
      requires View() == Run(start, before)
      modifies this
      ensures phase == Probing([], ready, dropped, broken) && |ready| <= |selected|
      ensures View() == Run(start, trace) && OwnerEvents(trace) == OwnerEvents(before) + probes
      ensures forall k :: 0 <= k < |probes| ==> probes[k].ProbeDone?
      ensures AllReady(probes) ==> multiset(ready) == multiset(selected)
      ensures unchanged(this`elastic, this`maxConnection)
    {
      hide Run, Next, OwnerEvents;
      trace, probes := before, [];
      var probing := selected;
      ready, broken := [], 0;
      while probing != []
        invariant phase == Probing(probing, ready, dropped, broken)
        invariant View() == Run(start, trace) && OwnerEvents(trace) == OwnerEvents(before) + probes
        invariant forall k :: 0 <= k < |probes| ==> probes[k].ProbeDone?
        invariant |probing| + |ready| <= |selected|
        invariant AllReady(probes) ==> multiset(probing) + multiset(ready) == multiset(selected)
        invariant unchanged(this`elastic, this`maxConnection)
        decreases |probing|
      {
        trace := Wait(start, trace);
        ghost var e;
        probing, ready, broken, e := SettleProbe(probing, ready, dropped, broken);
        RunSnoc(start, trace, e);
        OwnerSnoc(trace, e);
        AllReadySnoc(probes, e);
        trace, probes := trace + [e], probes + [e];
      }
    }

    // The part of a get before its waits for selected connections.
    method Prepare(request: nat)
      returns (selected: seq<Connection>, dropped: nat, ghost trace: seq<Event>, ghost queue: seq<Connection>)
      requires phase.Resting? && busy >= |recyclable|
      modifies this
      ensures old(connections) + old(recyclable) <= queue
      ensures var n := Taken(request, |queue|, elastic, old(busy) - |old(recyclable)|, maxConnection);
        n <= |queue| && |selected| <= n && (AllUnmarked(queue[..n]) ==> selected == queue[..n])
      ensures phase == Probing(selected, [], dropped, 0) && |selected| <= request
      ensures View() == Run(old(View()), trace) && OwnerEvents(trace) == [GetBegin(request), GetSelect]
      ensures unchanged(this`elastic, this`maxConnection)
    {
      hide Run, Next, OwnerEvents, IsEnvironment, Usable, Taken, AllUnmarked;
      ghost var start := View();
      RunNothing(start);
      var returned := Begin(request);
      RunSnoc(start, [], GetBegin(request));
      OwnerSnoc([], GetBegin(request));
      assert !IsEnvironment(GetBegin(request)) && !IsEnvironment(GetSelect) by { OwnersEvents(request); }
      trace := Wait(start, [] + [GetBegin(request)]);
      queue := connections + newConnections;
      SelectTakesTheOldest(View());
      selected, dropped := Select(request, returned);
      RunSnoc(start, trace, GetSelect);
      OwnerSnoc(trace, GetSelect);
      trace := trace + [GetSelect];
    }

    // What the abstract state says of the fields.
    ghost method ViewOf()
      ensures View().elastic == elastic && View().maxConnection == maxConnection && View().busy == busy
      ensures View().phase == phase && View().tasks == tasks && View().recyclable == recyclable
    {
    }

    // A get up to its last answer.
    method Choose(request: nat)
      returns (ready: seq<Connection>, dropped: nat, broken: nat, ghost trace: seq<Event>,
               ghost queue: seq<Connection>)
      requires phase.Resting? && busy >= |recyclable|
      modifies this
      ensures phase == Probing([], ready, dropped, broken) && |ready| <= request
      ensures View() == Run(old(View()), trace) && GetFinish !in OwnerEvents(trace)
      ensures IsGet(request, OwnerEvents(trace) + [GetFinish])
      ensures unchanged(this`elastic, this`maxConnection)
      ensures old(connections) + old(recyclable) <= queue
      ensures var n := Taken(request, |queue|, elastic, old(busy) - |old(recyclable)|, maxConnection);
        Served(LendAll(ready, tasks.clock), queue, n, OwnerEvents(trace) + [GetFinish])
    {
      hide Run, Next, OwnerEvents, LendAll, Taken, AllUnmarked, AllReady, Served;
      var selected;
      ghost var probes;
      selected, dropped, trace, queue := Prepare(request);
      ghost var start, owned := old(View()), OwnerEvents(trace);
      ready, broken, trace, probes := Probe(start, trace, selected, dropped);
      ghost var n := Taken(request, |queue|, elastic, old(busy) - |old(recyclable)|, maxConnection);
      ReadyAreServed(queue, n, selected, ready, tasks.clock, owned, probes);
    }

    // A get from its last answer on.
    method Conclude(ghost start: Pool, ghost before: seq<Event>, request: nat, ready: seq<Connection>,
                    dropped: nat, broken: nat)
      returns (vec: seq<Connection>)
      requires phase == Probing([], ready, dropped, broken) && Invariant(start)
      requires View() == Run(start, before) && GetFinish !in OwnerEvents(before)
      requires IsGet(request, OwnerEvents(before) + [GetFinish])
      modifies this`tasks, this`failed, this`busy, this`metrics, this`phase
      ensures var trace := before + [GetFinish];
        && View() == Run(start, trace) && OwnerEvents(trace) == OwnerEvents(before) + [GetFinish]
        && vec == LentIn(start, trace)
      ensures phase.Resting? && Invariant(View())
      ensures vec == LendAll(ready, old(tasks.clock))
      ensures tasks.handed == start.tasks.handed + vec && Gone(View()) == Gone(start)
      ensures !elastic && vec != [] ==> busy <= maxConnection
    {
      assert Possible(View(), GetFinish);
      hide *;
      ViewOf();
      GetEnds(start, before, request);
      vec := HandOut(ready, dropped, broken);
      ViewOf();
    }

    /** Ask for a number of connections. `trace` lists the events of the run, those of
        other tasks included; `queue` is what was waiting when the get took its pick. */
    method GetConnections(request: nat)
      returns (vec: seq<Connection>, ghost trace: seq<Event>, ghost queue: seq<Connection>)
      requires phase.Resting? && Invariant(View())
      modifies this
      ensures phase.Resting? && Invariant(View())
      ensures View() == Run(old(View()), trace) && IsGet(request, OwnerEvents(trace))
      ensures |vec| <= request && vec == LentIn(old(View()), trace)
      ensures tasks.handed == old(tasks.handed) + vec && Gone(View()) == Gone(old(View()))
      ensures !elastic && vec != [] ==> busy <= maxConnection
      ensures elastic == old(elastic) && maxConnection == old(maxConnection)
      ensures old(connections) + old(recyclable) <= queue
      ensures var n := Taken(request, |queue|, elastic, old(busy) - |old(recyclable)|, maxConnection);
        Served(vec, queue, n, OwnerEvents(trace))
    {
      hide *;
      ghost var start := View();
      ViewOf();
      BusyCoversReturned(start);
      var ready, dropped, broken;
      ready, dropped, broken, trace, queue := Choose(request);
      vec := Conclude(start, trace, request, ready, dropped, broken);
      trace := trace + [GetFinish];
    }
  }
}
