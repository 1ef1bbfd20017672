/** What holds in every reachable state of the connection pool. */
module PoolGuarantees {
  import opened Arithmetic
  import opened PoolMachine

  // ---------- sums ----------

  lemma {:induction false} SumRemove(xs: seq<nat>, i: nat)
    requires i < |xs|
    ensures Sum(Remove(xs, i)) == Sum(xs) - xs[i]
  {
    if i == 0 {
      assert Remove(xs, 0) == xs[1..];
    } else {
      assert Remove(xs, i)[1..] == Remove(xs[1..], i - 1);
      SumRemove(xs[1..], i - 1);
    }
  }

  lemma {:induction false} LengthsAppend(xs: seq<seq<Connection>>, x: seq<Connection>)
    ensures Lengths(xs + [x]) == Lengths(xs) + |x|
  {
    if xs != [] {
      assert (xs + [x])[1..] == xs[1..] + [x];
      LengthsAppend(xs[1..], x);
    }
  }

  lemma {:induction false} LengthsRemove(xs: seq<seq<Connection>>, i: nat)
    requires i < |xs|
    ensures Lengths(Remove(xs, i)) == Lengths(xs) - |xs[i]|
  {
    if i == 0 {
      assert Remove(xs, 0) == xs[1..];
    } else {
      assert Remove(xs, i)[1..] == Remove(xs[1..], i - 1);
      LengthsRemove(xs[1..], i - 1);
    }
  }

  /** Opens in flight: still connecting, or connected and waiting to be added. */
  function InFlight(s: Pool): nat {
    Sum(s.tasks.opening) + Lengths(s.tasks.connected)
  }

  // The opens a resize asks for.
  function Missing(s: Pool, count: nat): nat {
    if count > s.maxConnection
    then Max(0, count - (|s.newConnections| + s.busy + Min(|s.connections|, count))) else 0
  }

  lemma ResizeOpensMissing(s: Pool, count: nat)
    ensures Max(0, ResizeDiff(s, count)) == Missing(s, count)
  {
  }

  // How one event changes the opens in flight.
  lemma InFlightNext(s: Pool, e: Event)
    requires Possible(s, e)
    ensures var t := Next(s, e);
      InFlight(t) - InFlight(s) ==
        match e
        case Resize(count) => Missing(s, count)
        case GetSelect => if s.elastic then Max(0, s.phase.request - |s.connections + s.newConnections|) else 0
        case GetFinish => s.phase.broken + s.phase.dropped + s.failed
        case OpenReport(i, expiries) => |expiries| - s.tasks.opening[i]
        case OpenPublish(i) => -|s.tasks.connected[i]|
        case _ => 0
  {
    hide LendAll, Usable, Returned, Kept, ResizeDiff, Missing;
    match e
    case Resize(count) =>
      ResizeOpensMissing(s, count);
      SumAppend(s.tasks.opening, Max(0, ResizeDiff(s, count)));
    case GetSelect =>
      SumAppend(s.tasks.opening, Max(0, s.phase.request - |s.connections + s.newConnections|));
    case GetFinish =>
      SumAppend(s.tasks.opening, s.phase.broken + s.phase.dropped + s.failed);
    case OpenReport(i, expiries) =>
      SumRemove(s.tasks.opening, i);
      LengthsAppend(s.tasks.connected, Opened(s.limit, expiries));
    case OpenPublish(i) =>
      LengthsRemove(s.tasks.connected, i);
    case _ =>
  }

  // ---------- busy accounting ----------

  function ClaimedBack(s: Pool): nat {
    if s.phase.Claimed? then s.phase.returned else 0
  }

  /** The connections lent out. */
  function Lent(s: Pool): nat {
    |s.tasks.handed| + |s.tasks.sending| + |s.tasks.doomed|
  }

  lemma {:induction false} PickedLengths(cs: seq<Connection>, flags: seq<bool>)
    requires |cs| == |flags|
    ensures |Picked(cs, flags, false)| + |Picked(cs, flags, true)| == |cs|
  {
    if cs != [] { PickedLengths(cs[..|cs| - 1], flags[..|cs| - 1]); }
  }

  /** The busy counter is the connections lent out, also those lost since, plus those on
      their way back. */
  predicate Accounted(s: Pool) {
    s.busy == Lent(s) + |s.tasks.lost| + |s.tasks.returning| + |s.recyclable| + ClaimedBack(s)
  }

  lemma AccountedNext(s: Pool, e: Event)
    requires Accounted(s)
    ensures Accounted(Next(s, e))
  {
    if e.SendOff? && Possible(s, e) { PickedLengths(s.tasks.handed, e.dooms); }
  }

  // ---------- no slot is lost ----------

  // Connections a get has taken out of the queue and not yet handed out or replaced.
  function Selected(s: Pool): nat {
    if s.phase.Probing? then |s.phase.probing| + |s.phase.ready| + s.phase.dropped + s.phase.broken else 0
  }

  /** Idle, new, busy and selected connections, opens in flight and failures yet
      to be retried. Connections just claimed back are still counted as busy, so
      they are taken out once. */
  function Slots(s: Pool): int {
    |s.connections| + |s.newConnections| + (s.busy - ClaimedBack(s)) + Selected(s) + InFlight(s) + s.failed
  }

  predicate SlotsKept(s: Pool) {
    && s.busy >= ClaimedBack(s)
    && (s.elastic ==> s.maxConnection == 0)
    && Slots(s) + s.history.lateRemoved >= s.maxConnection
    && (s.tasks.shrink == 0 || |s.connections| >= s.maxConnection
        || Slots(s) + s.history.lateRemoved >= s.maxConnection + s.tasks.shrink)
    && (s.tasks.shrink > 0 ==> s.phase.Resting?)
  }

  lemma OwnerKeepsSlots(s: Pool, e: Event)
    requires SlotsKept(s) && Accounted(s) && Possible(s, e) && !IsEnvironment(e)
    ensures SlotsKept(Next(s, e))
  {
    hide InFlight, LendAll, DoLose, DoReturnBegin, DoReturnPush, DoOpenReport, DoOpenPublish, DoShrink, DoShrinkLate;
    InFlightNext(s, e);
  }

  lemma TasksKeepSlots(s: Pool, e: Event)
    requires SlotsKept(s) && Accounted(s) && Possible(s, e) && IsEnvironment(e)
    ensures SlotsKept(Next(s, e))
  {
    hide InFlight, Opened, Returned, DoResize, DoGetBegin, DoGetSelect, DoProbeDone, DoGetFinish, DoDrop, DoSendOff;
    InFlightNext(s, e);
  }

  lemma SlotsKeptNext(s: Pool, e: Event)
    requires SlotsKept(s) && Accounted(s)
    ensures SlotsKept(Next(s, e))
  {
    hide SlotsKept, Accounted;
    if Possible(s, e) {
      if IsEnvironment(e) { TasksKeepSlots(s, e); } else { OwnerKeepsSlots(s, e); }
    }
  }

  // ---------- size cap ----------

  /** A non-elastic get never selects more than the room left under the target,
      and a pool that was never elastic stays under the highest target it had. */
  predicate Capped(s: Pool) {
    && s.maxConnection <= s.history.peak
    && (s.elastic <==> s.history.everElastic && s.history.peak == 0)
    && (!s.history.everElastic ==> s.busy <= s.history.peak)
    && (!s.elastic && s.phase.Probing? && |s.phase.probing| + |s.phase.ready| > 0
        ==> s.busy + |s.phase.probing| + |s.phase.ready| <= s.maxConnection)
  }

  lemma CappedNext(s: Pool, e: Event)
    requires Capped(s)
    ensures Capped(Next(s, e))
  {
  }

  // ---------- keep-alive ----------

  /** The connection came back after its expiry. */
  predicate CameBackLate(c: Connection) {
    exists k :: 0 <= k < |c.cameBack| && c.expireAt < c.cameBack[k]
  }

  /** A connection in the pool has come back from every lend, and is marked for dropping
      if and only if it has been lent as often as allowed or came back late. */
  predicate IdleOk(c: Connection, limit: nat) {
    && c.lends <= limit && |c.cameBack| == c.lends
    && c.lateLends <= 1
    && c.remainingReuse == limit - c.lends
    && (c.shouldDrop <==> c.lends == limit || CameBackLate(c))
    && (c.lateLends == 1 ==> CameBackLate(c))
  }

  predicate LentOk(c: Connection, limit: nat, clock: nat) {
    && 1 <= c.lends <= limit && |c.cameBack| == c.lends - 1
    && c.lateLends <= 1
    && c.remainingReuse == limit - c.lends + 1
    && !c.shouldDrop && !CameBackLate(c)
    && (c.lateLends == 1 ==> c.expireAt < clock)
  }

  predicate AllIdleOk(cs: seq<Connection>, limit: nat) {
    forall c :: c in cs ==> IdleOk(c, limit)
  }

  predicate AllUsable(cs: seq<Connection>, limit: nat) {
    forall c :: c in cs ==> IdleOk(c, limit) && !c.shouldDrop
  }

  predicate AllLentOk(cs: seq<Connection>, limit: nat, clock: nat) {
    forall c :: c in cs ==> LentOk(c, limit, clock)
  }

  predicate KeptAlive(s: Pool) {
    && s.limit >= 1
    && AllIdleOk(s.connections, s.limit)
    && AllIdleOk(s.recyclable, s.limit)
    && AllIdleOk(s.newConnections, s.limit)
    && AllIdleOk(s.tasks.returning, s.limit)
    && (forall b :: b in s.tasks.connected ==> AllIdleOk(b, s.limit))
    && (s.phase.Probing? ==> AllUsable(s.phase.probing, s.limit) && AllUsable(s.phase.ready, s.limit))
    && AllLentOk(s.tasks.handed, s.limit, s.tasks.clock)
    && AllLentOk(s.tasks.sending, s.limit, s.tasks.clock)
    && AllLentOk(s.tasks.doomed, s.limit, s.tasks.clock)
    && AllLentOk(s.tasks.lost, s.limit, s.tasks.clock)
  }

  lemma LendAllOk(cs: seq<Connection>, limit: nat, clock: nat)
    requires AllUsable(cs, limit)
    ensures AllLentOk(LendAll(cs, clock), limit, clock)
  {
  }

  lemma ReturnedOk(c: Connection, limit: nat, clock: nat)
    requires LentOk(c, limit, clock)
    ensures IdleOk(Returned(c, clock), limit)
    ensures var r := Returned(c, clock); r.expireAt == c.expireAt && r.lends == c.lends && r.lateLends == c.lateLends
  {
    var r := Returned(c, clock);
    assert r.cameBack[|c.cameBack|] == clock;
    assert forall k :: 0 <= k < |c.cameBack| ==> r.cameBack[k] == c.cameBack[k];
  }

  lemma FinishKeepsAlive(s: Pool)
    requires KeptAlive(s) && Possible(s, GetFinish)
    ensures KeptAlive(Next(s, GetFinish))
  {
    LendAllOk(s.phase.ready, s.limit, s.tasks.clock);
    hide LendAll, LentOk, IdleOk;
  }

  lemma SelectKeepsAlive(s: Pool)
    requires KeptAlive(s) && Possible(s, GetSelect)
    ensures KeptAlive(Next(s, GetSelect))
  {
    hide LentOk, IdleOk, Keep;
    var t := Settled(s);
    assert KeptAlive(t);
    assert forall c :: c in t.connections[Min(s.phase.request, |t.connections|)..] ==> c in t.connections;
    UsableAreUnmarked(t.connections[..Min(s.phase.request, |t.connections|)]);
  }

  lemma OwnerKeepsAlive(s: Pool, e: Event)
    requires KeptAlive(s) && Possible(s, e) && !IsEnvironment(e)
    ensures KeptAlive(Next(s, e))
  {
    hide IdleOk, LentOk, DoGetSelect, DoGetFinish;
    hide DoLose, DoReturnBegin, DoReturnPush, DoOpenReport, DoOpenPublish, DoShrink, DoShrinkLate;
    if e.GetFinish? { FinishKeepsAlive(s); }
    if e.GetSelect? { SelectKeepsAlive(s); }
  }

  lemma TasksKeepAlive(s: Pool, e: Event)
    requires KeptAlive(s) && Possible(s, e) && IsEnvironment(e)
    ensures KeptAlive(Next(s, e))
  {
    hide DoResize, DoGetBegin, DoGetSelect, DoProbeDone, DoGetFinish, DoDrop, DoSendOff;
    match e
    case ReturnBegin(i) => ReturnedOk(s.tasks.sending[i], s.limit, s.tasks.clock);
    case OpenPublish(i) => assert AllIdleOk(s.tasks.connected[i], s.limit);
    case _ =>
  }

  lemma KeptAliveNext(s: Pool, e: Event)
    requires KeptAlive(s)
    ensures KeptAlive(Next(s, e))
  {
    hide KeptAlive;
    if Possible(s, e) {
      if IsEnvironment(e) { TasksKeepAlive(s, e); } else { OwnerKeepsAlive(s, e); }
    }
  }

  // ---------- metrics ----------

  /** Connections waiting in the pool or on their way into it. */
  function Idle(s: Pool): nat {
    |s.connections| + |s.newConnections| + |s.recyclable| + |s.tasks.returning| + Lengths(s.tasks.connected)
  }

  predicate Metered(s: Pool) {
    && s.metrics.success - s.metrics.dropped == Idle(s) + Lent(s) + |s.tasks.lost| + Selected(s)
    && s.metrics.busy == Lent(s) + |s.tasks.lost|
    && s.metrics.idle == Idle(s) + Selected(s) + s.metrics.discarded
  }

  lemma OwnerKeepsMeters(s: Pool, e: Event)
    requires Metered(s) && Possible(s, e) && !IsEnvironment(e)
    ensures Metered(Next(s, e))
  {
    if e.SendOff? { PickedLengths(s.tasks.handed, e.dooms); }
    hide Lengths, Picked, DoLose, DoReturnBegin, DoReturnPush, DoOpenReport, DoOpenPublish, DoShrink, DoShrinkLate;
  }

  lemma TasksKeepMeters(s: Pool, e: Event)
    requires Metered(s) && Possible(s, e) && IsEnvironment(e)
    ensures Metered(Next(s, e))
  {
    hide Lengths, Returned, DoResize, DoGetBegin, DoGetSelect, DoProbeDone, DoGetFinish, DoDrop, DoSendOff;
    match e
    case OpenReport(i, expiries) => LengthsAppend(s.tasks.connected, Opened(s.limit, expiries));
    case OpenPublish(i) => LengthsRemove(s.tasks.connected, i);
    case _ =>
  }

  lemma MeteredNext(s: Pool, e: Event)
    requires Metered(s)
    ensures Metered(Next(s, e))
  {
    hide Metered;
    if Possible(s, e) {
      if IsEnvironment(e) { TasksKeepMeters(s, e); } else { OwnerKeepsMeters(s, e); }
    }
  }

  // ---------- every run ----------

  predicate Invariant(s: Pool) {
    Accounted(s) && SlotsKept(s) && Capped(s) && KeptAlive(s) && Metered(s)
  }

  lemma InvariantNext(s: Pool, e: Event)
    requires Invariant(s)
    ensures Invariant(Next(s, e))
  {
    AccountedNext(s, e);
    SlotsKeptNext(s, e);
    CappedNext(s, e);
    KeptAliveNext(s, e);
    MeteredNext(s, e);
  }

  lemma {:induction false} InvariantRun(s: Pool, events: seq<Event>)
    requires Invariant(s)
    ensures Invariant(Run(s, events))
    decreases |events|
  {
    if events != [] {
      InvariantNext(s, events[0]);
      InvariantRun(Next(s, events[0]), events[1..]);
    }
  }

  lemma {:induction false} Reachable(limit: nat, elastic: bool, events: seq<Event>)
    requires limit >= 1
    ensures Invariant(Run(Init(limit, elastic), events))
  {
    InvariantRun(Init(limit, elastic), events);
  }

  /** The busy counter is exact, so taking the claimed connections off it never underflows. */
  lemma BusyIsExact(limit: nat, elastic: bool, events: seq<Event>)
    requires limit >= 1
    ensures var s := Run(Init(limit, elastic), events);
      && s.busy == Lent(s) + |s.tasks.lost| + |s.tasks.returning| + |s.recyclable| + ClaimedBack(s)
      && s.busy - ClaimedBack(s) >= 0
  {
    Reachable(limit, elastic, events);
  }

  // ---------- size cap over runs ----------

  /** A get of a non-elastic pool that lends anything leaves it within its target. */
  lemma LendingStaysWithinTarget(limit: nat, elastic: bool, events: seq<Event>)
    requires limit >= 1
    ensures var s := Run(Init(limit, elastic), events);
      Possible(s, GetFinish) && !s.elastic && s.phase.ready != []
      ==> Next(s, GetFinish).busy <= s.maxConnection
  {
    Reachable(limit, elastic, events);
  }

  /** A pool at or over its target after a shrink selects nothing, whatever is idle,
      and keeps nothing idle either. */
  lemma FullPoolLendsNothing(limit: nat, elastic: bool, events: seq<Event>)
    requires limit >= 1
    ensures var s := Run(Init(limit, elastic), events);
      s.phase.Claimed? && !s.elastic && s.busy - s.phase.returned >= s.maxConnection
      ==> var t := Next(s, GetSelect); t.phase.probing == [] && t.connections == []
  {
    Reachable(limit, elastic, events);
    var s := Run(Init(limit, elastic), events);
    if s.phase.Claimed? && !s.elastic && s.busy - s.phase.returned >= s.maxConnection {
      var all := s.connections + s.newConnections;
      assert Keep(s, |all|) == 0;
      assert Settled(s).connections == [];
    }
  }

  /** Every resize of the run asks for at least the current target. */
  predicate NeverShrinks(s: Pool, events: seq<Event>)
    decreases |events|
  {
    events != [] ==>
      && (events[0].Resize? && s.phase.Resting? ==> events[0].count >= s.maxConnection)
      && NeverShrinks(Next(s, events[0]), events[1..])
  }

  lemma {:induction false} PeakIsTarget(s: Pool, events: seq<Event>)
    requires NeverShrinks(s, events) && s.history.peak == s.maxConnection && !s.history.everElastic
    ensures var t := Run(s, events); t.history.peak == t.maxConnection && !t.history.everElastic
    decreases |events|
  {
    if events != [] {
      PeakIsTarget(Next(s, events[0]), events[1..]);
    }
  }

  /** A pool whose target never shrinks never has more connections out than its target. */
  lemma NeverOverTarget(limit: nat, events: seq<Event>)
    requires limit >= 1 && NeverShrinks(Init(limit, false), events)
    ensures var s := Run(Init(limit, false), events);
      Lent(s) + |s.tasks.lost| <= s.busy <= s.maxConnection
  {
    Reachable(limit, false, events);
    PeakIsTarget(Init(limit, false), events);
  }

  // ---------- keep-alive over runs ----------

  /** Every connection the pool ever handed out or holds. */
  predicate Held(s: Pool, c: Connection) {
    || c in s.connections || c in s.recyclable || c in s.newConnections
    || c in s.tasks.handed || c in s.tasks.sending || c in s.tasks.doomed || c in s.tasks.lost
    || c in s.tasks.returning
    || (exists b :: b in s.tasks.connected && c in b)
    || (s.phase.Probing? && (c in s.phase.probing || c in s.phase.ready))
  }

  /** No connection is lent more often than the keep-alive setting allows, its
      remaining reuse never goes negative, and it is lent at most once after it expired. */
  lemma KeepAliveHolds(maxRequests: nat, elastic: bool, events: seq<Event>, c: Connection)
    requires maxRequests >= 1
    ensures var s := Run(Init(ReuseLimit(maxRequests), elastic), events);
      Held(s, c) ==>
        && c.lends <= maxRequests && c.lends <= I32_MAX
        && c.remainingReuse >= 0
        && c.lateLends <= 1
  {
    Reachable(ReuseLimit(maxRequests), elastic, events);
    LimitIsKept(Init(ReuseLimit(maxRequests), elastic), events);
  }

  /** The connections in the pool or on their way into it. */
  predicate Waits(s: Pool, c: Connection) {
    || c in s.connections || c in s.recyclable || c in s.newConnections || c in s.tasks.returning
    || (exists b :: b in s.tasks.connected && c in b)
  }

  /** A connection in the pool is marked for dropping if and only if it has been lent as
      often as allowed or came back after its expiry; so a fresh one is not, nor is one
      that always came back in time with reuse left. */
  lemma MarksAreExact(limit: nat, elastic: bool, events: seq<Event>, c: Connection)
    requires limit >= 1
    ensures Waits(Run(Init(limit, elastic), events), c) ==>
      (c.shouldDrop <==> c.lends == limit || CameBackLate(c)) && |c.cameBack| == c.lends
  {
    Reachable(limit, elastic, events);
    LimitIsKept(Init(limit, elastic), events);
    hide Run;
  }

  /** A pool is elastic if and only if it was made so and never had a target but 0. */
  lemma ElasticUntilResized(limit: nat, elastic: bool, events: seq<Event>)
    requires limit >= 1
    ensures var s := Run(Init(limit, elastic), events); s.elastic <==> elastic && s.history.peak == 0
  {
    Reachable(limit, elastic, events);
    OriginIsKept(Init(limit, elastic), events);
  }

  lemma {:induction false} OriginIsKept(s: Pool, events: seq<Event>)
    ensures Run(s, events).history.everElastic == s.history.everElastic
    decreases |events|
  {
    if events != [] {
      OriginIsKept(Next(s, events[0]), events[1..]);
    }
  }

  lemma {:induction false} LimitIsKept(s: Pool, events: seq<Event>)
    ensures Run(s, events).limit == s.limit
    decreases |events|
  {
    if events != [] {
      LimitIsKept(Next(s, events[0]), events[1..]);
    }
  }

  // ---------- metrics over runs ----------

  /** Successful opens minus drops are the connections alive, and the busy gauge is the
      connections lent, both too high by the connections lost; the idle gauge exceeds the
      connections waiting by exactly the ones thrown away by a drain, an expiry or a
      breakage. */
  lemma MetricsAreExact(limit: nat, elastic: bool, events: seq<Event>)
    requires limit >= 1
    ensures var s := Run(Init(limit, elastic), events);
      && s.metrics.success - s.metrics.dropped == Idle(s) + Selected(s) + Lent(s) + |s.tasks.lost|
      && s.metrics.busy == Lent(s) + |s.tasks.lost|
      && s.metrics.idle == Idle(s) + Selected(s) + s.metrics.discarded
  {
    Reachable(limit, elastic, events);
  }

  // ---------- lost connections over runs ----------

  /** The connections that no task will ever return: dropped, or about to be. */
  function Gone(s: Pool): nat {
    |s.tasks.doomed| + |s.tasks.lost|
  }

  // How one event changes their number.
  lemma GoneNext(s: Pool, e: Event)
    requires Possible(s, e)
    ensures Gone(Next(s, e)) - Gone(s) ==
      match e
      case Drop => |s.tasks.handed|
      case SendOff(dooms) => |Picked(s.tasks.handed, dooms, true)|
      case _ => 0
  {
  }

  lemma {:induction false} GoneStaysGone(s: Pool, events: seq<Event>)
    ensures Gone(s) <= Gone(Run(s, events))
    decreases |events|
  {
    if events != [] {
      if Possible(s, events[0]) { GoneNext(s, events[0]); }
      GoneStaysGone(Next(s, events[0]), events[1..]);
    }
  }

  /** A connection that will not be returned is busy for ever: in every continuation the
      busy counter stays at or above their number, a non-elastic pool that lends anything
      has at most the target minus that number out besides them, and one whose target
      does not exceed it lends nothing. */
  lemma LostConnectionsShrinkThePool(limit: nat, elastic: bool, events: seq<Event>, more: seq<Event>)
    requires limit >= 1
    ensures var gone := Gone(Run(Init(limit, elastic), events));
      var s := Run(Init(limit, elastic), events + more);
      && s.busy - ClaimedBack(s) >= gone
      && (Possible(s, GetFinish) && !s.elastic && s.phase.ready != []
          ==> var t := Next(s, GetFinish).tasks; |t.handed| + |t.sending| <= s.maxConnection - gone)
      && (Possible(s, GetSelect) && !s.elastic && s.maxConnection <= gone
          ==> Next(s, GetSelect).phase.probing == [])
  {
    var s := Run(Init(limit, elastic), events + more);
    GoneStaysGone(Run(Init(limit, elastic), events), more);
    RunConcat(Init(limit, elastic), events, more);
    Reachable(limit, elastic, events + more);
    LendingStaysWithinTarget(limit, elastic, events + more);
    FullPoolLendsNothing(limit, elastic, events + more);
    if Possible(s, GetFinish) {
      AccountedNext(s, GetFinish);
      GoneNext(s, GetFinish);
    }
  }

  // ---------- slots over runs ----------

  /** A pool falls short of its target by no more than late shrink tasks removed. */
  lemma ShortfallIsLateRemovals(limit: nat, elastic: bool, events: seq<Event>)
    requires limit >= 1
    ensures var s := Run(Init(limit, elastic), events);
      s.maxConnection - Slots(s) <= s.history.lateRemoved
  {
    Reachable(limit, elastic, events);
  }

  /** Every shrink task has run before the owner starts its next operation. */
  predicate Prompt(s: Pool, events: seq<Event>)
    decreases |events|
  {
    events != [] ==>
      && ((events[0].Resize? || events[0].GetBegin?) && s.phase.Resting? ==> s.tasks.shrink == 0)
      && Prompt(Next(s, events[0]), events[1..])
  }

  lemma {:induction false} PromptHasNoLateShrink(s: Pool, events: seq<Event>)
    requires Prompt(s, events) && s.tasks.lateShrinks == [] && s.history.lateRemoved == 0
    ensures Run(s, events).history.lateRemoved == 0
    decreases |events|
  {
    if events != [] {
      PromptHasNoLateShrink(Next(s, events[0]), events[1..]);
    }
  }

  /** With prompt shrink tasks no slot is ever lost. */
  lemma NoSlotLost(limit: nat, elastic: bool, events: seq<Event>)
    requires limit >= 1 && Prompt(Init(limit, elastic), events)
    ensures var s := Run(Init(limit, elastic), events); Slots(s) >= s.maxConnection
  {
    ShortfallIsLateRemovals(limit, elastic, events);
    PromptHasNoLateShrink(Init(limit, elastic), events);
  }

  lemma RunOfThree(s: Pool, e: seq<Event>)
    requires |e| == 3
    ensures Run(s, e) == Next(Next(Next(s, e[0]), e[1]), e[2])
  {
    var t := Next(Next(s, e[0]), e[1]);
    assert e[1..][1..] == e[2..] == [e[2]];
    assert Run(Next(s, e[0]), e[1..]) == Run(t, [e[2]]);
    assert Run(t, [e[2]]) == Run(Next(t, e[2]), []);
  }

  // A quiet pool of n connections, none of them claimed yet.
  predicate Waiting(s: Pool, n: nat) {
    && s.phase == Resting && s.maxConnection == n && !s.elastic && s.busy == 0 && s.failed == 0
    && |s.connections| == 0 && |s.newConnections| == n && s.tasks.opening == [] && s.tasks.connected == []
    && s.tasks.shrink == 0 && s.tasks.lateShrinks == [] && s.history.lateRemoved == 0
  }

  lemma OpenAll(limit: nat, expiries: seq<nat>)
    requires expiries != []
    ensures Waiting(Run(Init(limit, false), [Resize(|expiries|), OpenReport(0, expiries), OpenPublish(0)]), |expiries|)
  {
    var n := |expiries|;
    RunOfThree(Init(limit, false), [Resize(n), OpenReport(0, expiries), OpenPublish(0)]);
    var s1 := Next(Init(limit, false), Resize(n));
    assert s1.tasks.opening == [n];
    var s2 := Next(s1, OpenReport(0, expiries));
    assert |s2.tasks.connected| == 1 && s2.tasks.connected[0] == Opened(limit, expiries);
  }

  lemma LoseAll(s: Pool, n: nat)
    requires n >= 1 && Waiting(s, n)
    ensures var t := Run(s, [Resize(0), Resize(n), ShrinkLate(0)]);
      t.maxConnection == n && Slots(t) == 0 && t.history.lateRemoved == n
  {
    RunOfThree(s, [Resize(0), Resize(n), ShrinkLate(0)]);
    var s1 := Next(s, Resize(0));
    assert s1.tasks.shrink == n;
    var s2 := Next(s1, Resize(n));
    assert s2.tasks.lateShrinks == [n] && s2.tasks.opening == [];
  }

  /** The bound on the shortfall is tight: a shrink task overtaken by the next resize
      can cost a pool all its slots, for every pool size. */
  lemma LateShrinkLosesSlots(limit: nat, expiries: seq<nat>)
    requires expiries != []
    ensures exists events :: var s := Run(Init(limit, false), events);
      s.maxConnection == |expiries| && Slots(s) == 0 && s.history.lateRemoved == |expiries|
  {
    var n := |expiries|;
    var a := [Resize(n), OpenReport(0, expiries), OpenPublish(0)];
    var b := [Resize(0), Resize(n), ShrinkLate(0)];
    OpenAll(limit, expiries);
    LoseAll(Run(Init(limit, false), a), n);
    RunConcat(Init(limit, false), a, b);
  }

  // ---------- every pending late shrink can cost its slots ----------

  // What other tasks leave alone when they finish their opens.
  predicate OwnerSame(s: Pool, t: Pool) {
    && t.phase == s.phase && t.failed == s.failed && t.busy == s.busy
    && t.maxConnection == s.maxConnection && t.elastic == s.elastic
    && t.tasks.lateShrinks == s.tasks.lateShrinks && t.tasks.shrink == s.tasks.shrink
  }

  lemma {:induction false} PublishAll(s: Pool) returns (events: seq<Event>)
    ensures var t := Run(s, events); OwnerSame(s, t) && t.tasks.connected == [] && t.tasks.opening == s.tasks.opening
    decreases |s.tasks.connected|
  {
    if s.tasks.connected == [] {
      events := [];
    } else {
      var t := Next(s, OpenPublish(0));
      events := PublishAll(t);
      events := [OpenPublish(0)] + events;
      assert Run(s, events) == Run(t, events[1..]);
    }
  }

  lemma {:induction false} FinishOpens(s: Pool) returns (events: seq<Event>)
    ensures var t := Run(s, events); OwnerSame(s, t) && t.tasks.connected == [] && t.tasks.opening == []
    decreases |s.tasks.opening|
  {
    if s.tasks.opening == [] {
      events := PublishAll(s);
    } else {
      var e := OpenReport(0, seq(s.tasks.opening[0], _ => 0));
      var t := Next(s, e);
      assert OwnerSame(s, t) && |t.tasks.opening| == |s.tasks.opening| - 1;
      events := FinishOpens(t);
      events := [e] + events;
      assert Run(s, events) == Run(t, events[1..]);
    }
  }

  // A get that asks for nothing starts the opens that failed anew.
  lemma EmptyGet(s: Pool)
    requires s.phase.Resting?
    ensures var t := Run(s, [GetBegin(0), GetSelect, GetFinish]);
      t.phase.Resting? && t.failed == 0 && s.tasks.lateShrinks <= t.tasks.lateShrinks
  {
    RunOfThree(s, [GetBegin(0), GetSelect, GetFinish]);
    var s1 := Next(s, GetBegin(0));
    var s2 := Next(s1, GetSelect);
    assert s2.phase.Probing? && s2.phase.probing == [];
  }

  predicate NothingInFlight(s: Pool) {
    s.phase.Resting? && s.failed == 0 && s.tasks.opening == [] && s.tasks.connected == []
  }

  // With nothing in flight a resize asks for exactly the connections that are missing.
  lemma GrowingOpens(s: Pool, count: nat)
    requires NothingInFlight(s) && s.busy >= 0
    requires count > s.maxConnection && count > |s.newConnections| + s.busy + |s.connections|
    ensures var t := Next(s, Resize(count));
      && t.phase.Resting? && t.failed == 0 && t.busy == s.busy && t.maxConnection == count
      && t.connections == s.connections && t.newConnections == s.newConnections
      && t.tasks.opening == [count - (|s.newConnections| + s.busy + |s.connections|)] && t.tasks.connected == []
      && s.tasks.lateShrinks <= t.tasks.lateShrinks
  {
  }

  lemma OpensArrive(s: Pool, n: nat)
    requires s.phase.Resting? && s.tasks.opening == [n] && s.tasks.connected == []
    ensures var t := Next(Next(s, OpenReport(0, seq(n, _ => 0))), OpenPublish(0));
      && OwnerSame(s, t) && t.connections == s.connections && |t.newConnections| == |s.newConnections| + n
      && t.tasks.opening == [] && t.tasks.connected == []
  {
    var t := Next(s, OpenReport(0, seq(n, _ => 0)));
    assert t.tasks.opening == [] && |t.tasks.connected| == 1 && |t.tasks.connected[0]| == n;
    assert Next(t, OpenPublish(0)).tasks.connected == [];
  }

  // And then the late task removes new connections.
  lemma LosesItsSlots(s: Pool, i: nat)
    requires NothingInFlight(s) && i < |s.tasks.lateShrinks| && s.tasks.lateShrinks[i] <= |s.newConnections|
    ensures var t := Next(s, ShrinkLate(i));
      t.maxConnection == s.maxConnection && Slots(t) == Slots(s) - s.tasks.lateShrinks[i]
  {
  }

  lemma GrowThenLose(s: Pool, i: nat) returns (events: seq<Event>)
    requires NothingInFlight(s) && s.busy >= 0 && i < |s.tasks.lateShrinks|
    ensures var t := Run(s, events); t.maxConnection - Slots(t) == s.tasks.lateShrinks[i]
  {
    hide Next, Run;
    var k := s.tasks.lateShrinks[i];
    var active := |s.newConnections| + s.busy + |s.connections|;
    var count: nat := Max(s.maxConnection, active) + k + 1;
    var grown: nat := count - active;
    var opens := [Resize(count), OpenReport(0, seq(grown, _ => 0)), OpenPublish(0)];
    events := opens + [ShrinkLate(i)];
    RunSnoc(s, opens, ShrinkLate(i));
    RunOfThree(s, opens);
    GrowingOpens(s, count);
    OpensArrive(Next(s, Resize(count)), grown);
    LosesItsSlots(Run(s, opens), i);
  }

  /** From every reachable resting pool with a late shrink task pending, there is a
      continuation that ends with the pool short of its target by exactly what that task
      was to remove. */
  lemma LateShrinkCanLoseItsSlots(limit: nat, elastic: bool, events: seq<Event>, i: nat)
    requires limit >= 1 && Run(Init(limit, elastic), events).phase.Resting?
    requires i < |Run(Init(limit, elastic), events).tasks.lateShrinks|
    ensures exists more :: var t := Run(Init(limit, elastic), events + more);
      t.maxConnection - Slots(t) == Run(Init(limit, elastic), events).tasks.lateShrinks[i]
  {
    hide Run, Next;
    var start, get := Init(limit, elastic), [GetBegin(0), GetSelect, GetFinish];
    var s := Run(start, events);
    EmptyGet(s);
    var t := Run(s, get);
    var opens := FinishOpens(t);
    var u := Run(t, opens);
    var more := get + opens;
    RunConcat(s, get, opens);
    RunConcat(start, events, more);
    BusyIsExact(limit, elastic, events + more);
    var last := GrowThenLose(u, i);
    RunConcat(start, events + more, last);
    assert events + more + last == events + (more + last);
  }
}
