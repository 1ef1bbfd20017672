/** How a secondary passes the connection pool of one job from a broken connection
    with the primary to the connection that replaces it.

    The job owns one entry in the map of pools and one in the map of listeners.
    A handler takes the listener its predecessor left, waits on it, and only then
    takes the pool. Each event is one handler's code between two suspension points;
    an event that is not possible leaves the state unchanged. */
module HandOver {
  import opened Results

  /** One-shot channel: still open, notified, or dropped by its sender. `pool` is
      the pool of the handler that created it. */
  datatype Link = Open | Sent | Closed
  datatype Channel = Channel(link: Link, pool: nat)

  datatype Handler =
    // inside init_connection_pool
    | Waiting(channel: nat)
    | Signalled(channel: nat)
    | Leaving(channel: nat)
    | Equipped(pool: nat)
    // past it, with a pool
    | Running(pool: nat, channel: nat)
    | Stored(pool: nat, channel: nat)
    | Cleaning(pool: nat, channel: nat)
    // finished, or panicked at the unwrap
    | Gone
    | Panicked

  datatype Job = Job(
    slot: Option<nat>,
    listener: Option<nat>,
    channels: seq<Channel>,
    handlers: seq<Handler>,
    nextPool: nat)

  datatype Event =
    | Arrive                  // a new connection reaches init_connection_pool
    | Notify(handler: nat)    // its wait ends with the notification
    | Refuse(handler: nat)    // its wait times out or finds the sender gone
    | PutBack(handler: nat)   // it returns the listener and gives up
    | TakePool(handler: nat)  // it unwraps the stored pool
    | Publish(handler: nat)   // it leaves its own listener and enters the message loop
    | Fail(handler: nat)      // receive error: the pool is stored
    | Signal(handler: nat)    // then the successor is notified
    | Stop(handler: nat)      // stop or finish: the stored pool is removed
    | Clean(handler: nat)     // then the listener is removed
    | Abandon(handler: nat)   // end of stream or a failed preparation: nothing is cleaned up

  const Start := Job(None, None, [], [], 0)

  predicate InInit(h: Handler) { h.Waiting? || h.Signalled? || h.Leaving? || h.Equipped? }

  predicate Holds(h: Handler) { h.Running? || h.Stored? || h.Cleaning? }

  function SetLink(s: Job, channel: nat, link: Link): seq<Channel>
    requires channel < |s.channels|
  {
    s.channels[channel := s.channels[channel].(link := link)]
  }

  // The handler an event speaks about, when there is one.
  function At(s: Job, i: nat): Handler {
    if i < |s.handlers| then s.handlers[i] else Gone
  }

  function Set(s: Job, i: nat, h: Handler): seq<Handler> {
    if i < |s.handlers| then s.handlers[i := h] else s.handlers
  }

  predicate Known(s: Job, channel: nat) { channel < |s.channels| }

  function Next(s: Job, e: Event): Job {
    match e
    case Arrive =>
      match s.listener {
        case Some(c) => s.(listener := None, handlers := s.handlers + [Waiting(c)])
        case None => s.(handlers := s.handlers + [Equipped(s.nextPool)], nextPool := s.nextPool + 1)
      }
    case Notify(i) =>
      var h := At(s, i);
      if h.Waiting? && Known(s, h.channel) && s.channels[h.channel].link.Sent?
      then s.(handlers := Set(s, i, Signalled(h.channel))) else s
    case Refuse(i) =>
      var h := At(s, i);
      if h.Waiting? then s.(handlers := Set(s, i, Leaving(h.channel))) else s
    case PutBack(i) =>
      var h := At(s, i);
      if h.Leaving? then s.(listener := Some(h.channel), handlers := Set(s, i, Gone)) else s
    case TakePool(i) =>
      if !At(s, i).Signalled? then s
      else if s.slot.None? then s.(handlers := Set(s, i, Panicked))
      else s.(slot := None, handlers := Set(s, i, Equipped(s.slot.value)))
    case Publish(i) =>
      var h := At(s, i);
      if h.Equipped?
      then s.(listener := Some(|s.channels|),
              channels := s.channels + [Channel(Open, h.pool)],
              handlers := Set(s, i, Running(h.pool, |s.channels|)))
      else s
    case Fail(i) =>
      var h := At(s, i);
      if h.Running? then s.(slot := Some(h.pool), handlers := Set(s, i, Stored(h.pool, h.channel))) else s
    case Signal(i) =>
      var h := At(s, i);
      if h.Stored? && Known(s, h.channel)
      then s.(channels := SetLink(s, h.channel, Sent), handlers := Set(s, i, Gone)) else s
    case Stop(i) =>
      var h := At(s, i);
      if h.Running? then s.(slot := None, handlers := Set(s, i, Cleaning(h.pool, h.channel))) else s
    case Clean(i) =>
      var h := At(s, i);
      if h.Cleaning? && Known(s, h.channel)
      then s.(listener := None, channels := SetLink(s, h.channel, Closed), handlers := Set(s, i, Gone)) else s
    case Abandon(i) =>
      var h := At(s, i);
      if h.Running? && Known(s, h.channel)
      then s.(channels := SetLink(s, h.channel, Closed), handlers := Set(s, i, Gone)) else s
  }

  function Run(s: Job, events: seq<Event>): Job
    decreases |events|
  {
    if events == [] then s else Run(Next(s, events[0]), events[1..])
  }

  lemma {:induction false} RunConcat(s: Job, a: seq<Event>, b: seq<Event>)
    ensures Run(s, a + b) == Run(Run(s, a), b)
    decreases |a|
  {
    if a == [] {
      assert a + b == b;
    } else {
      assert (a + b)[0] == a[0] && (a + b)[1..] == a[1..] + b;
      RunConcat(Next(s, a[0]), a[1..], b);
    }
  }

  /** A connection arrives only when no other one is inside init_connection_pool. */
  predicate Serial(s: Job, events: seq<Event>)
    decreases |events|
  {
    events != [] ==>
      && (events[0].Arrive? ==> forall i :: 0 <= i < |s.handlers| ==> !InInit(s.handlers[i]))
      && Serial(Next(s, events[0]), events[1..])
  }

  // ---------- the invariant ----------

  // The channel published last; the only one anybody may still refer to.
  predicate Current(s: Job, channel: nat) { channel == |s.channels| - 1 }

  predicate Refers(h: Handler, channel: int) {
    (h.Waiting? || h.Signalled? || h.Leaving?) && h.channel == channel
  }

  predicate Referenced(s: Job) {
    s.listener.Some? || exists i :: 0 <= i < |s.handlers| && Refers(s.handlers[i], |s.channels| - 1)
  }

  predicate HandlerOk(s: Job, h: Handler) {
    && !h.Panicked?
    && (h.Waiting? || h.Signalled? || h.Leaving? ==> Current(s, h.channel) && s.listener == None)
    && (h.Signalled? ==> s.channels[h.channel].link == Sent)
    && (h.Equipped? ==> s.listener == None)
    && (Holds(h) ==> Current(s, h.channel) && s.channels[h.channel] == Channel(Open, h.pool) && Referenced(s))
    && (h.Stored? ==> s.slot == Some(h.pool))
  }

  /** At most one handler is inside init and at most one holds a pool, the two kinds
      of holding exclude each other, and a notified channel that is still referred to
      has its pool in the slot. */
  predicate Invariant(s: Job) {
    && (s.listener.Some? ==> Current(s, s.listener.value))
    && (forall i :: 0 <= i < |s.handlers| ==> HandlerOk(s, s.handlers[i]))
    && (forall i, j :: 0 <= i < j < |s.handlers| ==> !(InInit(s.handlers[i]) && InInit(s.handlers[j])))
    && (forall i, j :: 0 <= i < j < |s.handlers| ==> !(Holds(s.handlers[i]) && Holds(s.handlers[j])))
    && (forall i, j :: 0 <= i < |s.handlers| && 0 <= j < |s.handlers| ==>
          !(s.handlers[i].Equipped? && Holds(s.handlers[j])))
    && (Referenced(s) && s.channels != [] && s.channels[|s.channels| - 1].link == Sent
        ==> s.slot == Some(s.channels[|s.channels| - 1].pool))
  }

  // A reference is passed on by every step that does not end it.
  lemma ReferencedNext(s: Job, e: Event)
    requires Referenced(s) && (s.listener.Some? ==> Current(s, s.listener.value))
    requires e.Arrive? || e.Notify? || e.Refuse? || e.PutBack? || e.Fail? || e.Signal? || e.Stop? || e.Abandon?
    ensures Referenced(Next(s, e))
  {
    var t := Next(s, e);
    if s.listener.None? {
      var i :| 0 <= i < |s.handlers| && Refers(s.handlers[i], |s.channels| - 1);
      assert t.listener.Some? || Refers(t.handlers[i], |t.channels| - 1);
    } else if e.Arrive? {
      assert Refers(t.handlers[|s.handlers|], |t.channels| - 1);
    }
  }

  lemma {:induction false} ArriveKeeps(s: Job, e: Event)
    requires Invariant(s) && e.Arrive? && Serial(s, [e])
    ensures Invariant(Next(s, e))
  {
    if Referenced(s) { ReferencedNext(s, e); }
  }

  lemma NotifyKeeps(s: Job, e: Event)
    requires Invariant(s) && e.Notify?
    ensures Invariant(Next(s, e))
  {
    if Referenced(s) { ReferencedNext(s, e); }
  }

  lemma RefuseKeeps(s: Job, e: Event)
    requires Invariant(s) && e.Refuse?
    ensures Invariant(Next(s, e))
  {
    if Referenced(s) { ReferencedNext(s, e); }
  }

  lemma PutBackKeeps(s: Job, e: Event)
    requires Invariant(s) && e.PutBack?
    ensures Invariant(Next(s, e))
  {
    if Referenced(s) { ReferencedNext(s, e); }
  }

  lemma TakePoolKeeps(s: Job, e: Event)
    requires Invariant(s) && e.TakePool?
    ensures Invariant(Next(s, e))
  {
  }

  lemma PublishKeeps(s: Job, e: Event)
    requires Invariant(s) && e.Publish?
    ensures Invariant(Next(s, e))
  {
  }

  lemma FailKeeps(s: Job, e: Event)
    requires Invariant(s) && e.Fail?
    ensures Invariant(Next(s, e))
  {
    if Referenced(s) { ReferencedNext(s, e); }
  }

  lemma StopKeeps(s: Job, e: Event)
    requires Invariant(s) && e.Stop?
    ensures Invariant(Next(s, e))
  {
    if Referenced(s) { ReferencedNext(s, e); }
  }

  lemma SignalKeeps(s: Job, e: Event)
    requires Invariant(s) && e.Signal?
    ensures Invariant(Next(s, e))
  {
    if Referenced(s) { ReferencedNext(s, e); }
  }

  lemma AbandonKeeps(s: Job, e: Event)
    requires Invariant(s) && e.Abandon?
    ensures Invariant(Next(s, e))
  {
    if Referenced(s) { ReferencedNext(s, e); }
  }

  lemma CleanKeeps(s: Job, e: Event)
    requires Invariant(s) && e.Clean?
    ensures Invariant(Next(s, e))
  {
  }

  lemma {:induction false} InvariantNext(s: Job, e: Event)
    requires Invariant(s) && Serial(s, [e])
    ensures Invariant(Next(s, e))
  {
    match e
    case Arrive => ArriveKeeps(s, e);
    case Notify(_) => NotifyKeeps(s, e);
    case Refuse(_) => RefuseKeeps(s, e);
    case PutBack(_) => PutBackKeeps(s, e);
    case TakePool(_) => TakePoolKeeps(s, e);
    case Publish(_) => PublishKeeps(s, e);
    case Fail(_) => FailKeeps(s, e);
    case Stop(_) => StopKeeps(s, e);
    case Signal(_) => SignalKeeps(s, e);
    case Abandon(_) => AbandonKeeps(s, e);
    case Clean(_) => CleanKeeps(s, e);
  }

  lemma {:induction false} InvariantRun(s: Job, events: seq<Event>)
    requires Invariant(s) && Serial(s, events)
    ensures Invariant(Run(s, events))
    decreases |events|
  {
    if events != [] {
      InvariantNext(s, events[0]);
      InvariantRun(Next(s, events[0]), events[1..]);
    }
  }

  lemma {:induction false} SerialConcat(s: Job, a: seq<Event>, b: seq<Event>)
    ensures Serial(s, a + b) <==> Serial(s, a) && Serial(Run(s, a), b)
    decreases |a|
  {
    if a == [] {
      assert a + b == b;
    } else {
      assert (a + b)[0] == a[0] && (a + b)[1..] == a[1..] + b;
      SerialConcat(Next(s, a[0]), a[1..], b);
    }
  }

  lemma StartIsInvariant()
    ensures Invariant(Start)
  {
  }

  // ---------- safety of every serial run ----------

  predicate NoPanic(s: Job) { forall i :: 0 <= i < |s.handlers| ==> !s.handlers[i].Panicked? }

  predicate OneHolder(s: Job) {
    forall i, j :: 0 <= i < j < |s.handlers| ==> !(Holds(s.handlers[i]) && Holds(s.handlers[j]))
  }

  // A handler that works with a pool, or is about to.
  predicate Works(h: Handler) { h.Equipped? || h.Running? || h.Cleaning? }

  /** While a pool is stored for a successor nobody works with one, and somebody will come
      for it. */
  predicate StoredForOne(s: Job) {
    s.slot.Some? ==> Referenced(s) && forall i :: 0 <= i < |s.handlers| ==> !Works(s.handlers[i])
  }

  lemma {:induction false} StoredForOneNext(s: Job, e: Event)
    requires Invariant(s) && StoredForOne(s) && Serial(s, [e])
    ensures StoredForOne(Next(s, e))
  {
    if Referenced(s) && !e.TakePool? && !e.Publish? && !e.Clean? {
      ReferencedNext(s, e);
    }
    hide Referenced;
    if e.Clean? && At(s, e.handler).Cleaning? {
      assert Works(s.handlers[e.handler]);
    } else if e.Publish? && At(s, e.handler).Equipped? {
      assert Works(s.handlers[e.handler]);
    } else if e.Fail? && At(s, e.handler).Running? {
      assert Holds(s.handlers[e.handler]) && HandlerOk(s, s.handlers[e.handler]);
    } else if e.Arrive? && s.listener.None? {
      NobodyRefers(s);
    }
  }

  // Without a listener and with nobody in the set-up, nobody comes for a stored pool.
  lemma NobodyRefers(s: Job)
    requires s.listener.None? && forall i :: 0 <= i < |s.handlers| ==> !InInit(s.handlers[i])
    ensures !Referenced(s)
  {
  }

  lemma {:induction false} StoredForOneRun(s: Job, events: seq<Event>)
    requires Invariant(s) && StoredForOne(s) && Serial(s, events)
    ensures StoredForOne(Run(s, events))
    decreases |events|
  {
    if events != [] {
      hide Invariant, StoredForOne, Next;
      InvariantNext(s, events[0]);
      StoredForOneNext(s, events[0]);
      StoredForOneRun(Next(s, events[0]), events[1..]);
    }
  }

  /** The unwrap never finds the slot empty, never do two handlers hold a pool, and a pool
      is never stored while a handler works with one. */
  lemma {:induction false} HandOverIsSafe(events: seq<Event>)
    requires Serial(Start, events)
    ensures var s := Run(Start, events); NoPanic(s) && OneHolder(s) && StoredForOne(s)
  {
    StartIsInvariant();
    InvariantRun(Start, events);
    StoredForOneRun(Start, events);
    hide Run, Serial;
  }

  lemma {:induction false} PoolOfChannelIsFixed(s: Job, events: seq<Event>, c: nat)
    requires c < |s.channels|
    ensures c < |Run(s, events).channels|
    ensures Run(s, events).channels[c].pool == s.channels[c].pool
    decreases |events|
  {
    if events != [] {
      PoolOfChannelIsFixed(Next(s, events[0]), events[1..], c);
    }
  }

  lemma RunnerOwnsItsChannel(s: Job, i: nat)
    requires Invariant(s) && At(s, i).Running?
    ensures Known(s, At(s, i).channel) && s.channels[At(s, i).channel].pool == At(s, i).pool
  {
    assert HandlerOk(s, s.handlers[i]);
  }

  lemma NotifiedFindsItsPool(s: Job, j: nat)
    requires Invariant(s) && At(s, j).Signalled?
    ensures Known(s, At(s, j).channel) && s.slot == Some(s.channels[At(s, j).channel].pool)
  {
    assert HandlerOk(s, s.handlers[j]) && Refers(s.handlers[j], |s.channels| - 1);
  }

  /** If a handler ran its loop with a pool, then whichever later handler is notified
      through the listener it left takes exactly that pool. */
  lemma {:induction false} ReconnectGetsThePool(a: seq<Event>, i: nat, b: seq<Event>, j: nat)
    requires Serial(Start, a + b)
    requires At(Run(Start, a), i).Running?
    requires At(Run(Start, a + b), j) == Signalled(At(Run(Start, a), i).channel)
    ensures var pool := At(Run(Start, a), i).pool;
      At(Next(Run(Start, a + b), TakePool(j)), j) == Equipped(pool)
  {
    hide Invariant, Serial, Run;
    SerialConcat(Start, a, b);
    StartIsInvariant();
    InvariantRun(Start, a);
    InvariantRun(Start, a + b);
    RunConcat(Start, a, b);
    var s, t := Run(Start, a), Run(Start, a + b);
    RunnerOwnsItsChannel(s, i);
    PoolOfChannelIsFixed(s, b, At(s, i).channel);
    NotifiedFindsItsPool(t, j);
  }

  // ---------- connections that overlap in the set-up ----------

  lemma {:induction false} RunOfTwo(s: Job, a: Event, b: Event)
    ensures Run(s, [a, b]) == Next(Next(s, a), b)
  {
    assert [a, b][1..] == [b];
    assert Run(Next(s, a), [b]) == Run(Next(Next(s, a), b), []);
  }

  lemma {:induction false} RunOfFour(s: Job, a: Event, b: Event, c: Event, d: Event)
    ensures Run(s, [a, b, c, d]) == Next(Next(Next(Next(s, a), b), c), d)
  {
    hide Next;
    assert [a, b, c, d] == [a, b] + [c, d];
    RunConcat(s, [a, b], [c, d]);
    RunOfTwo(s, a, b);
    RunOfTwo(Next(Next(s, a), b), c, d);
  }

  lemma NoListenerDuringSetUp(s: Job, i: nat)
    requires Invariant(s) && InInit(At(s, i))
    ensures s.listener.None?
  {
    assert HandlerOk(s, s.handlers[i]);
  }

  /** Without the assumption safety is lost from everywhere: after every serial run that
      leaves a connection in the set-up, two more arrivals can both come to run a loop,
      because neither finds a listener and each makes a pool of its own. */
  lemma {:induction false} OverlappingArrivalsRunTwoLoops(a: seq<Event>, i: nat)
    requires Serial(Start, a) && InInit(At(Run(Start, a), i))
    ensures var n := |Run(Start, a).handlers|;
      var s := Run(Start, a + [Arrive, Arrive, Publish(n), Publish(n + 1)]);
      At(s, n).Running? && At(s, n + 1).Running? && At(s, n).pool != At(s, n + 1).pool
  {
    hide Invariant, Serial, Run;
    InvariantRun(Start, a);
    var s := Run(Start, a);
    var n := |s.handlers|;
    NoListenerDuringSetUp(s, i);
    RunConcat(Start, a, [Arrive, Arrive, Publish(n), Publish(n + 1)]);
    RunOfFour(s, Arrive, Arrive, Publish(n), Publish(n + 1));
    var t := Next(Next(s, Arrive), Arrive);
    assert t.handlers == s.handlers + [Equipped(s.nextPool), Equipped(s.nextPool + 1)];
    var u := Next(t, Publish(n));
    assert At(u, n).Running? && At(u, n + 1) == Equipped(s.nextPool + 1);
  }

  // ---------- abandoned jobs ----------

  /** The listener everybody must pass through belongs to a sender that is gone. */
  predicate Stuck(s: Job) {
    && s.channels != [] && s.channels[|s.channels| - 1].link == Closed
    && Referenced(s)
    && (forall i :: 0 <= i < |s.handlers| ==> !Holds(s.handlers[i]) && !s.handlers[i].Equipped?)
  }

  lemma {:induction false} StuckNext(s: Job, e: Event)
    requires Invariant(s) && Stuck(s) && Serial(s, [e])
    ensures Stuck(Next(s, e))
  {
    if !e.TakePool? && !e.Publish? && !e.Clean? {
      ReferencedNext(s, e);
    }
  }

  lemma {:induction false} StuckForever(s: Job, events: seq<Event>)
    requires Invariant(s) && Stuck(s) && Serial(s, events)
    ensures Stuck(Run(s, events))
    decreases |events|
  {
    if events != [] {
      InvariantNext(s, events[0]);
      StuckNext(s, events[0]);
      StuckForever(Next(s, events[0]), events[1..]);
    }
  }

  /** A handler that ends without an error and without a stop leaves a dead listener
      behind: no later connection of the job ever gets to hold a pool. */
  lemma {:induction false} AbandonedJobNeverRunsAgain(a: seq<Event>, i: nat, b: seq<Event>)
    requires Serial(Start, a + [Abandon(i)] + b)
    requires At(Run(Start, a), i).Running?
    ensures var s := Run(Start, a + [Abandon(i)] + b);
      forall k :: 0 <= k < |s.handlers| ==> !Holds(s.handlers[k])
  {
    SerialConcat(Start, a + [Abandon(i)], b);
    SerialConcat(Start, a, [Abandon(i)]);
    RunConcat(Start, a + [Abandon(i)], b);
    RunConcat(Start, a, [Abandon(i)]);
    InvariantRun(Start, a);
    var s := Run(Start, a);
    assert HandlerOk(s, s.handlers[i]);
    ReferencedNext(s, Abandon(i));
    var t := Next(s, Abandon(i));
    assert Run(s, [Abandon(i)]) == Run(t, []) == t;
    InvariantNext(s, Abandon(i));
    StuckForever(t, b);
  }

  // ---------- when a later connection gets a pool ----------

  // The job is between connections: nobody is in the set-up and nobody holds a pool.
  predicate Quiet(s: Job) {
    forall i :: 0 <= i < |s.handlers| ==> !InInit(s.handlers[i]) && !Holds(s.handlers[i])
  }

  predicate SomeoneHolds(s: Job) {
    exists i :: 0 <= i < |s.handlers| && Holds(s.handlers[i])
  }

  /** There is no listener to wait for, or it was notified. */
  predicate Admits(s: Job) {
    s.listener.None? || (Known(s, s.listener.value) && s.channels[s.listener.value].link.Sent?)
  }

  // A channel that is still open belongs to a handler with a pool.
  predicate OpenIsHeld(s: Job) {
    s.channels != [] && s.channels[|s.channels| - 1].link.Open? ==> SomeoneHolds(s)
  }

  lemma HolderIsCurrent(s: Job, i: nat)
    requires Invariant(s) && Holds(At(s, i))
    ensures Current(s, At(s, i).channel)
  {
    assert HandlerOk(s, s.handlers[i]);
  }

  lemma {:induction false} OpenIsHeldNext(s: Job, e: Event)
    requires Invariant(s) && OpenIsHeld(s)
    ensures OpenIsHeld(Next(s, e))
  {
    hide Invariant;
    var t := Next(s, e);
    if e.Publish? && t != s {
      assert Holds(t.handlers[e.handler]);
    } else if t.channels != [] && t.channels[|t.channels| - 1].link.Open? {
      var i :| 0 <= i < |s.handlers| && Holds(s.handlers[i]);
      HolderIsCurrent(s, i);
      assert Holds(t.handlers[i]);
    }
  }

  lemma {:induction false} OpenIsHeldRun(s: Job, events: seq<Event>)
    requires Invariant(s) && OpenIsHeld(s) && Serial(s, events)
    ensures OpenIsHeld(Run(s, events))
    decreases |events|
  {
    if events != [] {
      InvariantNext(s, events[0]);
      OpenIsHeldNext(s, events[0]);
      OpenIsHeldRun(Next(s, events[0]), events[1..]);
    }
  }

  // With no listener a connection makes its own pool.
  lemma {:induction false} NewPoolIsRun(s: Job)
    requires Quiet(s) && s.listener.None?
    ensures var n := |s.handlers|;
      var events := [Arrive, Publish(n)];
      Serial(s, events) && SomeoneHolds(Run(s, events))
  {
    var n := |s.handlers|;
    RunOfTwo(s, Arrive, Publish(n));
    var t := Next(s, Arrive);
    assert At(t, n).Equipped?;
    assert Holds(Next(t, Publish(n)).handlers[n]);
    assert [Arrive, Publish(n)][1..] == [Publish(n)];
    assert Serial(t, [Publish(n)]);
  }

  lemma {:induction false} NotifiedHasAPool(s: Job)
    requires Invariant(s) && s.listener.Some? && Admits(s)
    ensures s.slot.Some?
  {
  }

  // With a notified listener it takes the stored pool.
  lemma {:induction false} StoredPoolIsRun(s: Job)
    requires Quiet(s) && s.listener.Some? && Admits(s) && s.slot.Some?
    ensures var n := |s.handlers|;
      var events := [Arrive, Notify(n), TakePool(n), Publish(n)];
      Serial(s, events) && SomeoneHolds(Run(s, events))
  {
    var n := |s.handlers|;
    var events := [Arrive, Notify(n), TakePool(n), Publish(n)];
    RunOfFour(s, Arrive, Notify(n), TakePool(n), Publish(n));
    var t1 := Next(s, Arrive);
    assert At(t1, n).Waiting?;
    var t2 := Next(t1, Notify(n));
    assert At(t2, n).Signalled? && t2.slot == s.slot;
    var t3 := Next(t2, TakePool(n));
    assert At(t3, n).Equipped?;
    assert Holds(Next(t3, Publish(n)).handlers[n]);
    NoMoreArrivals(t1, events[1..]);
  }

  lemma {:induction false} NoMoreArrivals(s: Job, events: seq<Event>)
    requires forall i :: 0 <= i < |events| ==> !events[i].Arrive?
    ensures Serial(s, events)
    decreases |events|
  {
    if events != [] {
      NoMoreArrivals(Next(s, events[0]), events[1..]);
    }
  }

  /** Between connections, a later connection can come to hold a pool if and only if
      there is no listener or it was notified; otherwise none ever does. */
  lemma {:induction false} LaterConnectionGetsAPool(a: seq<Event>)
    requires Serial(Start, a) && Quiet(Run(Start, a))
    ensures (exists b :: Serial(Start, a + b) && SomeoneHolds(Run(Start, a + b))) <==> Admits(Run(Start, a))
  {
    var s := Run(Start, a);
    InvariantRun(Start, a);
    OpenIsHeldRun(Start, a);
    if Admits(s) {
      var n := |s.handlers|;
      var b := if s.listener.None? then [Arrive, Publish(n)] else [Arrive, Notify(n), TakePool(n), Publish(n)];
      if s.listener.None? { NewPoolIsRun(s); } else { NotifiedHasAPool(s); StoredPoolIsRun(s); }
      SerialConcat(Start, a, b);
      RunConcat(Start, a, b);
    } else {
      assert Stuck(s);
      forall b | Serial(Start, a + b) ensures !SomeoneHolds(Run(Start, a + b)) {
        SerialConcat(Start, a, b);
        RunConcat(Start, a, b);
        StuckForever(s, b);
      }
    }
  }

  lemma {:induction false} StopLeavesADeadListener(s: Job, i: nat, j: nat)
    requires At(s, i).Running? && At(s, j).Waiting?
    requires At(s, i).channel == At(s, j).channel && Known(s, At(s, i).channel)
    requires forall k :: 0 <= k < |s.handlers| && k != i ==> !Holds(s.handlers[k])
    requires forall k :: 0 <= k < |s.handlers| && k != j ==> !InInit(s.handlers[k])
    ensures var t := Run(s, [Stop(i), Clean(i), Refuse(j), PutBack(j)]); Quiet(t) && !Admits(t)
  {
    RunOfFour(s, Stop(i), Clean(i), Refuse(j), PutBack(j));
    var t := Next(Next(s, Stop(i)), Clean(i));
    assert At(t, j) == At(s, j) && At(t, i).Gone? && t.channels[At(s, i).channel].link.Closed?;
  }

  /** A stop shuts later connections out as well when a successor already waits: after
      every serial run that leaves one handler running and another one waiting, the
      listener that goes back belongs to the handler that stopped. */
  lemma {:induction false} StopWithASuccessorShutsOut(a: seq<Event>, i: nat, j: nat)
    requires Serial(Start, a) && At(Run(Start, a), i).Running? && At(Run(Start, a), j).Waiting?
    ensures var b := [Stop(i), Clean(i), Refuse(j), PutBack(j)];
      Serial(Start, a + b) && Quiet(Run(Start, a + b)) && !Admits(Run(Start, a + b))
  {
    hide Next, Run, Serial, Quiet, Admits;
    var b := [Stop(i), Clean(i), Refuse(j), PutBack(j)];
    var s := Run(Start, a);
    InvariantRun(Start, a);
    NoMoreArrivals(s, b);
    SerialConcat(Start, a, b);
    RunConcat(Start, a, b);
    assert HandlerOk(s, s.handlers[i]) && HandlerOk(s, s.handlers[j]);
    StopLeavesADeadListener(s, i, j);
  }

  /** Without one it does not: the listener goes, and the next connection is admitted. */
  lemma {:induction false} StopAloneAdmits(a: seq<Event>, i: nat)
    requires Serial(Start, a) && At(Run(Start, a), i).Running?
    requires forall j :: 0 <= j < |Run(Start, a).handlers| ==> !InInit(Run(Start, a).handlers[j])
    ensures var b := [Stop(i), Clean(i)];
      Serial(Start, a + b) && Quiet(Run(Start, a + b)) && Admits(Run(Start, a + b))
  {
    var b := [Stop(i), Clean(i)];
    var s := Run(Start, a);
    InvariantRun(Start, a);
    NoMoreArrivals(s, b);
    SerialConcat(Start, a, b);
    RunConcat(Start, a, b);
    RunOfTwo(s, Stop(i), Clean(i));
    assert HandlerOk(s, s.handlers[i]);
  }
}
