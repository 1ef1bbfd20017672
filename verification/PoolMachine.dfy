/** The connection pool of a secondary as an event machine.

    The owner of the pool runs two operations, a resize and a get. A get is cut
    at its suspension points, because connections are returned, opened and
    removed by other tasks while it waits. Every other event is one atomic piece
    of such a task. An event that is not possible in a state leaves it unchanged,
    so that every sequence of events is a run. */
module PoolMachine {
  import opened Arithmetic

  const I32_MAX: nat := 0x7fff_ffff

  /** `lends`, `lateLends` and `cameBack` are history: how often the connection was handed
      out, how often that happened after its expiry, and when it came back. */
  datatype Connection = Connection(shouldDrop: bool, expireAt: nat, remainingReuse: int,
                                   lends: nat, lateLends: nat, cameBack: seq<nat>)

  /** Where the owner is inside a get. */
  datatype Phase =
    | Resting
    | Claimed(request: nat, returned: nat)
    | Probing(probing: seq<Connection>, ready: seq<Connection>, dropped: nat, broken: nat)

  /** `discarded` is history: the idle connections thrown away by a drain, an
      expiry or a breakage. */
  datatype Metrics = Metrics(success: nat, dropped: nat, broken: nat, idle: int, busy: int, discarded: nat)

  /** Connections and tasks outside the pool. A batch of opens is first connecting,
      then connected and waiting to be added.

      A lent connection is first handed to the sender. When its request is dispatched it
      is one that its send task will return, or one that this task will drop because it
      panics; which of the two is decided at the dispatch, as an arbitrary choice, and
      shows later. A connection that was dropped is lost: no task will return it. */
  datatype Tasks = Tasks(
    handed: seq<Connection>,
    sending: seq<Connection>,
    doomed: seq<Connection>,
    lost: seq<Connection>,
    returning: seq<Connection>,
    opening: seq<nat>,
    connected: seq<seq<Connection>>,
    shrink: nat,
    lateShrinks: seq<nat>,
    clock: nat)

  /** History: connections removed by late shrink tasks, the highest target so
      far, and whether the pool was ever elastic. */
  datatype History = History(lateRemoved: nat, peak: nat, everElastic: bool)

  datatype Pool = Pool(
    limit: nat,
    elastic: bool,
    maxConnection: nat,
    connections: seq<Connection>,
    recyclable: seq<Connection>,
    newConnections: seq<Connection>,
    busy: int,
    failed: nat,
    metrics: Metrics,
    phase: Phase,
    tasks: Tasks,
    history: History)

  datatype Event =
    | Resize(count: nat)
    | GetBegin(request: nat)
    | GetSelect
    | ProbeDone(index: nat, ok: bool)
    | GetFinish
    | Drop
    | SendOff(dooms: seq<bool>)
    | Lose(index: nat)
    | ReturnBegin(index: nat)
    | ReturnPush(index: nat)
    | OpenReport(index: nat, expiries: seq<nat>)
    | OpenPublish(index: nat)
    | Shrink
    | ShrinkLate(index: nat)
    | Advance(time: nat)

  // The events of other tasks; the rest belong to the owner of the pool.
  predicate IsEnvironment(e: Event) {
    e.Lose? || e.ReturnBegin? || e.ReturnPush? || e.OpenReport? || e.OpenPublish? ||
    e.Shrink? || e.ShrinkLate? || e.Advance?
  }

  // ---------- task lists ----------

  function Lengths(xs: seq<seq<Connection>>): nat {
    if xs == [] then 0 else |xs[0]| + Lengths(xs[1..])
  }

  function Remove<T>(xs: seq<T>, i: nat): seq<T>
    requires i < |xs|
  {
    xs[..i] + xs[i + 1..]
  }

  // ---------- single connections ----------

  function ReuseLimit(maxRequests: nat): nat {
    if maxRequests <= I32_MAX then maxRequests else I32_MAX
  }

  function Opened(limit: nat, expiries: seq<nat>): seq<Connection> {
    seq(|expiries|, i requires 0 <= i < |expiries| => Connection(false, expiries[i], limit, 0, 0, []))
  }

  function Lend(c: Connection, clock: nat): Connection {
    c.(lends := c.lends + 1, lateLends := c.lateLends + if c.expireAt < clock then 1 else 0)
  }

  function LendAll(cs: seq<Connection>, clock: nat): (r: seq<Connection>)
    ensures |r| == |cs|
  {
    seq(|cs|, i requires 0 <= i < |cs| => Lend(cs[i], clock))
  }

  function Returned(c: Connection, clock: nat): Connection {
    c.(shouldDrop := c.shouldDrop || c.expireAt < clock || c.remainingReuse <= 1,
       remainingReuse := c.remainingReuse - 1,
       cameBack := c.cameBack + [clock])
  }

  function Usable(cs: seq<Connection>): (r: seq<Connection>)
    ensures |r| <= |cs|
  {
    if cs == [] then []
    else
      var last := |cs| - 1;
      Usable(cs[..last]) + if cs[last].shouldDrop then [] else [cs[last]]
  }

  // The usable connections are those that are not marked.
  lemma {:induction false} UsableAreUnmarked(cs: seq<Connection>)
    ensures forall c :: c in Usable(cs) <==> c in cs && !c.shouldDrop
  {
    if cs != [] {
      var last := |cs| - 1;
      UsableAreUnmarked(cs[..last]);
      assert cs == cs[..last] + [cs[last]];
    }
  }

  // A batch of opens is only started for a positive number of connections.
  function Spawn(opening: seq<nat>, count: nat): seq<nat> {
    if count == 0 then opening else opening + [count]
  }

  // ---------- the owner's events ----------

  function Init(limit: nat, elastic: bool): Pool {
    Pool(limit, elastic, 0, [], [], [], 0, 0, Metrics(0, 0, 0, 0, 0, 0), Resting,
         Tasks([], [], [], [], [], [], [], 0, [], 0), History(0, 0, elastic))
  }

  // A shrink task that has not run when the owner starts its next operation is late.
  function RetireShrink(t: Tasks): (r: Tasks)
    ensures r.shrink == 0
  {
    if t.shrink == 0 then t else t.(shrink := 0, lateShrinks := t.lateShrinks + [t.shrink])
  }

  function Kept(connections: seq<Connection>, count: nat): seq<Connection> {
    if |connections| > count then connections[|connections| - count..] else connections
  }

  // The change requested of the resize task: a shrink when negative.
  function ResizeDiff(s: Pool, count: nat): int {
    if count > s.maxConnection
    then Max(0, count - (|s.newConnections| + s.busy + |Kept(s.connections, count)|))
    else count - s.maxConnection
  }

  function DoResize(s: Pool, count: nat): Pool {
    var kept := Kept(s.connections, count);
    var drained := |s.connections| - |kept|;
    var diff := ResizeDiff(s, count);
    var tasks := RetireShrink(s.tasks);
    s.(elastic := s.elastic && count == s.maxConnection,
       connections := kept,
       maxConnection := count,
       tasks := tasks.(opening := Spawn(tasks.opening, Max(0, diff)), shrink := Max(0, -diff)),
       history := s.history.(peak := Max(s.history.peak, count)),
       metrics := s.metrics.(dropped := s.metrics.dropped + drained,
                             discarded := s.metrics.discarded + drained))
  }

  function DoGetBegin(s: Pool, request: nat): Pool {
    s.(tasks := RetireShrink(s.tasks),
       connections := s.connections + s.recyclable,
       recyclable := [],
       phase := Claimed(request, |s.recyclable|))
  }

  // How many idle connections a non-elastic pool keeps when it re-enforces its size.
  function Room(available: nat, busy: int, maxConnection: nat): (room: nat)
    ensures busy >= 0 ==> room <= available
  {
    var diff := available + busy - maxConnection;
    if diff > 0 then Max(0, available - diff) else available
  }

  // The size the queue is cut to before connections are taken from it.
  function Keep(s: Pool, available: nat): nat
    requires s.phase.Claimed?
  {
    if s.elastic then available else Min(available, Room(available, s.busy - s.phase.returned, s.maxConnection))
  }

  // Claim the new connections and settle the size of the queue.
  function Settled(s: Pool): Pool
    requires s.phase.Claimed?
  {
    var all := s.connections + s.newConnections;
    var keep := Keep(s, |all|);
    s.(busy := s.busy - s.phase.returned,
       newConnections := [],
       connections := all[..keep],
       tasks := if s.elastic
                then s.tasks.(opening := Spawn(s.tasks.opening, Max(0, s.phase.request - |all|)))
                else s.tasks,
       metrics := s.metrics.(dropped := s.metrics.dropped + (|all| - keep),
                             idle := s.metrics.idle - (|all| - keep)))
  }

  // Take connections off the front of the queue; those marked for dropping are only counted.
  function TakeFront(s: Pool): Pool
    requires s.phase.Claimed?
  {
    var taken := Min(s.phase.request, |s.connections|);
    var usable := Usable(s.connections[..taken]);
    s.(connections := s.connections[taken..], phase := Probing(usable, [], taken - |usable|, 0))
  }

  function DoGetSelect(s: Pool): Pool
    requires s.phase.Claimed?
  {
    TakeFront(Settled(s))
  }

  function DoProbeDone(s: Pool, index: nat, ok: bool): Pool
    requires s.phase.Probing? && index < |s.phase.probing|
  {
    var c := s.phase.probing[index];
    s.(phase := s.phase.(probing := Remove(s.phase.probing, index),
                         ready := if ok then s.phase.ready + [c] else s.phase.ready,
                         broken := if ok then s.phase.broken else s.phase.broken + 1))
  }

  function DoGetFinish(s: Pool): Pool
    requires s.phase.Probing?
  {
    var p := s.phase;
    var n := |p.ready|;
    s.(failed := 0,
       busy := s.busy + n,
       phase := Resting,
       tasks := s.tasks.(opening := Spawn(s.tasks.opening, p.broken + p.dropped + s.failed),
                         handed := s.tasks.handed + LendAll(p.ready, s.tasks.clock)),
       metrics := s.metrics.(broken := s.metrics.broken + p.broken,
                             dropped := s.metrics.dropped + p.broken + p.dropped,
                             busy := s.metrics.busy + n,
                             idle := s.metrics.idle - n,
                             discarded := s.metrics.discarded + p.broken + p.dropped))
  }

  // There is no request: the connections handed out are dropped.
  function DoDrop(s: Pool): Pool {
    s.(tasks := s.tasks.(handed := [], lost := s.tasks.lost + s.tasks.handed))
  }

  // The connections whose flag has the value.
  function Picked(cs: seq<Connection>, flags: seq<bool>, value: bool): (r: seq<Connection>)
    requires |cs| == |flags|
    ensures |r| <= |cs| && forall c :: c in r ==> c in cs
  {
    if cs == [] then []
    else
      var n := |cs| - 1;
      Picked(cs[..n], flags[..n], value) + if flags[n] == value then [cs[n]] else []
  }

  // A request is dispatched over every connection handed out.
  function DoSendOff(s: Pool, dooms: seq<bool>): Pool
    requires |dooms| == |s.tasks.handed|
  {
    var t := s.tasks;
    s.(tasks := t.(handed := [],
                   sending := t.sending + Picked(t.handed, dooms, false),
                   doomed := t.doomed + Picked(t.handed, dooms, true)))
  }

  // ---------- the events of other tasks ----------

  // A send task panics, and a connection it held is dropped.
  function DoLose(s: Pool, index: nat): Pool
    requires index < |s.tasks.doomed|
  {
    var t := s.tasks;
    s.(tasks := t.(doomed := Remove(t.doomed, index), lost := t.lost + [t.doomed[index]]))
  }

  function DoReturnBegin(s: Pool, index: nat): Pool
    requires index < |s.tasks.sending|
  {
    var t := s.tasks;
    s.(tasks := t.(sending := Remove(t.sending, index),
                   returning := t.returning + [Returned(t.sending[index], t.clock)]),
       metrics := s.metrics.(busy := s.metrics.busy - 1, idle := s.metrics.idle + 1))
  }

  function DoReturnPush(s: Pool, index: nat): Pool
    requires index < |s.tasks.returning|
  {
    s.(tasks := s.tasks.(returning := Remove(s.tasks.returning, index)),
       recyclable := s.recyclable + [s.tasks.returning[index]])
  }

  function DoOpenReport(s: Pool, index: nat, expiries: seq<nat>): Pool
    requires index < |s.tasks.opening| && |expiries| <= s.tasks.opening[index]
  {
    var n := |expiries|;
    var t := s.tasks;
    s.(tasks := t.(opening := Remove(t.opening, index),
                   connected := t.connected + [Opened(s.limit, expiries)]),
       failed := s.failed + (t.opening[index] - n),
       metrics := s.metrics.(success := s.metrics.success + n, idle := s.metrics.idle + n))
  }

  function DoOpenPublish(s: Pool, index: nat): Pool
    requires index < |s.tasks.connected|
  {
    s.(tasks := s.tasks.(connected := Remove(s.tasks.connected, index)),
       newConnections := s.newConnections + s.tasks.connected[index])
  }

  function RemoveNew(s: Pool, removed: nat): Pool
    requires removed <= |s.newConnections|
  {
    s.(newConnections := s.newConnections[..|s.newConnections| - removed],
       metrics := s.metrics.(dropped := s.metrics.dropped + removed, idle := s.metrics.idle - removed))
  }

  function DoShrink(s: Pool): Pool {
    RemoveNew(s, Min(s.tasks.shrink, |s.newConnections|)).(tasks := s.tasks.(shrink := 0))
  }

  function DoShrinkLate(s: Pool, index: nat): Pool
    requires index < |s.tasks.lateShrinks|
  {
    var t := s.tasks;
    var removed: nat := Min(t.lateShrinks[index], |s.newConnections|);
    RemoveNew(s, removed).(tasks := t.(lateShrinks := Remove(t.lateShrinks, index)),
                           history := s.history.(lateRemoved := s.history.lateRemoved + removed))
  }

  // ---------- runs ----------

  predicate Possible(s: Pool, e: Event) {
    match e
    case Resize(_) => s.phase.Resting?
    case GetBegin(_) => s.phase.Resting?
    case GetSelect => s.phase.Claimed?
    case ProbeDone(i, _) => s.phase.Probing? && i < |s.phase.probing|
    case GetFinish => s.phase.Probing? && s.phase.probing == []
    case Drop => s.phase.Resting?
    case SendOff(dooms) => s.phase.Resting? && |dooms| == |s.tasks.handed|
    case Lose(i) => i < |s.tasks.doomed|
    case ReturnBegin(i) => i < |s.tasks.sending|
    case ReturnPush(i) => i < |s.tasks.returning|
    case OpenReport(i, expiries) => i < |s.tasks.opening| && |expiries| <= s.tasks.opening[i]
    case OpenPublish(i) => i < |s.tasks.connected|
    case Shrink => true
    case ShrinkLate(i) => i < |s.tasks.lateShrinks|
    case Advance(_) => true
  }

  function Next(s: Pool, e: Event): Pool {
    if !Possible(s, e) then s else
    match e
    case Resize(count) => DoResize(s, count)
    case GetBegin(request) => DoGetBegin(s, request)
    case GetSelect => DoGetSelect(s)
    case ProbeDone(i, ok) => DoProbeDone(s, i, ok)
    case GetFinish => DoGetFinish(s)
    case Drop => DoDrop(s)
    case SendOff(dooms) => DoSendOff(s, dooms)
    case Lose(i) => DoLose(s, i)
    case ReturnBegin(i) => DoReturnBegin(s, i)
    case ReturnPush(i) => DoReturnPush(s, i)
    case OpenReport(i, expiries) => DoOpenReport(s, i, expiries)
    case OpenPublish(i) => DoOpenPublish(s, i)
    case Shrink => DoShrink(s)
    case ShrinkLate(i) => DoShrinkLate(s, i)
    case Advance(t) => s.(tasks := s.tasks.(clock := Max(s.tasks.clock, t)))
  }

  function Run(s: Pool, events: seq<Event>): Pool
    decreases |events|
  {
    if events == [] then s else Run(Next(s, events[0]), events[1..])
  }

  lemma {:induction false} RunConcat(s: Pool, a: seq<Event>, b: seq<Event>)
    ensures Run(s, a + b) == Run(Run(s, a), b)
    decreases |a|
  {
    if a == [] {
      assert a + b == b;
    } else {
      assert (a + b)[0] == a[0] && (a + b)[1..] == a[1..] + b;
      RunConcat(Next(s, a[0]), a[1..], b);
    }
  }

  lemma RunSnoc(s: Pool, a: seq<Event>, e: Event)
    ensures Run(s, a + [e]) == Next(Run(s, a), e)
  {
    RunConcat(s, a, [e]);
    assert Run(Run(s, a), [e]) == Run(Next(Run(s, a), e), []);
  }
}
