/** That a get of the connection pool delivers: which connections it takes, and that it
    hands out those which turn out ready. */
module PoolDelivery {
  import opened Arithmetic
  import opened PoolMachine
  import opened PoolGuarantees

  // ---------- what a get takes ----------

  /** How many connections a get takes off a queue: no more than it was asked for and,
      unless the pool is elastic, no more than there is room for under the target. */
  function Taken(request: nat, queued: nat, elastic: bool, busy: int, maxConnection: nat): nat {
    var wanted := Min(request, queued);
    if elastic then wanted else Min(wanted, Max(0, maxConnection - busy))
  }

  predicate AllUnmarked(cs: seq<Connection>) { forall k :: 0 <= k < |cs| ==> !cs[k].shouldDrop }

  lemma {:induction false} UnmarkedAreUsable(cs: seq<Connection>)
    requires AllUnmarked(cs)
    ensures Usable(cs) == cs
  {
    if cs != [] {
      var n := |cs| - 1;
      assert AllUnmarked(cs[..n]);
      UnmarkedAreUsable(cs[..n]);
      assert cs == cs[..n] + [cs[n]];
    }
  }

  // What is left of the queue when the size has been settled.
  lemma SettledIsPrefix(s: Pool)
    requires s.phase.Claimed? && s.busy >= s.phase.returned
    ensures var queue := s.connections + s.newConnections;
      var left := if s.elastic then |queue| else Min(|queue|, Max(0, s.maxConnection - (s.busy - s.phase.returned)));
      Settled(s).connections == queue[..left] && Settled(s).phase == s.phase
  {
  }

  /** A get takes the oldest connections of the queue, those returned before those newly
      opened, and all that are not marked are asked whether they are ready. */
  lemma SelectTakesTheOldest(s: Pool)
    requires s.phase.Claimed? && s.busy >= s.phase.returned
    ensures var queue := s.connections + s.newConnections;
      var n := Taken(s.phase.request, |queue|, s.elastic, s.busy - s.phase.returned, s.maxConnection);
      var t := Next(s, GetSelect);
      && n <= |queue| && t.phase == Probing(Usable(queue[..n]), [], n - |Usable(queue[..n])|, 0)
      && (AllUnmarked(queue[..n]) ==> t.phase == Probing(queue[..n], [], 0, 0))
  {
    hide Settled, Usable, AllUnmarked;
    var queue := s.connections + s.newConnections;
    var n := Taken(s.phase.request, |queue|, s.elastic, s.busy - s.phase.returned, s.maxConnection);
    SettledIsPrefix(s);
    assert Settled(s).connections[..n] == queue[..n];
    if AllUnmarked(queue[..n]) {
      UnmarkedAreUsable(queue[..n]);
    }
  }

  // ---------- what a get hands out ----------

  /** The same connection, lent once more. */
  predicate SameLent(lent: Connection, idle: Connection) {
    && lent.expireAt == idle.expireAt && lent.remainingReuse == idle.remainingReuse
    && lent.shouldDrop == idle.shouldDrop && lent.cameBack == idle.cameBack && lent.lends == idle.lends + 1
  }

  /** What is handed out are the chosen connections, in some order. */
  ghost predicate Delivers(vec: seq<Connection>, chosen: seq<Connection>) {
    exists ready: seq<Connection> ::
      (&& multiset(ready) == multiset(chosen) && |ready| == |vec|
       && forall k :: 0 <= k < |vec| ==> SameLent(vec[k], ready[k]))
  }

  lemma LendingDelivers(ready: seq<Connection>, chosen: seq<Connection>, clock: nat)
    requires multiset(ready) == multiset(chosen)
    ensures Delivers(LendAll(ready, clock), chosen) && |LendAll(ready, clock)| == |chosen|
  {
    assert |multiset(ready)| == |multiset(chosen)|;
    assert forall k :: 0 <= k < |ready| ==> SameLent(LendAll(ready, clock)[k], ready[k]);
  }

  // ---------- a fresh pool ----------

  // The answers of n connections that are all ready.
  function Answers(n: nat): seq<Event> {
    if n == 0 then [] else [ProbeDone(0, true)] + Answers(n - 1)
  }

  lemma {:induction false} AnswersCollect(s: Pool, n: nat)
    requires s.phase.Probing? && |s.phase.probing| == n
    ensures var p := s.phase;
      Run(s, Answers(n)) == s.(phase := Probing([], p.ready + p.probing, p.dropped, p.broken))
    decreases n
  {
    var p := s.phase;
    if n == 0 {
      assert p.ready + p.probing == p.ready;
    } else {
      var t := Next(s, ProbeDone(0, true));
      assert Remove(p.probing, 0) == p.probing[1..];
      assert p.ready + [p.probing[0]] + p.probing[1..] == p.ready + p.probing;
      AnswersCollect(t, n - 1);
      assert Answers(n)[1..] == Answers(n - 1);
    }
  }

  /** A pool at rest with a new connection for each expiry, none of them ever lent. */
  predicate Fresh(s: Pool, limit: nat, expiries: seq<nat>) {
    && s.phase.Resting? && !s.elastic && s.maxConnection == |expiries| && s.busy == 0
    && s.connections == [] && s.recyclable == [] && s.tasks.handed == [] && s.tasks.clock == 0
    && |s.newConnections| == |expiries|
    && forall k :: 0 <= k < |expiries| ==> s.newConnections[k] == Connection(false, expiries[k], limit, 0, 0, [])
  }

  lemma OpenedIsFresh(limit: nat, expiries: seq<nat>)
    requires expiries != []
    ensures Fresh(Run(Init(limit, false), [Resize(|expiries|), OpenReport(0, expiries), OpenPublish(0)]),
                  limit, expiries)
  {
    var n := |expiries|;
    RunOfThree(Init(limit, false), [Resize(n), OpenReport(0, expiries), OpenPublish(0)]);
    var s1 := Next(Init(limit, false), Resize(n));
    assert s1.tasks.opening == [n];
    var s2 := Next(s1, OpenReport(0, expiries));
    assert |s2.tasks.connected| == 1;
  }

  /** A get of a fresh pool whose connections are all ready. */
  function ReadyGet(request: nat, n: nat): seq<Event> {
    [GetBegin(request), GetSelect] + Answers(n) + [GetFinish]
  }

  lemma TasksAtSelect(s: Pool)
    requires s.phase.Claimed?
    ensures var t := Next(s, GetSelect); t.tasks.handed == s.tasks.handed && t.tasks.clock == s.tasks.clock
  {
  }

  // What a fresh pool selects.
  lemma FreshSelect(s: Pool, limit: nat, expiries: seq<nat>, request: nat)
    requires Fresh(s, limit, expiries)
    ensures var t := Next(Next(s, GetBegin(request)), GetSelect);
      var n := Min(request, |expiries|);
      t.phase == Probing(s.newConnections[..n], [], 0, 0) && t.tasks.handed == [] && t.tasks.clock == 0
  {
    var s1 := Next(s, GetBegin(request));
    assert s1.connections == [] && s1.connections + s1.newConnections == s.newConnections;
    assert AllUnmarked(s.newConnections[..Min(request, |expiries|)]);
    hide Settled, TakeFront, AllUnmarked, Usable;
    SelectTakesTheOldest(s1);
    TasksAtSelect(s1);
  }

  lemma FinishHandsOut(s: Pool, ready: seq<Connection>)
    requires s.phase == Probing([], ready, 0, 0) && s.tasks.handed == []
    ensures var t := Next(s, GetFinish); t.phase.Resting? && t.tasks.handed == LendAll(ready, s.tasks.clock)
  {
    assert [] + LendAll(ready, s.tasks.clock) == LendAll(ready, s.tasks.clock);
    hide LendAll;
  }

  lemma FreshGet(s: Pool, limit: nat, expiries: seq<nat>, request: nat)
    requires Fresh(s, limit, expiries)
    ensures var n := Min(request, |expiries|);
      var t := Run(s, ReadyGet(request, n));
      t.phase.Resting? && t.tasks.handed == LendAll(s.newConnections[..n], 0)
  {
    hide Run, Next, LendAll, Answers;
    var n := Min(request, |expiries|);
    var selected := Next(Next(s, GetBegin(request)), GetSelect);
    var ready := s.newConnections[..n];
    FreshSelect(s, limit, expiries, request);
    RunOfTwo(s, GetBegin(request), GetSelect);
    RunConcat(s, [GetBegin(request), GetSelect], Answers(n));
    AnswersCollect(selected, n);
    assert [] + ready == ready;
    RunSnoc(s, [GetBegin(request), GetSelect] + Answers(n), GetFinish);
    FinishHandsOut(Run(selected, Answers(n)), ready);
  }

  lemma RunOfTwo(s: Pool, a: Event, b: Event)
    ensures Run(s, [a, b]) == Next(Next(s, a), b)
  {
    assert [a, b][1..] == [b];
    assert Run(Next(s, a), [b]) == Run(Next(Next(s, a), b), []);
  }

  /** A pool that was resized and whose opens all succeeded lends what it is asked for, as
      far as it has connections: the ones opened first, each for its first time. */
  lemma FreshPoolDelivers(limit: nat, expiries: seq<nat>, request: nat)
    requires expiries != []
    ensures var n := Min(request, |expiries|);
      var opens := [Resize(|expiries|), OpenReport(0, expiries), OpenPublish(0)];
      var t := Run(Init(limit, false), opens + ReadyGet(request, n));
      && t.phase.Resting? && |t.tasks.handed| == n
      && forall k :: 0 <= k < n ==> t.tasks.handed[k] == Connection(false, expiries[k], limit, 1, 0, [])
  {
    var n := Min(request, |expiries|);
    var opens := [Resize(|expiries|), OpenReport(0, expiries), OpenPublish(0)];
    var s := Run(Init(limit, false), opens);
    hide Run, Next, ReadyGet;
    OpenedIsFresh(limit, expiries);
    FreshGet(s, limit, expiries, request);
    RunConcat(Init(limit, false), opens, ReadyGet(request, n));
  }
}
