/** One cycle of a secondary: the rate is applied to the connection pool, and requests
    are sent over the connections the pool lends until all are sent or time is up.

    The readings of the clock, the answers of the request provider and the connections the
    pool lends are arbitrary. A cycle has time for a finite number of passes, which is a
    parameter. */
module SendLoop {
  import opened Arithmetic
  import opened Results
  import opened PoolMachine
  import opened PoolGuarantees
  import opened QueuePools

  const IMMEDIATE_BUNDLE: nat := 65535

  /** Rates are spread over the cycle in bundles, or sent as fast as possible. */
  datatype Mode = Batch(configuredBundle: nat) | Immediate

  datatype Ending = NothingToDo | TimeUp | AllSent | ProviderFailed | Stuck

  datatype Dispatch<T> = Dispatch(connection: Connection, request: T)

  // ---------- filling up the requests ----------

  // The request at a position when the requests are repeated in turn.
  function InTurn<T>(requests: seq<T>, k: nat): T
    requires requests != []
  {
    requests[k % |requests|]
  }

  predicate StartsTurn(n: nat, start: nat) {
    n > 0 && start == n * (start / n)
  }

  lemma NextTurn(n: nat, start: nat)
    requires StartsTurn(n, start)
    ensures StartsTurn(n, start + n)
  {
    var q := start / n;
    assert n * (q + 1) == n * q + n;
    ModOf(q + 1, 0, n);
  }

  lemma InTurnAt<T>(requests: seq<T>, start: nat, i: nat)
    requires i < |requests| && StartsTurn(|requests|, start)
    ensures InTurn(requests, start + i) == requests[i]
  {
    ModOf(start / |requests|, i, |requests|);
  }

  lemma FirstTurn<T>(requests: seq<T>)
    requires requests != []
    ensures StartsTurn(|requests|, 0) && StartsTurn(|requests|, |requests|)
    ensures forall k :: 0 <= k < |requests| ==> InTurn(requests, k) == requests[k]
  {
    assert 0 / |requests| == 0;
    NextTurn(|requests|, 0);
    forall k | 0 <= k < |requests| ensures InTurn(requests, k) == requests[k] { InTurnAt(requests, 0, k); }
  }

  /** Repeat the requests from the start until there is one for every connection. */
  method FillRequests<T>(availableConnection: nat, requests: seq<T>) returns (filled: seq<T>)
    requires requests != [] && |requests| <= availableConnection
    ensures |filled| == availableConnection
    ensures forall k :: 0 <= k < availableConnection ==> filled[k] == InTurn(requests, k)
  {
    hide InTurn, StartsTurn;
    FirstTurn(requests);
    var availableReq := |requests|;
    var i := 0;
    ghost var start: nat := availableReq;
    var needToInsert: nat := availableConnection - availableReq;
    filled := requests;
    while needToInsert != 0
      invariant 0 <= i <= availableReq
      invariant |filled| + needToInsert == availableConnection
      invariant |filled| == start + i && StartsTurn(availableReq, start)
      invariant requests <= filled
      invariant forall k :: 0 <= k < |filled| ==> filled[k] == InTurn(requests, k)
      decreases needToInsert, i
    {
      if i < availableReq {
        InTurnAt(requests, start, i);
        filled := filled + [filled[i]];
        i := i + 1;
        needToInsert := needToInsert - 1;
      } else {
        NextTurn(availableReq, start);
        start := start + availableReq;
        i := 0;
      }
    }
  }

  // The variables of the loop above, one pass at a time, for any number of requests.
  datatype Filling = Filling(i: nat, needToInsert: nat)

  function FillPass(f: Filling, availableReq: nat): Filling {
    if f.needToInsert == 0 then f
    else if f.i < availableReq then Filling(f.i + 1, f.needToInsert - 1)
    else Filling(0, f.needToInsert)
  }

  function FillPasses(f: Filling, availableReq: nat, n: nat): Filling
    decreases n
  {
    if n == 0 then f else FillPasses(FillPass(f, availableReq), availableReq, n - 1)
  }

  lemma {:induction false} FillEnds(f: Filling, availableReq: nat) returns (n: nat)
    requires availableReq > 0
    ensures FillPasses(f, availableReq, n).needToInsert == 0
    decreases f.needToInsert, f.i
  {
    if f.needToInsert == 0 {
      n := 0;
    } else {
      n := FillEnds(FillPass(f, availableReq), availableReq);
      n := n + 1;
    }
  }

  lemma {:induction false} FillSpins(f: Filling, n: nat)
    ensures FillPasses(f, 0, n).needToInsert == f.needToInsert
    decreases n
  {
    if n > 0 { FillSpins(FillPass(f, 0), n - 1); }
  }

  /** The loop ends exactly when there is a request to repeat, or nothing to add. */
  lemma FillEndsIffRequests(availableConnection: nat, availableReq: nat)
    requires availableReq <= availableConnection
    ensures var f := Filling(0, availableConnection - availableReq);
      (exists n :: FillPasses(f, availableReq, n).needToInsert == 0) <==> availableReq > 0 || availableConnection == 0
  {
    var f := Filling(0, availableConnection - availableReq);
    if availableReq > 0 {
      var n := FillEnds(f, availableReq);
    } else if availableConnection == 0 {
      assert FillPasses(f, availableReq, 0).needToInsert == 0;
    } else {
      forall n ensures FillPasses(f, availableReq, n).needToInsert != 0 { FillSpins(f, n); }
    }
  }

  // ---------- one bundle ----------

  /** Every connection takes the last request that is left. */
  method Pair<T>(connections: seq<Connection>, requests: seq<T>) returns (sent: seq<Dispatch<T>>)
    requires |connections| <= |requests|
    ensures |sent| == |connections|
    ensures forall k :: 0 <= k < |sent| ==> sent[k] == Dispatch(connections[k], requests[|requests| - 1 - k])
  {
    sent := [];
    var left := requests;
    for k := 0 to |connections|
      invariant left == requests[..|requests| - k] && |sent| == k
      invariant forall j :: 0 <= j < k ==> sent[j] == Dispatch(connections[j], requests[|requests| - 1 - j])
    {
      var request := left[|left| - 1];
      left := left[..|left| - 1];
      sent := sent + [Dispatch(connections[k], request)];
    }
  }

  /** A bundle: each connection is used once, with the provider's requests repeated in
      turn when there are too few of them. */
  method SendBundle<T>(connections: seq<Connection>, requests: seq<T>) returns (sent: seq<Dispatch<T>>)
    requires requests != []
    ensures |sent| == |connections|
    ensures var m := Max(|connections|, |requests|);
      forall k :: 0 <= k < |sent| ==> sent[k] == Dispatch(connections[k], InTurn(requests, m - 1 - k))
  {
    var toSend := requests;
    hide InTurn, StartsTurn;
    FirstTurn(requests);
    if |requests| < |connections| {
      toSend := FillRequests(|connections|, requests);
    }
    sent := Pair(connections, toSend);
  }

  /** The connections used by dispatches. */
  function Used<T>(sent: seq<Dispatch<T>>): seq<Connection> {
    seq(|sent|, k requires 0 <= k < |sent| => sent[k].connection)
  }

  // ---------- one cycle ----------

  /** An answer of the request provider that gives nothing to send. */
  predicate NoRequest<T>(answer: Result<seq<T>>) {
    answer.Err? || answer.value == []
  }

  function BundleSize(mode: Mode, numberOfReq: nat, connectionCount: nat): nat {
    match mode
    case Immediate => IMMEDIATE_BUNDLE
    case Batch(configured) =>
      var bundle := Max(numberOfReq / 100 + 1, configured);
      if connectionCount == 0 then Min(numberOfReq, bundle)
      else Min(numberOfReq, Min(connectionCount, bundle))
  }

  /** Whether a pass may ask for m connections. A batch takes no more than there are
      connections in a pool that is not elastic, and keeps to the configured size or, if
      that is more, to a hundredth of the requests of the cycle and one. */
  predicate Allowed(mode: Mode, numberOfReq: nat, connectionCount: nat, m: nat) {
    && m <= numberOfReq
    && match mode
       case Immediate => m <= 65535
       case Batch(configured) =>
         && (connectionCount != 0 ==> m <= connectionCount)
         && (m <= configured || 100 * (m - 1) <= numberOfReq)
  }

  /** The largest number of connections a pass may ask for. */
  ghost predicate IsBundle(mode: Mode, numberOfReq: nat, connectionCount: nat, b: nat) {
    && Allowed(mode, numberOfReq, connectionCount, b)
    && forall m: nat :: Allowed(mode, numberOfReq, connectionCount, m) ==> m <= b
  }

  lemma BundleIsLargest(mode: Mode, numberOfReq: nat, connectionCount: nat)
    ensures IsBundle(mode, numberOfReq, connectionCount,
                     Min(BundleSize(mode, numberOfReq, connectionCount), numberOfReq))
  {
    forall m: nat | Allowed(mode, numberOfReq, connectionCount, m)
      ensures m <= Min(BundleSize(mode, numberOfReq, connectionCount), numberOfReq)
    {
    }
  }

  /** A cycle with a request asks for at least one connection. */
  lemma BundleIsPositive(mode: Mode, numberOfReq: nat, connectionCount: nat, b: nat)
    requires IsBundle(mode, numberOfReq, connectionCount, b) && numberOfReq >= 1
    ensures b >= 1
  {
    assert Allowed(mode, numberOfReq, connectionCount, 1);
  }

  /** With enough connections, a hundred full bundles are enough for every batch. */
  lemma HundredBundlesSuffice(configured: nat, numberOfReq: nat, connectionCount: nat, b: nat)
    requires IsBundle(Batch(configured), numberOfReq, connectionCount, b)
    requires connectionCount == 0 || 100 * connectionCount >= numberOfReq
    ensures 100 * b >= numberOfReq
  {
    var m := Min(numberOfReq, numberOfReq / 100 + 1);
    assert Allowed(Batch(configured), numberOfReq, connectionCount,
                   if connectionCount == 0 then m else Min(m, connectionCount));
  }

  // ---------- what a cycle asks for ----------

  /** One pass: the requests left, the connections asked for, and those the pool lent. */
  datatype Pass = Pass(remaining: nat, request: nat, lent: nat)

  // The requests left after a pass.
  function Left(p: Pass): int { p.remaining - p.lent }

  // What is left after the passes.
  function LeftAfter(log: seq<Pass>, numberOfReq: nat): int {
    if log == [] then numberOfReq else Left(log[|log| - 1])
  }

  /** In every pass there is something left to send, which is what the passes before have
      not sent, and as much of it is asked for as the bundle holds. */
  predicate Passes(log: seq<Pass>, numberOfReq: nat, bundle: nat) {
    log != [] ==>
      var before, p := log[..|log| - 1], log[|log| - 1];
      && Passes(before, numberOfReq, bundle)
      && 1 <= p.remaining == LeftAfter(before, numberOfReq)
      && p.request == Min(bundle, p.remaining) && p.lent <= p.request
  }

  lemma OnePassMore(log: seq<Pass>, p: Pass, numberOfReq: nat, bundle: nat)
    requires Passes(log, numberOfReq, bundle) && 1 <= p.remaining == LeftAfter(log, numberOfReq)
    requires p.request == Min(bundle, p.remaining) && p.lent <= p.request
    ensures Passes(log + [p], numberOfReq, bundle) && LeftAfter(log + [p], numberOfReq) == Left(p)
  {
    assert (log + [p])[..|log|] == log;
  }

  /** Every pass asks for a connection, and for no more than there are requests left. */
  lemma {:induction false} EveryPassAsks(log: seq<Pass>, numberOfReq: nat, bundle: nat, k: nat)
    requires Passes(log, numberOfReq, bundle) && bundle >= 1 && k < |log|
    ensures 1 <= log[k].request <= log[k].remaining <= numberOfReq && log[k].request <= bundle
  {
    if k < |log| - 1 {
      EveryPassAsks(log[..|log| - 1], numberOfReq, bundle, k);
    } else {
      NeverMoreLeft(log[..k], numberOfReq, bundle);
    }
  }

  lemma {:induction false} NeverMoreLeft(log: seq<Pass>, numberOfReq: nat, bundle: nat)
    requires Passes(log, numberOfReq, bundle)
    ensures 0 <= LeftAfter(log, numberOfReq) <= numberOfReq
  {
    if log != [] { NeverMoreLeft(log[..|log| - 1], numberOfReq, bundle); }
  }

  /** The pool lent all that was asked for. */
  predicate AllLent(log: seq<Pass>) {
    forall k :: 0 <= k < |log| ==> log[k].lent == log[k].request
  }

  /** When the pool lends all it is asked for, every pass sends a bundle, or everything. */
  lemma {:induction false} FullPasses(log: seq<Pass>, numberOfReq: nat, bundle: nat)
    requires Passes(log, numberOfReq, bundle) && AllLent(log)
    ensures LeftAfter(log, numberOfReq) == Max(0, numberOfReq - |log| * bundle)
    ensures log != [] ==> (|log| - 1) * bundle < numberOfReq
  {
    if log != [] {
      FullPasses(log[..|log| - 1], numberOfReq, bundle);
      assert |log| * bundle == (|log| - 1) * bundle + bundle;
    }
  }

  lemma UsedConcat<T>(a: seq<Dispatch<T>>, b: seq<Dispatch<T>>)
    ensures Used(a + b) == Used(a) + Used(b)
  {
  }

  /** Some dispatched request cannot be built, so that its send task panics. */
  predicate Unbuildable<T>(sent: seq<Dispatch<T>>, buildable: T -> bool) {
    exists k :: 0 <= k < |sent| && !buildable(sent[k].request)
  }

  lemma UnbuildableConcat<T>(a: seq<Dispatch<T>>, b: seq<Dispatch<T>>, buildable: T -> bool)
    ensures Unbuildable(a + b, buildable) <==> Unbuildable(a, buildable) || Unbuildable(b, buildable)
  {
    assert forall k :: 0 <= k < |a| ==> (a + b)[k] == a[k];
    assert forall k :: 0 <= k < |b| ==> (a + b)[|a| + k] == b[k];
  }

  // How a cycle ends when the provider gives nothing to send.
  function EndingFor<T>(mode: Mode, answer: Result<seq<T>>): (ending: Ending)
    ensures ending.ProviderFailed? || ending.Stuck?
    ensures ending.Stuck? <==> mode.Batch? && answer.Ok?
  {
    if answer.Err? || mode.Immediate? then ProviderFailed else Stuck
  }

  /** How far a cycle has come: the pool is where the trace leads and at rest, what it
      lent is what was used or dropped, and it has lost connections for good if and only
      if some were dropped or a request could not be built. */
  ghost predicate InCycle<T>(start: Pool, now: Pool, trace: seq<Event>, sent: seq<Dispatch<T>>,
                             dropped: seq<Connection>, buildable: T -> bool) {
    && now == Run(start, trace) && now.phase.Resting? && Invariant(now) && now.tasks.handed == []
    && now.maxConnection == start.maxConnection && now.elastic == start.elastic
    && LentIn(start, trace) == Used(sent) + dropped
    && Gone(now) >= Gone(start)
    && (Gone(now) > Gone(start) <==> dropped != [] || Unbuildable(sent, buildable))
  }

  lemma CycleStarts<T>(s: Pool, none: seq<Dispatch<T>>, buildable: T -> bool)
    requires s.phase.Resting? && Invariant(s) && s.tasks.handed == [] && none == []
    ensures InCycle(s, s, [], none, [], buildable)
  {
  }

  // Connections are taken and held while the provider is asked.
  ghost predicate Holding<T>(start: Pool, now: Pool, trace: seq<Event>, sent: seq<Dispatch<T>>,
                             connections: seq<Connection>, buildable: T -> bool) {
    && now == Run(start, trace) && now.phase.Resting? && Invariant(now) && now.tasks.handed == connections
    && now.maxConnection == start.maxConnection && now.elastic == start.elastic
    && LentIn(start, trace) == Used(sent) + connections
    && Gone(now) >= Gone(start)
    && (Gone(now) > Gone(start) <==> Unbuildable(sent, buildable))
  }

  /** Take connections, and hold them through the wait for the provider. */
  method Take<T>(pool: QueuePool, request: nat, ghost start: Pool, ghost before: seq<Event>,
                 ghost sent: seq<Dispatch<T>>, ghost buildable: T -> bool)
    returns (connections: seq<Connection>, ghost trace: seq<Event>)
    requires InCycle(start, pool.View(), before, sent, [], buildable)
    modifies pool
    ensures Holding(start, pool.View(), trace, sent, connections, buildable) && |connections| <= request
  {
    hide Invariant, Run, Next, LentIn, OwnerEvents, Used, Unbuildable, Gone;
    ghost var get, queue;
    connections, get, queue := pool.GetConnections(request);
    RunConcat(start, before, get);
    LentConcat(start, before, get);
    ghost var mid := pool.View();
    RunNothing(mid);
    ghost var wait := pool.Wait(mid, []);
    RunConcat(start, before + get, wait);
    LentConcat(start, before + get, wait);
    InvariantRun(mid, wait);
    HeldRun(mid, wait);
    NothingLent(mid, wait);
    trace := before + get + wait;
    assert connections + [] == connections && Used(sent) + [] == Used(sent);
  }

  // Dropping what is held.
  lemma DropEndsHolding<T>(start: Pool, now: Pool, trace: seq<Event>, sent: seq<Dispatch<T>>,
                           connections: seq<Connection>, buildable: T -> bool)
    requires Holding(start, now, trace, sent, connections, buildable) && connections != []
    ensures InCycle(start, Next(now, Drop), trace + [Drop], sent, connections, buildable)
  {
    RunSnoc(start, trace, Drop);
    InvariantNext(now, Drop);
    GoneNext(now, Drop);
    hide Run, Invariant, LentIn, Used, Unbuildable;
    assert Next(now, Drop).tasks.handed == [];
  }

  lemma {:induction false} PickedSome(cs: seq<Connection>, flags: seq<bool>)
    requires |cs| == |flags|
    ensures Picked(cs, flags, true) != [] <==> exists k :: 0 <= k < |flags| && flags[k]
  {
    if cs != [] {
      var n := |cs| - 1;
      PickedSome(cs[..n], flags[..n]);
      assert forall k :: 0 <= k < n ==> flags[..n][k] == flags[k];
    }
  }

  // Dispatching a request over each connection held.
  lemma DispatchEndsHolding<T>(start: Pool, now: Pool, trace: seq<Event>, sent: seq<Dispatch<T>>,
                               bundle: seq<Dispatch<T>>, dooms: seq<bool>, buildable: T -> bool)
    requires Holding(start, now, trace, sent, Used(bundle), buildable) && |dooms| == |bundle|
    requires (exists k :: 0 <= k < |dooms| && dooms[k]) <==> Unbuildable(bundle, buildable)
    ensures InCycle(start, Next(now, SendOff(dooms)), trace + [SendOff(dooms)], sent + bundle, [], buildable)
  {
    var e := SendOff(dooms);
    RunSnoc(start, trace, e);
    InvariantNext(now, e);
    GoneNext(now, e);
    PickedSome(now.tasks.handed, dooms);
    UsedConcat(sent, bundle);
    UnbuildableConcat(sent, bundle, buildable);
    hide Run, Invariant, LentIn, Used, Unbuildable, Picked;
    assert Next(now, e).tasks.handed == [];
    assert Used(sent + bundle) + [] == Used(sent + bundle);
  }

  /** Which connections of a bundle its send task will not return: none when every request
      can be built; otherwise those of the requests that cannot, and whichever others are
      not back when it panics. */
  method Fates<T>(bundle: seq<Dispatch<T>>, buildable: T -> bool) returns (dooms: seq<bool>)
    ensures |dooms| == |bundle|
    ensures forall k :: 0 <= k < |bundle| && !buildable(bundle[k].request) ==> dooms[k]
    ensures (exists k :: 0 <= k < |dooms| && dooms[k]) <==> Unbuildable(bundle, buildable)
  {
    var panics := false;
    for k := 0 to |bundle|
      invariant panics <==> exists j :: 0 <= j < k && !buildable(bundle[j].request)
    {
      if !buildable(bundle[k].request) {
        panics := true;
      }
    }
    dooms := [];
    for k := 0 to |bundle|
      invariant |dooms| == k && forall j :: 0 <= j < k ==>
        (!buildable(bundle[j].request) ==> dooms[j]) && (dooms[j] ==> panics)
    {
      var late: bool := *;
      dooms := dooms + [panics && (late || !buildable(bundle[k].request))];
    }
  }

  /** One pass: take connections and, if there are any, ask the provider, whose answer
      would be `answer`. Either a request is dispatched over each of them, or there is no
      request and all of them are dropped. */
  method SendOnce<T>(pool: QueuePool, request: nat, answer: Result<seq<T>>, buildable: T -> bool,
                     ghost start: Pool, ghost before: seq<Event>, ghost sent: seq<Dispatch<T>>)
    returns (asked: bool, bundle: seq<Dispatch<T>>, dropped: seq<Connection>, ghost trace: seq<Event>)
    requires InCycle(start, pool.View(), before, sent, [], buildable)
    modifies pool
    ensures InCycle(start, pool.View(), trace, sent + bundle, dropped, buildable) && |bundle| + |dropped| <= request
    ensures dropped != [] <==> asked && NoRequest(answer)
    ensures bundle != [] <==> asked && !NoRequest(answer)
    ensures bundle != [] ==> var m := Max(|bundle|, |answer.value|);
      forall k :: 0 <= k < |bundle| ==> bundle[k].request == InTurn(answer.value, m - 1 - k)
  {
    hide Invariant, Run, Next, LentIn, Gone, Unbuildable, InTurn;
    asked, bundle, dropped := false, [], [];
    assert sent + bundle == sent;
    var connections;
    connections, trace := Take(pool, request, start, before, sent, buildable);
    if |connections| < 1 {
      return;
    }
    asked := true;
    if NoRequest(answer) {
      dropped := connections;
      DropEndsHolding(start, pool.View(), trace, sent, connections, buildable);
      trace := trace + [Drop];
      pool.DropHanded();
      return;
    }
    bundle := SendBundle(connections, answer.value);
    assert Used(bundle) == connections;
    var dooms := Fates(bundle, buildable);
    DispatchEndsHolding(start, pool.View(), trace, sent, bundle, dooms, buildable);
    trace := trace + [SendOff(dooms)];
    pool.DispatchHanded(dooms);
  }

  /** The clock has run out: a reading said so, or there was no time for another pass. */
  predicate OutOfTime(mode: Mode, clock: nat -> int, readings: nat, done: nat, passes: nat) {
    || (exists k :: 0 <= k < readings && clock(k) < 0)
    || (mode.Immediate? && readings > 0 && clock(0) < 10)
    || done == passes
  }

  /** The passes of a cycle, until all is sent, time is up or there is no request. */
  method SendPasses<T>(pool: QueuePool, mode: Mode, numberOfReq: nat, bundleSize: nat, ghost bundle: nat,
                       answers: nat -> Result<seq<T>>, buildable: T -> bool, clock: nat -> int, read: nat,
                       passes: nat, ghost start: Pool)
    returns (ending: Ending, remaining: nat, sent: seq<Dispatch<T>>, dropped: seq<Connection>, calls: nat,
             readings: nat, ghost trace: seq<Event>, ghost log: seq<Pass>)
    requires InCycle<T>(start, pool.View(), [], [], [], buildable)
    requires numberOfReq >= 1 && bundle == Min(bundleSize, numberOfReq) && bundle >= 1
    modifies pool
    ensures InCycle(start, pool.View(), trace, sent, dropped, buildable)
    ensures |sent| + remaining == numberOfReq
    ensures ending.AllSent? ==> remaining == 0 && log != []
    ensures dropped != [] <==> exists k :: 0 <= k < calls && NoRequest(answers(k))
    ensures dropped != [] ==> calls > 0 && ending == EndingFor(mode, answers(calls - 1))
    ensures ending.ProviderFailed? || ending.Stuck? ==> dropped != []
    ensures !ending.NothingToDo? && (ending.TimeUp? ==> OutOfTime(mode, clock, readings, |log|, passes))
    ensures Passes(log, numberOfReq, bundle) && |log| <= passes && readings >= read
    ensures dropped == [] ==> remaining == LeftAfter(log, numberOfReq)
    ensures forall k :: read <= k < readings - 1 ==> clock(k) >= 0
  {
    hide *;
    remaining, sent, dropped, calls, trace, readings, log := numberOfReq, [], [], 0, [], read, [];
    ending := TimeUp;
    NoPassYet(numberOfReq, bundle);
    for pass := 0 to passes
      invariant InCycle(start, pool.View(), trace, sent, [], buildable)
      invariant |sent| + remaining == numberOfReq && dropped == [] && ending == TimeUp
      invariant forall k :: 0 <= k < calls ==> !NoRequest(answers(k))
      invariant Passes(log, numberOfReq, bundle) && |log| == pass && readings >= read
      invariant 1 <= remaining == LeftAfter(log, numberOfReq)
      invariant forall k :: read <= k < readings ==> clock(k) >= 0
    {
      var time := clock(readings);
      readings := readings + 1;
      if time < 0 {
        TimeIsUp(mode, clock, readings, |log|, passes);
        return;
      }
      var asked, bundled;
      var request := if bundleSize <= remaining then bundleSize else remaining;
      SmallerOf(bundleSize, numberOfReq, remaining, bundle);
      asked, bundled, dropped, trace := SendOnce(pool, request, answers(calls), buildable, start, trace, sent);
      ghost var p := Pass(remaining, request, |bundled| + |dropped|);
      OnePassMore(log, p, numberOfReq, bundle);
      LeftIs(p);
      log := log + [p];
      sent := sent + bundled;
      if !asked {
        continue;
      }
      calls := calls + 1;
      if dropped != [] {
        assert NoRequest(answers(calls - 1));
        ending := EndingFor(mode, answers(calls - 1));
        return;
      }
      remaining := remaining - |bundled|;
      time := clock(readings);
      readings := readings + 1;
      if time < 0 {
        TimeIsUp(mode, clock, readings, |log|, passes);
        return;
      }
      if remaining == 0 {
        ending := AllSent;
        return;
      }
    }
    PassesAreUp(mode, clock, readings, passes);
  }

  lemma NoPassYet(numberOfReq: nat, bundle: nat)
    ensures Passes([], numberOfReq, bundle) && LeftAfter([], numberOfReq) == numberOfReq
  {
  }

  lemma SmallerOf(bundleSize: nat, numberOfReq: nat, remaining: nat, bundle: nat)
    requires remaining <= numberOfReq && bundle == Min(bundleSize, numberOfReq)
    ensures Min(bundle, remaining) == if bundleSize <= remaining then bundleSize else remaining
  {
  }

  lemma LeftIs(p: Pass)
    ensures Left(p) == p.remaining - p.lent
  {
  }

  lemma TimeIsUp(mode: Mode, clock: nat -> int, readings: nat, done: nat, passes: nat)
    requires readings > 0 && clock(readings - 1) < 0
    ensures OutOfTime(mode, clock, readings, done, passes)
  {
  }

  lemma PassesAreUp(mode: Mode, clock: nat -> int, readings: nat, passes: nat)
    ensures OutOfTime(mode, clock, readings, passes, passes)
  {
  }

  /** What a cycle has asked for and how it ended, without the pool: every pass asked for as
      much as it may; and when the pool always lent what was asked for and time did not run
      out, everything is sent, in just as many passes as bundles are needed. */
  predicate Progressed(mode: Mode, numberOfReq: nat, log: seq<Pass>, bundle: nat, ending: Ending, remaining: nat,
                       outOfTime: bool) {
    && Passes(log, numberOfReq, bundle)
    && (ending.TimeUp? ==> outOfTime)
    && (ending.NothingToDo? ==> numberOfReq == 0)
    && (AllLent(log) && !outOfTime && !ending.ProviderFailed? && !ending.Stuck? && numberOfReq >= 1
        ==> remaining == 0 && (|log| - 1) * bundle < numberOfReq <= |log| * bundle)
  }

  lemma CycleProgresses(mode: Mode, numberOfReq: nat, log: seq<Pass>, bundle: nat, ending: Ending, remaining: nat,
                        outOfTime: bool)
    requires Passes(log, numberOfReq, bundle) && (ending.TimeUp? ==> outOfTime) && !ending.NothingToDo?
    requires ending.AllSent? ==> remaining == 0 == LeftAfter(log, numberOfReq) && log != []
    ensures Progressed(mode, numberOfReq, log, bundle, ending, remaining, outOfTime)
  {
    if AllLent(log) && ending.AllSent? { FullPasses(log, numberOfReq, bundle); }
  }

  /** Send the requests of a cycle. The provider answers its k-th call of the cycle with
      `answers(k)`, and `calls` is the number of calls made; the k-th reading of the clock is
      `clock(k)`, and `readings` their number. `dropped` are the connections for which there
      was no request; `trace` is what happened to the pool, and `log` what each pass asked
      for, with `bundle` the most it may ask for. */
  method SendRequests<T>(pool: QueuePool, mode: Mode, numberOfReq: nat, connectionCount: nat,
                         answers: nat -> Result<seq<T>>, buildable: T -> bool, clock: nat -> int, passes: nat)
    returns (ending: Ending, remaining: nat, sent: seq<Dispatch<T>>, dropped: seq<Connection>, calls: nat,
             readings: nat, ghost trace: seq<Event>, ghost log: seq<Pass>, ghost bundle: nat)
    requires pool.phase.Resting? && Invariant(pool.View()) && pool.tasks.handed == []
    modifies pool
    ensures InCycle(old(pool.View()), pool.View(), trace, sent, dropped, buildable)
    ensures |sent| + remaining == numberOfReq
    ensures ending.AllSent? ==> remaining == 0
    ensures numberOfReq == 0 ==> sent == [] && calls == 0
    ensures Gone(pool.View()) > Gone(old(pool.View()))
       <==> (exists k :: 0 <= k < calls && NoRequest(answers(k))) || Unbuildable(sent, buildable)
    ensures dropped != [] <==> exists k :: 0 <= k < calls && NoRequest(answers(k))
    ensures dropped != [] ==> calls > 0 && ending == EndingFor(mode, answers(calls - 1))
    ensures ending.ProviderFailed? || ending.Stuck? ==> dropped != []
    ensures forall k :: 0 <= k < readings - 1 ==> clock(k) >= 0
    ensures mode.Immediate? && clock(0) < 10 ==> ending.TimeUp? && sent == [] && calls == 0
    ensures IsBundle(mode, numberOfReq, connectionCount, bundle) && (numberOfReq >= 1 ==> bundle >= 1)
    ensures Progressed(mode, numberOfReq, log, bundle, ending, remaining,
                       OutOfTime(mode, clock, readings, |log|, passes))
  {
    hide InCycle, Invariant, NoRequest, Unbuildable, Gone, EndingFor, BundleSize, IsBundle, Progressed, Passes, AllLent;
    remaining, sent, dropped, calls, trace, readings, log := numberOfReq, [], [], 0, [], 0, [];
    ghost var start := pool.View();
    var bundleSize := BundleSize(mode, numberOfReq, connectionCount);
    bundle := Min(bundleSize, numberOfReq);
    BundleIsLargest(mode, numberOfReq, connectionCount);
    if numberOfReq >= 1 { BundleIsPositive(mode, numberOfReq, connectionCount, bundle); }
    CycleStarts(start, sent, buildable);
    CycleLosses(start, start, trace, sent, dropped, buildable);
    NoPassYet(numberOfReq, bundle);
    if mode.Immediate? {
      var available := clock(readings);
      readings := readings + 1;
      if available < 10 {
        ending := TimeUp;
        CycleProgresses(mode, numberOfReq, log, bundle, ending, remaining, true);
        return;
      }
    }
    if numberOfReq == 0 {
      ending := NothingToDo;
      NothingProgresses(mode, bundle, log, OutOfTime(mode, clock, readings, |log|, passes));
      return;
    }
    ending, remaining, sent, dropped, calls, readings, trace, log :=
      SendPasses(pool, mode, numberOfReq, bundleSize, bundle, answers, buildable, clock, readings, passes, start);
    CycleLosses(start, pool.View(), trace, sent, dropped, buildable);
    CycleProgresses(mode, numberOfReq, log, bundle, ending, remaining,
                    OutOfTime(mode, clock, readings, |log|, passes));
  }

  lemma NothingProgresses(mode: Mode, bundle: nat, log: seq<Pass>, outOfTime: bool)
    requires log == []
    ensures Progressed(mode, 0, log, bundle, NothingToDo, 0, outOfTime)
  {
  }

  lemma CycleLosses<T>(start: Pool, now: Pool, trace: seq<Event>, sent: seq<Dispatch<T>>,
                       dropped: seq<Connection>, buildable: T -> bool)
    requires InCycle(start, now, trace, sent, dropped, buildable)
    ensures Gone(now) > Gone(start) <==> dropped != [] || Unbuildable(sent, buildable)
    ensures now.phase.Resting? && Invariant(now) && now.tasks.handed == []
    ensures now.maxConnection == start.maxConnection
  {
  }

  // ---------- one rate message ----------

  /** Apply the number of connections of a rate message, if it is not that of the
      message before, and send its requests. */
  method HandleRate<T>(pool: QueuePool, mode: Mode, previous: nat, qps: nat, connections: nat,
                       answers: nat -> Result<seq<T>>, buildable: T -> bool, clock: nat -> int, passes: nat)
    returns (connectionCount: nat, remaining: nat, sent: seq<Dispatch<T>>, calls: nat)
    requires pool.phase.Resting? && Invariant(pool.View()) && pool.tasks.handed == []
    modifies pool
    ensures pool.phase.Resting? && Invariant(pool.View()) && pool.tasks.handed == []
    ensures (connectionCount, pool.maxConnection) == AfterRate(previous, old(pool.maxConnection), connections)
    ensures |sent| + remaining == qps
    ensures Gone(pool.View()) > Gone(old(pool.View()))
       <==> (exists k :: 0 <= k < calls && NoRequest(answers(k))) || Unbuildable(sent, buildable)
  {
    hide Invariant, NoRequest, Unbuildable, InCycle;
    connectionCount := previous;
    if previous != connections {
      InvariantNext(pool.View(), Resize(connections));
      pool.SetConnectionCount(connections);
      connectionCount := connections;
    }
    ghost var start := pool.View();
    ghost var trace, log, bundle;
    var ending, dropped, readings;
    ending, remaining, sent, dropped, calls, readings, trace, log, bundle :=
      SendRequests(pool, mode, qps, connections, answers, buildable, clock, passes);
    CycleLosses(start, pool.View(), trace, sent, dropped, buildable);
  }

  /** The remembered number of connections and the target of the pool after a message. */
  function AfterRate(previous: nat, target: nat, connections: nat): (nat, nat) {
    (connections, if previous != connections then connections else target)
  }

  // The targets of the pool over a run of rate messages.
  function Targets(previous: nat, target: nat, rates: seq<nat>): seq<nat>
    decreases |rates|
  {
    if rates == [] then []
    else
      var next := AfterRate(previous, target, rates[0]);
      [next.1] + Targets(next.0, next.1, rates[1..])
  }

  lemma {:induction false} MatchedTargetsFollow(target: nat, rates: seq<nat>)
    ensures Targets(target, target, rates) == rates
    decreases |rates|
  {
    if rates != [] {
      MatchedTargetsFollow(rates[0], rates[1..]);
    }
  }

  /** A handler remembers no connections at its start, even when it takes over a pool.
      The pool has the size of every rate message after that message exactly when it
      was taken over empty or the first message asks for a connection. */
  lemma TargetsFollowRates(target: nat, rates: seq<nat>)
    ensures Targets(0, target, rates) == rates <==> target == 0 || rates == [] || rates[0] != 0
  {
    if rates != [] {
      if target == 0 || rates[0] != 0 {
        MatchedTargetsFollow(rates[0], rates[1..]);
      } else {
        assert Targets(0, target, rates)[0] == target;
      }
    }
  }
}
