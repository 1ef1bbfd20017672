/** The future that sends one request: it waits for the response, then for the body,
    then for an optional Lua assertion. Each poll is one step; what the inner futures
    answer when they are polled is arbitrary. */
module RequestFuture {

  datatype State = Init | InProgress | ResponseReceived

  datatype ResponseAnswer = NoResponse | Failed | Arrived
  datatype BodyAnswer = NoBody | Broken | Binary | Textual

  /** History: which inner future was polled, and what it answered. */
  datatype Poll = AskedResponse(response: ResponseAnswer) | AskedBody(body: BodyAnswer) | AskedLua(ready: bool)

  /** What the inner futures would answer during one poll. */
  datatype Answers = Answers(response: ResponseAnswer, body: BodyAnswer, luaReady: bool)

  /** `hasSender` and `hasRequest` say whether there is a Lua executor and whether the
      original request is still held; `requests`, `statuses` and `times` count metrics;
      `assertions` is history: how many Lua assertions were started. */
  datatype Future = Future(
    state: State,
    timer: bool,
    body: bool,
    lua: bool,
    hasSender: bool,
    hasRequest: bool,
    requests: nat,
    statuses: nat,
    times: nat,
    assertions: nat,
    log: seq<Poll>,
    done: bool)

  function Start(hasSender: bool): Future {
    Future(Init, false, false, false, hasSender, true, 0, 0, 0, 0, [], false)
  }

  function Begun(f: Future): Future {
    if f.state.Init? then f.(requests := f.requests + 1, timer := true, state := InProgress) else f
  }

  function PollLua(f: Future, ready: bool): Future {
    f.(log := f.log + [AskedLua(ready)], done := ready)
  }

  function PollBody(f: Future, answers: Answers): Future {
    var polled := f.(log := f.log + [AskedBody(answers.body)]);
    match answers.body
    case NoBody => polled
    case Broken => polled.(done := true)
    case Binary => polled.(done := true, hasRequest := f.hasRequest && !f.hasSender)
    case Textual =>
      if f.hasSender && f.hasRequest
      then PollLua(polled.(lua := true, body := false, hasRequest := false, assertions := f.assertions + 1),
                   answers.luaReady)
      else polled.(done := true)
  }

  function PollResponse(f: Future, answer: ResponseAnswer): Future {
    var polled := f.(log := f.log + [AskedResponse(answer)]);
    match answer
    case NoResponse => polled
    case Failed => polled.(state := ResponseReceived, statuses := f.statuses + 1, done := true)
    case Arrived => polled.(state := ResponseReceived, statuses := f.statuses + 1, times := f.times + 1, body := true)
  }

  function Next(f: Future, answers: Answers): Future {
    var g := Begun(f);
    if g.lua then PollLua(g, answers.luaReady)
    else if g.body then PollBody(g, answers)
    else if g.state.ResponseReceived? then g.(done := true)
    else PollResponse(g, answers.response)
  }

  /** Poll until the future completes or the answers are used up. */
  function Run(f: Future, answers: seq<Answers>): Future
    decreases |answers|
  {
    if f.done || answers == [] then f else Run(Next(f, answers[0]), answers[1..])
  }

  // ---------- what every poll keeps ----------

  function Rank(p: Poll): nat {
    match p case AskedResponse(_) => 0 case AskedBody(_) => 1 case AskedLua(_) => 2
  }

  // The poll completed the inner future.
  predicate Completed(p: Poll) {
    match p
    case AskedResponse(answer) => answer != NoResponse
    case AskedBody(answer) => answer != NoBody
    case AskedLua(ready) => ready
  }

  /** The stage the future is in: waiting for the response, the body, the Lua
      assertion, or completed. */
  function Stage(f: Future): nat {
    if f.done then 3 else if f.lua then 2 else if f.body then 1 else 0
  }

  // Polls come in the order of the stages, and none of a future that has completed.
  predicate InOrder(log: seq<Poll>) {
    forall i, j :: 0 <= i < j < |log| ==>
      && Rank(log[i]) <= Rank(log[j])
      && (Completed(log[i]) ==> Rank(log[i]) < Rank(log[j]))
  }

  // Everything polled so far belongs to the current stage or to one that was completed.
  predicate LoggedUpTo(log: seq<Poll>, stage: nat) {
    forall i :: 0 <= i < |log| ==>
      && Rank(log[i]) <= stage
      && (Completed(log[i]) ==> Rank(log[i]) < stage)
  }

  predicate HasResponse(log: seq<Poll>) {
    exists i :: 0 <= i < |log| && log[i].AskedResponse? && Completed(log[i])
  }

  /** A Lua assertion has been started, once, if and only if there is an executor and a
      body that is text has come in, after a response; it has then been heard of by the
      end. Without one the original request is still there for it. */
  predicate Tracked(f: Future) {
    && f.times == (if AskedResponse(Arrived) in f.log then 1 else 0)
    && !(f.lua && f.body)
    && (f.lua <==> f.hasSender && AskedBody(Textual) in f.log)
    && f.assertions == (if f.lua then 1 else 0)
    && (f.body || AskedBody(Textual) in f.log ==> AskedResponse(Arrived) in f.log)
    && (AskedResponse(Arrived) in f.log ==> f.state.ResponseReceived?)
    && (AskedLua(true) in f.log <==> f.lua && f.done)
    && (!f.lua && !f.done ==> f.hasRequest)
  }

  predicate Valid(f: Future) {
    && InOrder(f.log) && LoggedUpTo(f.log, Stage(f))
    && f.requests == (if f.state.Init? then 0 else 1)
    && f.timer == !f.state.Init?
    && f.statuses == (if f.state.ResponseReceived? then 1 else 0)
    && Tracked(f)
    && (f.state.ResponseReceived? <==> HasResponse(f.log))
    && (f.state.ResponseReceived? <==> Stage(f) > 0)
    && (f.state.Init? ==> f.log == [])
  }

  lemma AppendPoll(log: seq<Poll>, p: Poll, stage: nat, stage': nat)
    requires InOrder(log) && LoggedUpTo(log, stage) && Rank(p) == stage
    requires stage <= stage' && (Completed(p) ==> stage < stage')
    ensures InOrder(log + [p]) && LoggedUpTo(log + [p], stage')
    ensures HasResponse(log + [p]) <==> HasResponse(log) || (p.AskedResponse? && Completed(p))
  {
    assert (log + [p])[|log|] == p;
    if HasResponse(log) {
      var i :| 0 <= i < |log| && log[i].AskedResponse? && Completed(log[i]);
      assert (log + [p])[i] == log[i];
    }
  }

  lemma TrackedNext(f: Future, answers: Answers)
    requires Tracked(f) && !f.done && (f.state.ResponseReceived? <==> Stage(f) > 0)
    ensures Tracked(Next(f, answers))
  {
  }

  lemma ValidNext(f: Future, answers: Answers)
    requires Valid(f) && !f.done
    ensures Valid(Next(f, answers)) && Stage(f) <= Stage(Next(f, answers))
  {
    TrackedNext(f, answers);
    assert !(f.lua && f.body);
    hide InOrder, LoggedUpTo, HasResponse, Tracked, Completed;
    var g := Begun(f);
    var t := Next(f, answers);
    if g.lua {
      AppendPoll(f.log, AskedLua(answers.luaReady), 2, Stage(t));
    } else if g.body {
      var p := AskedBody(answers.body);
      if t.lua {
        AppendPoll(f.log, p, 1, 2);
        AppendPoll(f.log + [p], AskedLua(answers.luaReady), 2, Stage(t));
      } else {
        AppendPoll(f.log, p, 1, Stage(t));
      }
    } else {
      AppendPoll(f.log, AskedResponse(answers.response), 0, Stage(t));
    }
  }

  lemma {:induction false} ValidRun(f: Future, answers: seq<Answers>)
    requires Valid(f)
    ensures Valid(Run(f, answers)) && Stage(f) <= Stage(Run(f, answers))
    decreases |answers|
  {
    if !f.done && answers != [] {
      ValidNext(f, answers[0]);
      ValidRun(Next(f, answers[0]), answers[1..]);
    }
  }

  // ---------- every run ----------

  /** No inner future is polled after it completed, and they are polled in the order
      response, body, Lua assertion. */
  lemma NoPollAfterCompletion(hasSender: bool, answers: seq<Answers>, i: nat, j: nat)
    requires i < j < |Run(Start(hasSender), answers).log|
    ensures var log := Run(Start(hasSender), answers).log;
      && Rank(log[i]) <= Rank(log[j])
      && (Completed(log[i]) ==> Rank(log[i]) != Rank(log[j]))
  {
    ValidRun(Start(hasSender), answers);
  }

  /** A request is counted once, from its first poll on, and its status once, when the
      response is in; a completed future has counted both. */
  lemma CountedOnce(hasSender: bool, answers: seq<Answers>)
    requires answers != []
    ensures var f := Run(Start(hasSender), answers);
      && f.requests == 1
      && f.statuses == (if HasResponse(f.log) then 1 else 0)
      && (f.done ==> f.statuses == 1)
      && f.times == (if AskedResponse(Arrived) in f.log then 1 else 0)
  {
    ValidRun(Start(hasSender), answers);
    ValidNext(Start(hasSender), answers[0]);
    KeepsStarted(Next(Start(hasSender), answers[0]), answers[1..]);
  }

  lemma {:induction false} KeepsStarted(f: Future, answers: seq<Answers>)
    requires !f.state.Init?
    ensures !Run(f, answers).state.Init?
    decreases |answers|
  {
    if !f.done && answers != [] {
      KeepsStarted(Next(f, answers[0]), answers[1..]);
    }
  }

  lemma {:induction false} RunConcat(f: Future, a: seq<Answers>, b: seq<Answers>)
    ensures Run(f, a + b) == Run(Run(f, a), b)
    decreases |a|
  {
    if a == [] {
      assert a + b == b;
    } else if !f.done {
      assert (a + b)[0] == a[0] && (a + b)[1..] == a[1..] + b;
      RunConcat(Next(f, a[0]), a[1..], b);
    }
  }

  /** The stages only move forward. */
  lemma StagesMoveForward(hasSender: bool, before: seq<Answers>, after: seq<Answers>)
    ensures Stage(Run(Start(hasSender), before)) <= Stage(Run(Start(hasSender), before + after))
  {
    ValidRun(Start(hasSender), before);
    RunConcat(Start(hasSender), before, after);
    ValidRun(Run(Start(hasSender), before), after);
  }

  // Answers with which the inner future that is waited for completes.
  predicate Answered(a: Answers) {
    a.response != NoResponse && a.body != NoBody && a.luaReady
  }

  /** Inner futures that always answer complete the future within two polls. */
  lemma CompletesInTwoPolls(hasSender: bool, a: Answers, b: Answers)
    requires Answered(a) && Answered(b)
    ensures Run(Start(hasSender), [a, b]).done
  {
    var f := Next(Start(hasSender), a);
    assert [a, b][1..] == [b] && [b][1..] == [];
    assert Run(f, [b]) == if f.done then f else Run(Next(f, b), []);
    assert f.done || Next(f, b).done;
  }

  // ---------- the same in sequence ----------

  /** What was asked and answered, and whether the request is through with. */
  datatype Outcome = Outcome(log: seq<Poll>, done: bool)

  function After(p: Poll, rest: Outcome): Outcome { rest.(log := [p] + rest.log) }

  // Wait for the Lua assertion.
  function AwaitLua(answers: seq<Answers>): Outcome {
    if answers == [] then Outcome([], false)
    else if answers[0].luaReady then Outcome([AskedLua(true)], true)
    else After(AskedLua(false), AwaitLua(answers[1..]))
  }

  // Wait for the body, and make the assertion on a text if there is an executor for it.
  function AwaitBody(hasSender: bool, answers: seq<Answers>): Outcome {
    if answers == [] then Outcome([], false)
    else match answers[0].body
      case NoBody => After(AskedBody(NoBody), AwaitBody(hasSender, answers[1..]))
      case Broken => Outcome([AskedBody(Broken)], true)
      case Binary => Outcome([AskedBody(Binary)], true)
      case Textual => After(AskedBody(Textual), if hasSender then AwaitLua(answers) else Outcome([], true))
  }

  /** The request in sequence: wait for the response, then for its body, then for the Lua
      assertion on it, one answer at each poll. */
  function AwaitResponse(hasSender: bool, answers: seq<Answers>): Outcome {
    if answers == [] then Outcome([], false)
    else match answers[0].response
      case NoResponse => After(AskedResponse(NoResponse), AwaitResponse(hasSender, answers[1..]))
      case Failed => Outcome([AskedResponse(Failed)], true)
      case Arrived => After(AskedResponse(Arrived), AwaitBody(hasSender, answers[1..]))
  }

  predicate Continues(f: Future, answers: seq<Answers>, o: Outcome) {
    Run(f, answers).log == f.log + o.log && Run(f, answers).done == o.done
  }

  lemma RunStep(f: Future, answers: seq<Answers>, p: Poll, rest: Outcome)
    requires !f.done && answers != [] && Next(f, answers[0]).log == f.log + [p]
    requires Continues(Next(f, answers[0]), answers[1..], rest)
    ensures Continues(f, answers, After(p, rest))
  {
    assert f.log + [p] + rest.log == f.log + ([p] + rest.log);
  }

  lemma {:induction false} LuaInSequence(f: Future, answers: seq<Answers>)
    requires f.lua && !f.done && !f.state.Init?
    ensures Continues(f, answers, AwaitLua(answers))
    decreases |answers|
  {
    if answers != [] {
      var t := Next(f, answers[0]);
      if !answers[0].luaReady {
        LuaInSequence(t, answers[1..]);
        RunStep(f, answers, AskedLua(false), AwaitLua(answers[1..]));
      }
    }
  }

  // The poll that sees a text also polls the assertion.
  lemma TextInSequence(f: Future, answers: seq<Answers>)
    requires f.body && !f.lua && !f.done && !f.state.Init? && f.hasRequest && f.hasSender
    requires answers != [] && answers[0].body.Textual?
    ensures Continues(f, answers, After(AskedBody(Textual), AwaitLua(answers)))
  {
    var t := Next(f, answers[0]);
    var now := AskedLua(answers[0].luaReady);
    assert t.log == f.log + [AskedBody(Textual)] + [now];
    if !answers[0].luaReady {
      LuaInSequence(t, answers[1..]);
      var rest := AwaitLua(answers[1..]).log;
      assert f.log + [AskedBody(Textual)] + [now] + rest == f.log + ([AskedBody(Textual)] + ([now] + rest));
    }
  }

  lemma {:induction false} BodyInSequence(f: Future, answers: seq<Answers>)
    requires f.body && !f.lua && !f.done && !f.state.Init? && f.hasRequest
    ensures Continues(f, answers, AwaitBody(f.hasSender, answers))
    decreases |answers|
  {
    if answers != [] {
      var t := Next(f, answers[0]);
      match answers[0].body
      case NoBody =>
        BodyInSequence(t, answers[1..]);
        RunStep(f, answers, AskedBody(NoBody), AwaitBody(f.hasSender, answers[1..]));
      case Broken =>
      case Binary =>
      case Textual =>
        if f.hasSender {
          TextInSequence(f, answers);
        }
    }
  }

  lemma {:induction false} ResponseInSequence(f: Future, answers: seq<Answers>)
    requires !f.body && !f.lua && !f.done && !f.state.ResponseReceived? && f.hasRequest
    ensures Continues(f, answers, AwaitResponse(f.hasSender, answers))
    decreases |answers|
  {
    if answers != [] {
      var t := Next(f, answers[0]);
      match answers[0].response
      case NoResponse =>
        ResponseInSequence(t, answers[1..]);
        RunStep(f, answers, AskedResponse(NoResponse), AwaitResponse(f.hasSender, answers[1..]));
      case Failed =>
      case Arrived =>
        BodyInSequence(t, answers[1..]);
        RunStep(f, answers, AskedResponse(Arrived), AwaitBody(f.hasSender, answers[1..]));
    }
  }

  /** Polling the future is the same as waiting for response, body and assertion in
      sequence: it asks the same, hears the same answers and completes with it. */
  lemma PollingIsAwaiting(hasSender: bool, answers: seq<Answers>)
    ensures var f := Run(Start(hasSender), answers);
      Outcome(f.log, f.done) == AwaitResponse(hasSender, answers)
  {
    ResponseInSequence(Start(hasSender), answers);
  }

  /** A completed future has heard of its Lua assertion if and only if there is an executor,
      the response arrived and the body that came was text; it is started at most once, and
      never otherwise. */
  lemma AssertionIsMade(hasSender: bool, answers: seq<Answers>)
    ensures var f := Run(Start(hasSender), answers);
      var due := hasSender && AskedResponse(Arrived) in f.log && AskedBody(Textual) in f.log;
      f.assertions == (if due then 1 else 0) && (f.done ==> (AskedLua(true) in f.log <==> due))
  {
    ValidRun(Start(hasSender), answers);
    SenderIsKept(Start(hasSender), answers);
  }

  lemma {:induction false} SenderIsKept(f: Future, answers: seq<Answers>)
    ensures Run(f, answers).hasSender == f.hasSender
    decreases |answers|
  {
    if !f.done && answers != [] { SenderIsKept(Next(f, answers[0]), answers[1..]); }
  }

  // ---------- the future itself ----------

  class HttpRequestFuture {
    var state: State
    var timer: bool
    var body: bool
    var luaAssert: bool
    var hasRequest: bool
    const hasSender: bool
    var requests: nat
    var statuses: nat
    var times: nat
    ghost var assertions: nat
    ghost var log: seq<Poll>
    ghost var done: bool

    ghost function View(): Future
      reads this
    {
      Future(state, timer, body, luaAssert, hasSender, hasRequest, requests, statuses, times, assertions, log,
             done)
    }

    constructor (sender: bool)
      ensures View() == Start(sender) && Valid(View())
    {
      state, timer, body, luaAssert, hasRequest := Init, false, false, false, true;
      hasSender := sender;
      requests, statuses, times := 0, 0, 0;
      assertions, log, done := 0, [], false;
    }

    method PollFuture(answers: Answers) returns (ready: bool)
      requires Valid(View()) && !done
      modifies this
      ensures View() == Next(old(View()), answers) && Valid(View())
      ensures ready == done
    {
      hide Valid, Begun, PollBody, PollResponse;
      ValidNext(View(), answers);
      Begin();
      if luaAssert {
        log, done := log + [AskedLua(answers.luaReady)], answers.luaReady;
        return answers.luaReady;
      }
      if body {
        ready := PollBodyFuture(answers);
      } else if state.ResponseReceived? {
        done := true;
        ready := true;
      } else {
        ready := PollResponseFuture(answers.response);
      }
    }

    // The first poll counts the request and starts the timer.
    method Begin()
      modifies this`requests, this`timer, this`state
      ensures View() == Begun(old(View()))
    {
      if state.Init? {
        requests := requests + 1;
        timer := true;
        state := InProgress;
      }
    }

    method PollResponseFuture(answer: ResponseAnswer) returns (ready: bool)
      requires !done
      modifies this`log, this`state, this`statuses, this`times, this`body, this`done
      ensures View() == PollResponse(old(View()), answer)
      ensures ready == done
    {
      log := log + [AskedResponse(answer)];
      if answer.NoResponse? {
        return false;
      }
      state := ResponseReceived;
      statuses := statuses + 1;
      if answer.Arrived? {
        times := times + 1;
        body := true;
        return false;
      }
      done := true;
      ready := true;
    }

    method PollBodyFuture(answers: Answers) returns (ready: bool)
      requires !done
      modifies this
      ensures View() == PollBody(old(View()), answers)
      ensures ready == done
    {
      log := log + [AskedBody(answers.body)];
      if answers.body.NoBody? {
        return false;
      }
      if !answers.body.Broken? && hasSender {
        var original := hasRequest;
        hasRequest := false;
        if answers.body.Textual? && original {
          luaAssert, body, assertions := true, false, assertions + 1;
          log, done := log + [AskedLua(answers.luaReady)], answers.luaReady;
          return answers.luaReady;
        }
      }
      done := true;
      return true;
    }
  }
}
