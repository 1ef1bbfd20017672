/** The primary's loop as it runs: a map of senders updated in place, and one send
    after the other over it. A round is proved to be a step of the protocol. */
module PrimaryLoop {
  import opened Arithmetic
  import opened WorkDivision
  import opened ClusterProtocol

  // The last share mentioned in a list of messages.
  function SpecAfter(spec: Spec, tried: seq<Message>): Spec {
    if tried == [] then spec
    else
      var last := tried[|tried| - 1];
      if last.Request? then last.spec else SpecAfter(spec, tried[..|tried| - 1])
  }

  // How far a list of sends has come on a link: a failed send stops the rest.
  predicate Partly(before: Link, now: Link, tried: seq<Message>) {
    && now.spec == SpecAfter(before.spec, tried) && now.counted == before.counted
    && (if !before.up then now.trace == before.trace && !now.up
        else
          && |before.trace| <= |now.trace| <= |before.trace| + |tried|
          && now.trace == before.trace + tried[..|now.trace| - |before.trace|]
          && (now.up <==> |now.trace| == |before.trace| + |tried|))
  }

  // One send: it may fail, and then the link is down for good.
  function Sent(link: Link, m: Message, ok: bool): Link {
    Link(if link.up && ok then link.trace + [m] else link.trace,
         link.up && ok,
         if m.Request? then m.spec else link.spec,
         link.counted)
  }

  function SentIf(included: bool, link: Link, m: Message, ok: bool): Link {
    if included then Sent(link, m, ok) else link
  }

  // The links are as far as `tried` says, position by position of the order.
  predicate Progress(order: seq<nat>, base: map<nat, Link>, now: map<nat, Link>, tried: seq<seq<Message>>) {
    && |tried| == |order| && base.Keys == now.Keys && IsOrder(order, base.Keys)
    && (forall k :: 0 <= k < |order| ==> Partly(base[order[k]], now[order[k]], tried[k]))
  }

  function Extended(order: seq<nat>, only: set<nat>, messages: seq<Message>,
                    tried: seq<seq<Message>>): seq<seq<Message>>
    requires |order| == |messages| == |tried|
  {
    seq(|order|, k requires 0 <= k < |order| => tried[k] + if order[k] in only then [messages[k]] else [])
  }

  // What one pass of sends does to the links, given which sends succeed.
  predicate Passed(order: seq<nat>, only: set<nat>, messages: seq<Message>, oks: seq<bool>,
                   before: map<nat, Link>, now: map<nat, Link>)
    requires |order| == |messages| == |oks|
  {
    && before.Keys == now.Keys
    && (forall k :: 0 <= k < |order| ==> order[k] in before)
    && (forall k :: 0 <= k < |order| ==>
          now[order[k]] == SentIf(order[k] in only, before[order[k]], messages[k], oks[k]))
  }

  // The pass has come to the position after the last outcome.
  predicate Passing(order: seq<nat>, only: set<nat>, messages: seq<Message>, oks: seq<bool>,
                    before: map<nat, Link>, now: map<nat, Link>, failed: seq<nat>)
    requires |order| == |messages| >= |oks|
  {
    && before.Keys == now.Keys
    && (forall k :: 0 <= k < |order| ==> order[k] in before)
    && (forall k :: 0 <= k < |oks| ==>
          now[order[k]] == SentIf(order[k] in only, before[order[k]], messages[k], oks[k]))
    && (forall k :: |oks| <= k < |order| ==> now[order[k]] == before[order[k]])
    && (forall id :: id in failed ==> id in only && id in now && !now[id].up)
    && (forall k :: 0 <= k < |oks| && order[k] in only && !now[order[k]].up ==> order[k] in failed)
  }

  lemma PassingNext(order: seq<nat>, only: set<nat>, messages: seq<Message>, oks: seq<bool>,
                    before: map<nat, Link>, now: map<nat, Link>, failed: seq<nat>, ok: bool)
    requires |order| == |messages| > |oks| && Distinct(order)
    requires Passing(order, only, messages, oks, before, now, failed)
    ensures var id := order[|oks|];
      var link := SentIf(id in only, now[id], messages[|oks|], ok);
      Passing(order, only, messages, oks + [ok], before, now[id := link],
              if id in only && !link.up then failed + [id] else failed)
  {
    var id := order[|oks|];
    assert forall k :: 0 <= k < |order| && k != |oks| ==> order[k] != id;
  }

  lemma PassProgress(order: seq<nat>, only: set<nat>, messages: seq<Message>, oks: seq<bool>,
                     base: map<nat, Link>, before: map<nat, Link>, now: map<nat, Link>, tried: seq<seq<Message>>)
    requires |order| == |messages| == |oks|
    requires Progress(order, base, before, tried) && Passed(order, only, messages, oks, before, now)
    ensures Progress(order, base, now, Extended(order, only, messages, tried))
  {
    forall k | 0 <= k < |order|
      ensures Partly(base[order[k]], now[order[k]], Extended(order, only, messages, tried)[k])
    {
      if order[k] in only {
      } else {
        assert tried[k] + [] == tried[k];
      }
    }
  }

  function Repeat(m: Message, n: nat): seq<Message> { seq(n, _ => m) }

  // When all of a burst was tried, the link is where the protocol says.
  lemma Settles(before: Link, now: Link, burst: seq<Message>, spec: Spec, id: nat, delivered: map<nat, nat>)
    requires Partly(before, now, burst) && SpecAfter(before.spec, burst) == spec
    requires id in delivered && delivered[id] == |now.trace| - |before.trace|
    ensures now == Attempt(before, burst, spec, id, delivered)
  {
  }

  lemma SpecAfterRates(spec: Spec, a: seq<Message>, m: Message)
    requires !m.Request?
    ensures SpecAfter(spec, a + [m]) == SpecAfter(spec, a)
  {
    assert (a + [m])[..|a|] == a;
  }

  // The share a node ends up with is the one the round means for it.
  lemma BurstSpec(s: Primary, input: Input, id: nat)
    requires input.Tick? && id in Joined(s, input) && IsOrder(input.order, Joined(s, input).Keys)
    ensures SpecAfter(Joined(s, input)[id].spec, Burst(s, input, id)) == SpecFor(s, input, id)
  {
    var i, n := Index(input.order, id), |input.order|;
    var isNew, spec := id in Newcomers(s, input), SpecFor(s, input, id);
    var opening := Opening(isNew, Resplits(s, input), s.split, input.readOk, spec);
    SpecAfterRates(Joined(s, input)[id].spec, opening, Rates(Share(input.qps, n, i), Share(input.connections, n, i)));
    OpeningSpec(Joined(s, input)[id].spec, isNew, Resplits(s, input), s.split, input.readOk, spec);
  }

  lemma OpeningSpec(was: Spec, isNew: bool, resplits: bool, split: bool, readOk: bool, spec: Spec)
    requires (resplits && readOk) || spec == was
    requires isNew && !resplits ==> was == Whole
    ensures SpecAfter(was, Opening(isNew, resplits, split, readOk, spec)) == spec
  {
    var greeting := if isNew then [Metadata] else [];
    var opening := Opening(isNew, resplits, split, readOk, spec);
    assert isNew ==> [] + [Metadata] == greeting;
    SpecAfterRates(was, [], Metadata);
    if resplits && !readOk {
      assert opening == greeting + [Reset];
      SpecAfterRates(was, greeting, Reset);
    } else if !resplits && !(isNew && !split) {
      assert opening == greeting;
    }
  }

  lemma LinkIsAttempted(s: Primary, input: Input, now: Link, id: nat)
    requires input.Tick? && IsOrder(input.order, Joined(s, input).Keys) && id in Joined(s, input)
    requires Partly(Joined(s, input)[id], now, Burst(s, input, id))
    requires id in input.delivered && input.delivered[id] == |now.trace| - |Joined(s, input)[id].trace|
    ensures now == Attempted(s, input)[id]
  {
    BurstSpec(s, input, id);
    Settles(Joined(s, input)[id], now, Burst(s, input, id), SpecFor(s, input, id), id, input.delivered);
  }

  lemma EmptyOrder(order: seq<nat>, links: map<nat, Link>)
    requires IsOrder(order, links.Keys)
    ensures order == [] <==> links == map[]
  {
    if order != [] {
      assert order[0] in links;
    }
  }

  // How many messages got through on each link.
  ghost function Delivered(base: map<nat, Link>, now: map<nat, Link>, order: seq<nat>,
                           tried: seq<seq<Message>>): map<nat, nat>
    requires Progress(order, base, now, tried)
  {
    map id | id in now ::
      assert Partly(base[order[Index(order, id)]], now[order[Index(order, id)]], tried[Index(order, id)]);
      |now[id].trace| - |base[id].trace|
  }

  // Opening messages and rates, position by position, make up the bursts.
  lemma TriedIsBurst(s: Primary, input: Input, tried: seq<seq<Message>>)
    requires input.Tick? && IsOrder(input.order, Joined(s, input).Keys) && |tried| == |input.order|
    requires forall k :: 0 <= k < |tried| ==>
      tried[k] == Opening(input.order[k] in Newcomers(s, input), Resplits(s, input), s.split, input.readOk,
                          Slice(Part(s.size, |tried|, k)))
                  + [Rates(Share(input.qps, |tried|, k), Share(input.connections, |tried|, k))]
    ensures forall k :: 0 <= k < |tried| ==> tried[k] == Burst(s, input, input.order[k])
  {
    forall k | 0 <= k < |tried|
      ensures tried[k] == Burst(s, input, input.order[k])
    {
      var id := input.order[k];
      assert id in Joined(s, input) && Index(input.order, id) == k;
      if Resplits(s, input) && input.readOk {
        assert SpecFor(s, input, id) == Slice(Part(s.size, |tried|, k));
      }
    }
  }

  // What is sent does not depend on what gets through.
  lemma DeliveredIsFree(s: Primary, input: Input, delivered: map<nat, nat>)
    requires input.Tick?
    ensures var other := input.(delivered := delivered);
      && Joined(s, other) == Joined(s, input) && Newcomers(s, other) == Newcomers(s, input)
      && Resplits(s, other) == Resplits(s, input) && Divides0(s, other) == Divides0(s, input)
  {
  }

  lemma RoundIsStep(s: Primary, input: Input, now: map<nat, Link>, tried: seq<seq<Message>>)
    requires input.Tick? && IsOrder(input.order, Joined(s, input).Keys)
    requires Progress(input.order, Joined(s, input), now, tried)
    requires forall k :: 0 <= k < |tried| ==> tried[k] == Burst(s, input, input.order[k])
    requires forall id :: id in now ==>
      id in input.delivered && input.delivered[id] == |now[id].trace| - |Joined(s, input)[id].trace|
    ensures now == Attempted(s, input)
  {
    hide Partly, Burst;
    forall id | id in now
      ensures now[id] == Attempted(s, input)[id]
    {
      var k := Index(input.order, id);
      assert Partly(Joined(s, input)[id], now[id], tried[k]);
      LinkIsAttempted(s, input, now[id], id);
    }
  }

  lemma NoneTried(order: seq<nat>, links: map<nat, Link>)
    requires IsOrder(order, links.Keys)
    ensures Progress(order, links, links, seq(|order|, _ => []))
  {
  }

  // The links opened before the loop are where the protocol starts.
  lemma StartIsReached(split: bool, size: nat, order: seq<nat>, readOk: bool, base: map<nat, Link>,
                       now: map<nat, Link>, tried: seq<seq<Message>>, delivered: map<nat, nat>)
    requires Progress(order, base, now, tried)
    requires forall id :: id in base ==> base[id] == NewLink(!split || readOk)
    requires forall k :: 0 <= k < |order| ==>
      tried[k] == StartBurst(split, readOk, StartSpec(split, size, order, readOk, order[k]))
    requires delivered.Keys == now.Keys && forall id :: id in now ==> delivered[id] == |now[id].trace|
    ensures now == Start(split, size, order, delivered, readOk).senders
  {
    hide Partly, Attempt;
    var start := Start(split, size, order, delivered, readOk).senders;
    forall id | id in now
      ensures id in start && now[id] == start[id]
    {
      var k := Index(order, id);
      var spec := StartSpec(split, size, order, readOk, id);
      assert Partly(base[id], now[id], tried[k]);
      Settles(base[id], now[id], StartBurst(split, readOk, spec), spec, id, delivered);
    }
  }

  lemma EndIsReached(s: Primary, order: seq<nat>, now: map<nat, Link>, tried: seq<seq<Message>>,
                     delivered: map<nat, nat>)
    requires Progress(order, s.senders, now, tried)
    requires forall k :: 0 <= k < |order| ==> tried[k] == [Finished]
    requires delivered.Keys == now.Keys
    requires forall id :: id in now ==> delivered[id] == |now[id].trace| - |s.senders[id].trace|
    ensures forall id :: id in s.senders ==>
      now[id] == Attempt(s.senders[id], [Finished], s.senders[id].spec, id, delivered)
  {
    hide Partly, Attempt;
    forall id | id in s.senders
      ensures now[id] == Attempt(s.senders[id], [Finished], s.senders[id].spec, id, delivered)
    {
      var k := Index(order, id);
      assert Partly(s.senders[id], now[id], tried[k]);
      assert [Finished][..0] == [];
      Settles(s.senders[id], now[id], [Finished], s.senders[id].spec, id, delivered);
    }
  }

  class Loop {
    const split: bool
    const size: nat
    var counter: nat
    var senderDropped: bool
    var senders: map<nat, Link>
    var phase: Phase
    ghost var past: set<Link>
    ghost var splits: nat
    ghost var ticks: nat
    ghost var division: Division

    ghost function View(): Primary
      reads this
    {
      Primary(split, size, counter, senderDropped, senders, phase, past, splits, ticks, division)
    }

    constructor (splitJob: bool, rows: nat)
      ensures split == splitJob && size == rows && AtStart()
    {
      split, size := splitJob, rows;
      counter, senderDropped, senders, phase := 0, false, map[], InProgress;
      past, splits, ticks, division := {}, 0, 0, Division([], {});
    }

    ghost predicate AtStart()
      reads this
    {
      View() == Primary(split, size, 0, false, map[], InProgress, {}, 0, 0, Division([], {}))
    }

    // Send each node of `only` its message, in the order of the map.
    method Pass(order: seq<nat>, only: set<nat>, messages: seq<Message>)
      returns (failed: seq<nat>, ghost oks: seq<bool>)
      requires IsOrder(order, senders.Keys) && |messages| == |order|
      modifies this`senders
      ensures |oks| == |order| && Passed(order, only, messages, oks, old(senders), senders)
      ensures forall id :: id in failed <==> id in senders && id in only && !senders[id].up
    {
      failed, oks := [], [];
      ghost var before := senders;
      assert Passing(order, only, messages, oks, before, senders, failed);
      hide Passing, Sent;
      for k := 0 to |order|
        invariant |oks| == k && senders.Keys == before.Keys
        invariant Passing(order, only, messages, oks, before, senders, failed)
      {
        var id := order[k];
        var ok: bool := *;
        PassingNext(order, only, messages, oks, before, senders, failed, ok);
        if id in only {
          senders := senders[id := Sent(senders[id], messages[k], ok)];
          if !senders[id].up {
            failed := failed + [id];
          }
        } else {
          assert senders[id := senders[id]] == senders;
        }
        oks := oks + [ok];
      }
    }

    method SendAll(order: seq<nat>, only: set<nat>, messages: seq<Message>,
                   ghost base: map<nat, Link>, ghost tried: seq<seq<Message>>)
      returns (failed: seq<nat>)
      requires Progress(order, base, senders, tried) && |messages| == |order|
      modifies this`senders
      ensures Progress(order, base, senders, Extended(order, only, messages, tried))
      ensures forall id :: id in failed <==> id in senders && id in only && !senders[id].up
    {
      ghost var oks;
      failed, oks := Pass(order, only, messages);
      PassProgress(order, only, messages, oks, base, old(senders), senders, tried);
    }

    // Open a link to every node found that has none.
    method CreateSenders(joining: set<nat>, counted: bool) returns (newNodes: set<nat>)
      modifies this`senders
      ensures newNodes == joining - old(senders.Keys)
      ensures senders == old(senders) + map id | id in newNodes :: NewLink(counted)
    {
      newNodes := {};
      var left := joining;
      while left != {}
        invariant left <= joining && newNodes == joining - left - old(senders.Keys)
        invariant senders == old(senders) + map id | id in newNodes :: NewLink(counted)
        decreases left
      {
        var id :| id in left;
        left := left - {id};
        if id !in senders {
          senders := senders[id := NewLink(counted)];
          newNodes := newNodes + {id};
        }
      }
    }

    // Send every secondary its message.
    method Broadcast(order: seq<nat>, messages: seq<Message>, ghost base: map<nat, Link>,
                     ghost tried: seq<seq<Message>>)
      returns (failed: seq<nat>, ghost now: seq<seq<Message>>)
      requires Progress(order, base, senders, tried) && |messages| == |order|
      modifies this`senders
      ensures Progress(order, base, senders, now)
      ensures |now| == |order|
      ensures forall k :: 0 <= k < |order| ==> now[k] == tried[k] + [messages[k]]
      ensures forall id :: id in failed <==> id in senders && !senders[id].up
    {
      now := Extended(order, senders.Keys, messages, tried);
      failed := SendAll(order, senders.Keys, messages, base, tried);
    }

    // Deal the rows of the file out among the secondaries.
    method DealRows(order: seq<nat>, ghost base: map<nat, Link>, ghost tried: seq<seq<Message>>)
      returns (ghost now: seq<seq<Message>>)
      requires Progress(order, base, senders, tried) && order != []
      modifies this`senders, this`splits
      ensures Progress(order, base, senders, now) && splits == old(splits) + 1
      ensures forall k :: 0 <= k < |order| ==> now[k] == tried[k] + [Request(Slice(Part(size, |order|, k)))]
    {
      var ranges := SplitRanges(size, |order|);
      var requests := seq(|order|, k requires 0 <= k < |ranges| => Request(Slice(ranges[k])));
      var ignored;
      ignored, now := Broadcast(order, requests, base, tried);
      splits := splits + 1;
    }

    // Tell every secondary to reset, then deal the rows out anew.
    method ResetRequest(order: seq<nat>, readOk: bool, ghost base: map<nat, Link>, ghost tried: seq<seq<Message>>)
      returns (crashed: bool, ghost now: seq<seq<Message>>)
      requires Progress(order, base, senders, tried)
      modifies this`senders, this`splits
      ensures crashed <==> readOk && order == []
      ensures Progress(order, base, senders, now)
      ensures forall k :: 0 <= k < |order| ==> now[k] == tried[k] + ResetMessages(readOk, Slice(Part(size, |order|, k)))
      ensures splits == old(splits) + if readOk && !crashed then 1 else 0
    {
      hide Partly;
      var ignored;
      ignored, now := Broadcast(order, Repeat(Reset, |order|), base, tried);
      crashed := readOk && order == [];
      assert forall k :: 0 <= k < |order| ==> now[k] == tried[k] + [Reset];
      if readOk && order != [] {
        now := DealRows(order, base, now);
      }
    }

    // Send the same message to the nodes of `only`.
    method SendTo(order: seq<nat>, only: set<nat>, m: Message, ghost base: map<nat, Link>,
                  ghost tried: seq<seq<Message>>)
      returns (ghost now: seq<seq<Message>>)
      requires Progress(order, base, senders, tried)
      modifies this`senders
      ensures Progress(order, base, senders, now)
      ensures forall k :: 0 <= k < |order| ==> now[k] == tried[k] + if order[k] in only then [m] else []
    {
      now := Extended(order, only, Repeat(m, |order|), tried);
      var _ := SendAll(order, only, Repeat(m, |order|), base, tried);
    }

    // Bring new nodes into the job: metadata, then a reset of everyone or the request.
    method Greet(newNodes: set<nat>, order: seq<nat>, readOk: bool)
      returns (crashed: bool, ghost now: seq<seq<Message>>)
      requires IsOrder(order, senders.Keys) && newNodes != {}
      modifies this`senders, this`splits
      ensures Progress(order, old(senders), senders, now)
      ensures forall k :: 0 <= k < |order| ==>
        now[k] == Opening(order[k] in newNodes, split, split, readOk, Slice(Part(size, |order|, k)))
      ensures crashed <==> split && readOk && order == []
      ensures splits == old(splits) + if split && readOk && !crashed then 1 else 0
    {
      ghost var base := senders;
      crashed := false;
      now := seq(|order|, _ => []);
      assert Progress(order, base, senders, now);
      hide Partly, Part, IsOrder, ResetMessages;
      now := SendTo(order, newNodes, Metadata, base, now);
      assert forall k :: 0 <= k < |order| ==> now[k] == if order[k] in newNodes then [Metadata] else [];
      if split {
        crashed, now := ResetRequest(order, readOk, base, now);
      } else {
        now := SendTo(order, newNodes, Request(Whole), base, now);
      }
    }

    // Without new nodes the rows are divided anew only after a drop.
    method Repair(order: seq<nat>, readOk: bool) returns (crashed: bool, ghost now: seq<seq<Message>>)
      requires IsOrder(order, senders.Keys)
      modifies this`senders, this`splits, this`senderDropped
      ensures Progress(order, old(senders), senders, now)
      ensures var resplits := split && old(senderDropped);
        && (forall k :: 0 <= k < |order| ==>
              now[k] == Opening(false, resplits, split, readOk, Slice(Part(size, |order|, k))))
        && (crashed <==> resplits && readOk && order == [])
        && splits == old(splits) + (if resplits && readOk && !crashed then 1 else 0)
        && senderDropped == (old(senderDropped) && !resplits)
    {
      crashed, now := false, seq(|order|, _ => []);
      if split && senderDropped {
        senderDropped := false;
        crashed, now := ResetRequest(order, readOk, senders, now);
        assert forall k :: 0 <= k < |order| ==> now[k] == ResetMessages(readOk, Slice(Part(size, |order|, k)));
      }
    }

    // Every eleventh round: look for nodes, and divide the rows anew when needed.
    method Refresh(joining: set<nat>, order: seq<nat>, readOk: bool)
      returns (crashed: bool, ghost newNodes: set<nat>, ghost base: map<nat, Link>, ghost now: seq<seq<Message>>)
      requires IsOrder(order, senders.Keys + joining)
      modifies this`senders, this`splits, this`senderDropped
      ensures newNodes == joining - old(senders.Keys)
      ensures base == old(senders) + map id | id in newNodes :: NewLink(!split || readOk)
      ensures Progress(order, base, senders, now)
      ensures var resplits := split && (newNodes != {} || old(senderDropped));
        && (forall k :: 0 <= k < |order| ==>
              now[k] == Opening(order[k] in newNodes, resplits, split, readOk, Slice(Part(size, |order|, k))))
        && (crashed <==> resplits && readOk && order == [])
        && splits == old(splits) + (if resplits && readOk && !crashed then 1 else 0)
        && senderDropped == (old(senderDropped) && !(resplits && newNodes == {}))
    {
      var joined := CreateSenders(joining, !split || readOk);
      newNodes, base, crashed := joined, senders, false;
      assert senders.Keys == old(senders.Keys) + joining;
      if joined != {} {
        crashed, now := Greet(joined, order, readOk);
      } else {
        crashed, now := Repair(order, readOk);
      }
    }

    // Send every secondary its share of the rates.
    method SendRates(qps: nat, connections: nat, order: seq<nat>, ghost base: map<nat, Link>,
                     ghost tried: seq<seq<Message>>)
      returns (failed: seq<nat>, ghost now: seq<seq<Message>>)
      requires Progress(order, base, senders, tried)
      modifies this`senders
      ensures Progress(order, base, senders, now)
      ensures forall k :: 0 <= k < |order| ==>
        now[k] == tried[k] + [Rates(Share(qps, |order|, k), Share(connections, |order|, k))]
      ensures forall id :: id in failed <==> id in senders && !senders[id].up
    {
      failed, now := [], tried;
      if order != [] {
        var q, c := CalculateReqPerSecondary(qps, connections, |order|);
        var rates := seq(|order|, k requires 0 <= k < |q| && k < |c| => Rates(q[k], c[k]));
        failed, now := Broadcast(order, rates, base, tried);
      }
    }

    // Give up the links that failed.
    method DropFailed(failed: seq<nat>)
      requires forall id :: id in failed <==> id in senders && !senders[id].up
      modifies this`senders, this`past, this`senderDropped
      ensures senders == old(senders) - Failed(old(senders))
      ensures past == old(past) + set id | id in Failed(old(senders)) :: old(senders)[id]
      ensures senderDropped == (old(senderDropped) || Failed(old(senders)) != {})
    {
      ghost var all := senders;
      assert forall id :: id in Failed(all) <==> id in failed;
      past := past + set id | id in Failed(senders) :: senders[id];
      if failed != [] {
        assert failed[0] in Failed(all);
        senderDropped := true;
        for k := 0 to |failed|
          modifies this`senders
          invariant senders == all - set i | 0 <= i < k :: failed[i]
        {
          senders := senders - {failed[k]};
        }
        assert (set i | 0 <= i < |failed| :: failed[i]) == Failed(all);
      } else {
        assert Failed(all) == {};
      }
    }

    // The sends before the rates.
    method OpenRound(joining: set<nat>, order: seq<nat>, readOk: bool, ghost input: Input)
      returns (crashed: bool, ghost tried: seq<seq<Message>>)
      requires input.Tick? && input.joining == joining && input.order == order && input.readOk == readOk
      requires IsOrder(order, if counter == 10 then senders.Keys + joining else senders.Keys)
      modifies this`senders, this`splits, this`senderDropped
      ensures var s := old(View());
        && Progress(order, Joined(s, input), senders, tried)
        && (crashed <==> Divides0(s, input))
        && (crashed ==> senders == s.senders)
        && splits == s.splits + (if Resplits(s, input) && readOk && !crashed then 1 else 0)
        && senderDropped == (s.senderDropped && !(Resplits(s, input) && Newcomers(s, input) == {}))
        && (forall k :: 0 <= k < |order| ==>
              tried[k] == Opening(order[k] in Newcomers(s, input), Resplits(s, input), split, readOk,
                                  Slice(Part(size, |order|, k))))
    {
      ghost var s := View();
      if counter == 10 {
        ghost var newNodes, base;
        crashed, newNodes, base, tried := Refresh(joining, order, readOk);
        assert newNodes == Newcomers(s, input) && base == Joined(s, input);
        EmptyOrder(order, base);
        if crashed {
          assert senders == map[] && s.senders == map[];
        }
      } else {
        crashed, tried := false, seq(|order|, _ => []);
        assert Joined(s, input) == senders;
      }
    }

    // All the sends of a round.
    method Exchange(qps: nat, connections: nat, joining: set<nat>, order: seq<nat>, readOk: bool)
      returns (crashed: bool, failed: seq<nat>, ghost input: Input)
      requires IsOrder(order, if counter == 10 then senders.Keys + joining else senders.Keys)
      modifies this`senders, this`splits, this`senderDropped
      ensures input == Tick(qps, connections, joining, order, input.delivered, readOk)
      ensures var s := old(View());
        && IsOrder(order, Joined(s, input).Keys)
        && (crashed <==> Divides0(s, input))
        && (crashed ==> senders == s.senders)
        && (!crashed ==> senders == Attempted(s, input))
        && splits == s.splits + (if Resplits(s, input) && readOk && !crashed then 1 else 0)
        && senderDropped == (s.senderDropped && !(Resplits(s, input) && Newcomers(s, input) == {}))
      ensures !crashed ==> forall id :: id in failed <==> id in senders && !senders[id].up
    {
      hide Joined, Newcomers, Resplits, Divides0, Opening, Burst, Attempted, Partly, Part, Share;
      ghost var s := View();
      ghost var tried;
      input := Tick(qps, connections, joining, order, map[], readOk);
      failed := [];
      crashed, tried := OpenRound(joining, order, readOk, input);
      if crashed {
        return;
      }
      ghost var base := Joined(s, input);
      failed, tried := SendRates(qps, connections, order, base, tried);
      ghost var delivered := Delivered(base, senders, order, tried);
      DeliveredIsFree(s, input, delivered);
      input := input.(delivered := delivered);
      TriedIsBurst(s, input, tried);
      RoundIsStep(s, input, senders, tried);
    }

    /** One round of the loop, in which the nodes of `joining` can be reached and the
        map is iterated in `order`. */
    method Round(qps: nat, connections: nat, joining: set<nat>, order: seq<nat>, readOk: bool)
      returns (ghost input: Input)
      requires phase.InProgress?
      requires IsOrder(order, if counter == 10 then senders.Keys + joining else senders.Keys)
      modifies this
      ensures input == Tick(qps, connections, joining, order, input.delivered, readOk)
      ensures Possible(old(View()), input) && View() == Next(old(View()), input) && !phase.Completed?
    {
      hide Burst, SpecFor, Attempt, Dealt, NextDivision;
      ghost var s := View();
      var crashed, failed;
      crashed, failed, input := Exchange(qps, connections, joining, order, readOk);
      if crashed {
        phase := Crashed;
        return;
      }
      counter := if counter == 10 then 0 else counter + 1;
      division := NextDivision(s, input, Failed(senders));
      DropFailed(failed);
      ticks := ticks + 1;
    }

    // Metadata and request for every new link.
    method Introduce(nodes: set<nat>, order: seq<nat>, readOk: bool)
      returns (crashed: bool, ghost now: seq<seq<Message>>)
      requires senders.Keys == nodes && IsOrder(order, nodes)
      modifies this`senders, this`splits
      ensures Progress(order, old(senders), senders, now)
      ensures crashed <==> split && readOk && order == []
      ensures splits == old(splits) + if split && readOk && !crashed then 1 else 0
      ensures forall k :: 0 <= k < |order| ==>
        now[k] == StartBurst(split, readOk, if split && readOk then Slice(Part(size, |order|, k)) else Whole)
    {
      hide Partly, Part;
      ghost var base := senders;
      crashed := split && readOk && order == [];
      NoneTried(order, base);
      now := SendTo(order, nodes, Metadata, base, seq(|order|, _ => []));
      assert forall k :: 0 <= k < |order| ==> now[k] == [Metadata];
      if !split {
        now := SendTo(order, nodes, Request(Whole), base, now);
      } else if readOk && order != [] {
        now := DealRows(order, base, now);
      }
    }

    // Open a link to every node found and send it metadata and request.
    method InitSenders(nodes: set<nat>, order: seq<nat>, readOk: bool) returns (ghost delivered: map<nat, nat>)
      requires AtStart() && IsOrder(order, nodes)
      modifies this
      ensures View() == Start(split, size, order, delivered, readOk) && !phase.Completed?
    {
      hide Partly, Attempt, StartBurst, Part, FirstDivision, Index;
      var _ := CreateSenders(nodes, !split || readOk);
      assert senders.Keys == nodes;
      ghost var base := senders;
      var crashed;
      ghost var now;
      crashed, now := Introduce(nodes, order, readOk);
      if crashed {
        phase := Crashed;
      }
      division := FirstDivision(split && readOk, order);
      delivered := Delivered(base, senders, order, now);
      StartIsReached(split, size, order, readOk, base, senders, now, delivered);
    }

    // The end message for every link.
    method Dismiss(order: seq<nat>) returns (ghost delivered: map<nat, nat>)
      requires IsOrder(order, senders.Keys)
      modifies this`senders
      ensures senders.Keys == old(senders.Keys)
      ensures forall id :: id in senders ==>
        senders[id] == Attempt(old(senders)[id], [Finished], old(senders)[id].spec, id, delivered)
    {
      hide Partly, Attempt;
      ghost var s := View();
      NoneTried(order, senders);
      ghost var now := SendTo(order, senders.Keys, Finished, senders, seq(|order|, _ => []));
      assert forall k :: 0 <= k < |order| ==> now[k] == [Finished];
      delivered := Delivered(s.senders, senders, order, now);
      EndIsReached(s, order, senders, now, delivered);
    }

    // Tell every secondary that the job is over, and drop the links.
    method Finish(order: seq<nat>) returns (ghost input: Input)
      requires phase.InProgress? && IsOrder(order, senders.Keys)
      modifies this
      ensures input.End? && Possible(old(View()), input) && View() == Next(old(View()), input)
      ensures phase.Completed? && senders == map[]
    {
      hide Attempt, IsOrder;
      ghost var s := View();
      ghost var delivered := Dismiss(order);
      past := past + set id | id in senders :: senders[id];
      assert (set id | id in senders :: senders[id])
          == set id | id in s.senders :: Attempt(s.senders[id], [Finished], s.senders[id].spec, id, delivered);
      input := End(delivered);
      senders := map[];
      phase := Completed;
      division := division.(open := {});
    }
  }
}
