/** What holds in every run of the primary and its secondaries. */
module ClusterGuarantees {
  import opened Arithmetic
  import opened WorkDivision
  import opened ClusterProtocol

  /** What the secondary at the other end makes of a channel. */
  function Reads(link: Link): Secondary { Feed(AwaitMetadata, link.trace) }

  // ---------- which channels are accepted ----------

  // Something besides the opening of the channel got through.
  predicate Told(trace: seq<Message>) {
    exists i :: 0 <= i < |trace| && (trace[i].Rates? || trace[i].Finished?)
  }

  predicate Waits(s: Secondary) { s.AwaitMetadata? || s.AwaitRequest? }

  /** A link opened with the rows counted is never rejected, and while it works its
      secondary is in its loop with the share meant for it. Any other link is rejected
      as soon as anything but its opening gets through. */
  predicate LinkOk(link: Link) {
    if link.counted then
      && !Reads(link).Broken?
      && (link.up ==> Reads(link).Loop? && Reads(link).spec == link.spec)
    else if Told(link.trace) then Reads(link).Broken?
    else Waits(Reads(link))
  }

  predicate RejectedIfUncounted(link: Link) {
    Reads(link).Broken? <==> !link.counted && Told(link.trace)
  }

  lemma FeedOne(s: Secondary, a: Message)
    ensures Feed(s, [a]) == Receive(s, a)
  {
    assert [a][..0] == [];
  }

  lemma FeedTwo(s: Secondary, a: Message, b: Message)
    ensures Feed(s, [a, b]) == Receive(Receive(s, a), b)
  {
    assert [a, b][..1] == [a];
    FeedOne(s, a);
  }

  lemma FeedThree(s: Secondary, a: Message, b: Message, c: Message)
    ensures Feed(s, [a, b, c]) == Receive(Receive(Receive(s, a), b), c)
  {
    assert [a, b, c][..2] == [a, b];
    FeedTwo(s, a, b);
  }

  lemma FeedFour(s: Secondary, a: Message, b: Message, c: Message, d: Message)
    ensures Feed(s, [a, b, c, d]) == Receive(Receive(Receive(Receive(s, a), b), c), d)
  {
    assert [a, b, c, d][..3] == [a, b, c];
    FeedThree(s, a, b, c);
  }

  lemma ToldConcat(a: seq<Message>, b: seq<Message>)
    ensures Told(a + b) <==> Told(a) || Told(b)
  {
    if Told(a) {
      var i :| 0 <= i < |a| && (a[i].Rates? || a[i].Finished?);
      assert (a + b)[i] == a[i];
    }
    if Told(b) {
      var i :| 0 <= i < |b| && (b[i].Rates? || b[i].Finished?);
      assert (a + b)[|a| + i] == b[i];
    }
  }

  // How much of a burst gets through.
  function Through(link: Link, burst: seq<Message>, id: nat, delivered: map<nat, nat>): nat {
    if !link.up then 0 else if id in delivered then Min(delivered[id], |burst|) else |burst|
  }

  lemma AttemptReads(link: Link, burst: seq<Message>, spec: Spec, id: nat, delivered: map<nat, nat>)
    ensures var after, d := Attempt(link, burst, spec, id, delivered), Through(link, burst, id, delivered);
      && d <= |burst| && after.trace == link.trace + burst[..d]
      && (after.up <==> link.up && d == |burst|)
      && Reads(after) == Feed(Reads(link), burst[..d])
      && (Told(after.trace) <==> Told(link.trace) || Told(burst[..d]))
  {
    var d := Through(link, burst, id, delivered);
    assert !link.up ==> link.trace + burst[..0] == link.trace;
    FeedConcat(AwaitMetadata, link.trace, burst[..d]);
    ToldConcat(link.trace, burst[..d]);
  }

  // ---------- links opened with the rows counted ----------

  // A burst that brings the secondary back to its loop leaves a good link, however much of it gets through.
  lemma AttemptOk(link: Link, burst: seq<Message>, spec: Spec, id: nat, delivered: map<nat, nat>)
    requires link.counted && !Reads(link).Broken?
    requires link.up ==> Feed(Reads(link), burst).Loop? && Feed(Reads(link), burst).spec == spec
    ensures LinkOk(Attempt(link, burst, spec, id, delivered))
  {
    AttemptReads(link, burst, spec, id, delivered);
    if link.up {
      PrefixAccepted(Reads(link), burst, Through(link, burst, id, delivered));
      assert burst[..|burst|] == burst;
    }
  }

  // What a round sends a secondary, opening and rates, takes it back to its loop.
  lemma OpeningOk(from: Secondary, isNew: bool, resplits: bool, split: bool, readOk: bool, spec: Spec, rates: Message)
    requires rates.Rates? && (resplits ==> split)
    requires isNew ==> from == AwaitMetadata && if split then resplits && readOk else spec == Whole
    requires !isNew ==> from.Loop? && (from.spec == spec || (resplits && readOk))
    ensures var r := Feed(from, Opening(isNew, resplits, split, readOk, spec) + [rates]); r.Loop? && r.spec == spec
  {
    hide Feed;
    var burst := Opening(isNew, resplits, split, readOk, spec) + [rates];
    if isNew && split {
      assert burst == [Metadata, Reset, Request(spec), rates];
      FeedFour(from, Metadata, Reset, Request(spec), rates);
    } else if isNew {
      assert burst == [Metadata, Request(Whole), rates];
      FeedThree(from, Metadata, Request(Whole), rates);
    } else if resplits && readOk {
      assert burst == [Reset, Request(spec), rates];
      FeedThree(from, Reset, Request(spec), rates);
    } else if resplits {
      assert burst == [Reset, rates];
      FeedTwo(from, Reset, rates);
    } else {
      assert burst == [rates];
      FeedOne(from, rates);
    }
  }

  // The burst of a round takes a secondary from wherever it is back to its loop.
  lemma BurstOk(s: Primary, input: Input, id: nat)
    requires Possible(s, input) && input.Tick? && id in Joined(s, input) && Joined(s, input)[id].counted
    requires id in s.senders ==> LinkOk(s.senders[id])
    ensures var link := Joined(s, input)[id];
      && !Reads(link).Broken?
      && (link.up ==> var r := Feed(Reads(link), Burst(s, input, id)); r.Loop? && r.spec == SpecFor(s, input, id))
  {
    hide Opening, Receive, Index, Share, Dealt;
    var link := Joined(s, input)[id];
    var isNew := id in Newcomers(s, input);
    if link.up {
      var i, n := Index(input.order, id), |input.order|;
      var rates := Rates(Share(input.qps, n, i), Share(input.connections, n, i));
      assert isNew ==> link == NewLink(true);
      OpeningOk(Reads(link), isNew, Resplits(s, input), s.split, input.readOk, SpecFor(s, input, id), rates);
    }
  }

  // ---------- the other links ----------

  lemma RejectedStays(link: Link, burst: seq<Message>, spec: Spec, id: nat, delivered: map<nat, nat>)
    requires !link.counted && LinkOk(link) && (!link.up || Told(link.trace))
    ensures LinkOk(Attempt(link, burst, spec, id, delivered))
  {
    var d := Through(link, burst, id, delivered);
    AttemptReads(link, burst, spec, id, delivered);
    BrokenStays(burst[..d]);
    if !link.up { assert burst[..d] == []; }
  }

  lemma RejectedNow(link: Link, m: Message, spec: Spec, id: nat, delivered: map<nat, nat>)
    requires !link.counted && LinkOk(link) && !Told(link.trace) && (m.Rates? || m.Finished?)
    ensures LinkOk(Attempt(link, [m], spec, id, delivered))
  {
    var d := Through(link, [m], id, delivered);
    AttemptReads(link, [m], spec, id, delivered);
    FeedOne(Reads(link), m);
    assert d == 1 ==> [m][..d] == [m] && [m][0] == m;
  }

  // As much of the burst of such a newcomer as gets through.
  lemma UncountedNewcomer(trace: seq<Message>, up: bool, spec: Spec)
    requires trace == [] || trace == [Metadata] || trace == [Metadata, Reset]
             || (|trace| == 3 && trace[..2] == [Metadata, Reset] && trace[2].Rates?)
    ensures LinkOk(Link(trace, up, spec, false))
  {
    FeedOne(AwaitMetadata, Metadata);
    FeedTwo(AwaitMetadata, Metadata, Reset);
    if |trace| == 3 {
      assert trace == [Metadata, Reset, trace[2]];
      FeedThree(AwaitMetadata, Metadata, Reset, trace[2]);
    }
  }

  lemma UncountedTick(s: Primary, input: Input, id: nat)
    requires Accepted(s) && Possible(s, input) && input.Tick? && id in Joined(s, input)
    requires !Joined(s, input)[id].counted
    ensures LinkOk(Attempted(s, input)[id])
  {
    var link := Joined(s, input)[id];
    var spec := SpecFor(s, input, id);
    var i, n := Index(input.order, id), |input.order|;
    var rates := Rates(Share(input.qps, n, i), Share(input.connections, n, i));
    if id in Newcomers(s, input) {
      var now := Attempt(link, Burst(s, input, id), spec, id, input.delivered);
      assert Burst(s, input, id) == [Metadata, Reset, rates];
      UncountedNewcomer(now.trace, now.up, spec);
    } else if !link.up || Told(link.trace) {
      RejectedStays(link, Burst(s, input, id), spec, id, input.delivered);
    } else {
      assert s.ticks == 0 && !Resplits(s, input);
      assert Burst(s, input, id) == [rates];
      RejectedNow(link, rates, spec, id, input.delivered);
    }
  }

  // ---------- every step ----------

  predicate Accepted(s: Primary) {
    && (forall id :: id in s.senders ==> LinkOk(s.senders[id]))
    && (forall link :: link in s.past ==> RejectedIfUncounted(link))
    && (s.ticks == 0 ==> s.counter == 0)
    && (s.ticks > 0 ==> forall id :: id in s.senders ==> s.senders[id].up && Told(s.senders[id].trace))
  }

  lemma BurstTells(s: Primary, input: Input, id: nat)
    requires Possible(s, input) && input.Tick? && id in Joined(s, input)
    ensures Attempted(s, input)[id].up ==> Told(Attempted(s, input)[id].trace)
  {
    var burst := Burst(s, input, id);
    hide Burst, Told, Attempt;
    AttemptReads(Joined(s, input)[id], burst, SpecFor(s, input, id), id, input.delivered);
  }

  lemma TickAccepted(s: Primary, input: Input, id: nat)
    requires Accepted(s) && Possible(s, input) && input.Tick? && id in Joined(s, input)
    ensures LinkOk(Attempted(s, input)[id])
  {
    hide Burst;
    if Joined(s, input)[id].counted {
      BurstOk(s, input, id);
      AttemptOk(Joined(s, input)[id], Burst(s, input, id), SpecFor(s, input, id), id, input.delivered);
    } else {
      UncountedTick(s, input, id);
    }
  }

  lemma EndOk(link: Link, id: nat, delivered: map<nat, nat>)
    requires LinkOk(link)
    ensures RejectedIfUncounted(Attempt(link, [Finished], link.spec, id, delivered))
  {
    var d := Through(link, [Finished], id, delivered);
    AttemptReads(link, [Finished], link.spec, id, delivered);
    if link.counted {
      FeedOne(Reads(link), Finished);
      assert d == 1 ==> [Finished][..d] == [Finished];
    } else if Told(link.trace) {
      RejectedStays(link, [Finished], link.spec, id, delivered);
    } else {
      RejectedNow(link, Finished, link.spec, id, delivered);
    }
  }

  lemma AcceptedTick(s: Primary, input: Input)
    requires Accepted(s) && Possible(s, input) && input.Tick?
    ensures Accepted(DoTick(s, input))
  {
    hide LinkOk, Told, Attempt, Burst, Reads;
    forall id | id in Joined(s, input)
      ensures LinkOk(Attempted(s, input)[id]) && RejectedIfUncounted(Attempted(s, input)[id])
      ensures Attempted(s, input)[id].up ==> Told(Attempted(s, input)[id].trace)
    {
      TickAccepted(s, input, id);
      OkIsExact(Attempted(s, input)[id]);
      BurstTells(s, input, id);
    }
    hide RejectedIfUncounted, Attempted, Joined;
    AttemptedKeys(s, input);
  }

  lemma AttemptedKeys(s: Primary, input: Input)
    requires Possible(s, input) && input.Tick?
    ensures Attempted(s, input).Keys == Joined(s, input).Keys
  {
  }

  lemma AcceptedNext(s: Primary, input: Input)
    requires Accepted(s)
    ensures Accepted(Next(s, input))
  {
    hide LinkOk, Told, Attempt, Burst, DoTick;
    if Possible(s, input) {
      if input.Tick? {
        AcceptedTick(s, input);
      } else {
        forall id | id in s.senders
          ensures RejectedIfUncounted(Attempt(s.senders[id], [Finished], s.senders[id].spec, id, input.delivered))
        {
          EndOk(s.senders[id], id, input.delivered);
        }
      }
    }
  }

  lemma OkIsExact(link: Link)
    requires LinkOk(link)
    ensures RejectedIfUncounted(link)
  {
  }

  lemma StartAccepted(split: bool, size: nat, order: seq<nat>, delivered: map<nat, nat>, readOk: bool)
    requires Distinct(order)
    ensures Accepted(Start(split, size, order, delivered, readOk))
  {
    forall id | id in order
      ensures LinkOk(Start(split, size, order, delivered, readOk).senders[id])
    {
      var spec := StartSpec(split, size, order, readOk, id);
      if !split || readOk {
        assert StartBurst(split, readOk, spec) == [Metadata, Request(spec)];
        FeedTwo(AwaitMetadata, Metadata, Request(spec));
        AttemptOk(NewLink(true), [Metadata, Request(spec)], spec, id, delivered);
      } else {
        assert StartBurst(split, readOk, spec) == [Metadata];
        UncountedStart(spec, id, delivered);
      }
    }
  }

  lemma UncountedStart(spec: Spec, id: nat, delivered: map<nat, nat>)
    ensures LinkOk(Attempt(NewLink(false), [Metadata], spec, id, delivered))
  {
    var d := Through(NewLink(false), [Metadata], id, delivered);
    AttemptReads(NewLink(false), [Metadata], spec, id, delivered);
    FeedOne(AwaitMetadata, Metadata);
    assert d == 1 ==> [Metadata][..d] == [Metadata];
  }

  lemma {:induction false} AcceptedRun(s: Primary, inputs: seq<Input>)
    requires Accepted(s)
    ensures Accepted(Run(s, inputs))
    decreases |inputs|
  {
    if inputs != [] {
      AcceptedNext(s, inputs[0]);
      AcceptedRun(Next(s, inputs[0]), inputs[1..]);
    }
  }

  /** In every run, a channel makes its secondary fail the handshake or report an
      unexpected message if and only if the rows could not be counted when it was opened
      and more than its opening got through; from the second round on that is every
      current channel that was opened so. */
  lemma AcceptedIffCounted(split: bool, size: nat, order: seq<nat>, delivered: map<nat, nat>, readOk: bool,
                           inputs: seq<Input>, link: Link)
    requires Distinct(order)
    ensures var s := Run(Start(split, size, order, delivered, readOk), inputs);
      && (link in s.past || link in s.senders.Values ==>
            (Feed(AwaitMetadata, link.trace).Broken? <==> !link.counted && Told(link.trace)))
      && (link in s.senders.Values && s.ticks > 0 ==> (Feed(AwaitMetadata, link.trace).Broken? <==> !link.counted))
  {
    StartAccepted(split, size, order, delivered, readOk);
    AcceptedRun(Start(split, size, order, delivered, readOk), inputs);
  }

  // ---------- runs that can count the rows ----------

  /** The rows can be counted in every round that divides them. */
  predicate CountsRows(s: Primary, inputs: seq<Input>)
    decreases |inputs|
  {
    inputs != [] ==>
      && (Possible(s, inputs[0]) && inputs[0].Tick? && Resplits(s, inputs[0]) ==> inputs[0].readOk)
      && CountsRows(Next(s, inputs[0]), inputs[1..])
  }

  /** The rows can be counted in every round in which a node joins a split job. */
  predicate CountsForNewcomers(s: Primary, inputs: seq<Input>)
    decreases |inputs|
  {
    inputs != [] ==>
      && (Possible(s, inputs[0]) && inputs[0].Tick? && s.split && Newcomers(s, inputs[0]) != {} ==> inputs[0].readOk)
      && CountsForNewcomers(Next(s, inputs[0]), inputs[1..])
  }

  lemma {:induction false} CountingRowsCountsForNewcomers(s: Primary, inputs: seq<Input>)
    requires Accepted(s) && CountsRows(s, inputs)
    ensures CountsForNewcomers(s, inputs)
    decreases |inputs|
  {
    if inputs != [] {
      AcceptedNext(s, inputs[0]);
      CountingRowsCountsForNewcomers(Next(s, inputs[0]), inputs[1..]);
    }
  }

  predicate AllCounted(s: Primary) {
    && (forall id :: id in s.senders ==> s.senders[id].counted)
    && (forall link :: link in s.past ==> link.counted)
  }

  lemma {:induction false} AllCountedRun(s: Primary, inputs: seq<Input>)
    requires AllCounted(s) && CountsForNewcomers(s, inputs)
    ensures AllCounted(Run(s, inputs))
    decreases |inputs|
  {
    if inputs != [] {
      var t := Next(s, inputs[0]);
      assert AllCounted(t) by {
        hide Attempt, Burst;
        if Possible(s, inputs[0]) && inputs[0].Tick? {
          assert forall id :: id in Joined(s, inputs[0]) ==> Joined(s, inputs[0])[id].counted;
        }
      }
      AllCountedRun(t, inputs[1..]);
    }
  }

  /** When the rows can be counted at the start and whenever a node joins, no secondary
      fails its handshake or reports an unexpected message, whatever the run. */
  lemma EveryTraceIsAccepted(split: bool, size: nat, order: seq<nat>, delivered: map<nat, nat>, readOk: bool,
                             inputs: seq<Input>, link: Link)
    requires Distinct(order) && (split ==> readOk)
    requires CountsForNewcomers(Start(split, size, order, delivered, readOk), inputs)
    ensures var s := Run(Start(split, size, order, delivered, readOk), inputs);
      link in s.past || link in s.senders.Values ==> !Feed(AwaitMetadata, link.trace).Broken?
  {
    AcceptedIffCounted(split, size, order, delivered, readOk, inputs, link);
    AllCountedRun(Start(split, size, order, delivered, readOk), inputs);
  }

  // ---------- rows stay covered ----------

  // The slices of the senders are the parts of the file, dealt in some order.
  predicate DealtIn(senders: map<nat, Link>, size: nat, order: seq<nat>) {
    && IsOrder(order, senders.Keys) && order != []
    && (forall id :: id in order ==> id in senders && senders[id].spec == Dealt(size, order, id))
  }

  ghost predicate Covered(s: Primary) {
    && s.counter <= 10
    && (s.ticks > 0 ==> forall id :: id in s.senders ==> s.senders[id].up)
    && (s.split && s.phase.InProgress? && !s.senderDropped ==> exists order :: DealtIn(s.senders, s.size, order))
  }

  // A round without a failure keeps every link, with the share meant for it.
  lemma NothingFailed(links: map<nat, Link>)
    requires Failed(links) == {}
    ensures links - Failed(links) == links
    ensures forall id :: id in links ==> links[id].up
  {
    forall id | id in links ensures links[id].up {
      assert id !in Failed(links);
    }
  }

  lemma RedealtTick(s: Primary, input: Input)
    requires Possible(s, input) && input.Tick? && input.readOk
    requires Resplits(s, input) && !Divides0(s, input)
    ensures DealtIn(Attempted(s, input), s.size, input.order)
  {
    assert Attempted(s, input).Keys == Joined(s, input).Keys;
    forall id | id in input.order
      ensures Attempted(s, input)[id].spec == Dealt(s.size, input.order, id)
    {
      assert id in Joined(s, input);
      assert SpecFor(s, input, id) == Dealt(s.size, input.order, id);
    }
  }

  lemma UnchangedTick(s: Primary, input: Input, order: seq<nat>)
    requires Possible(s, input) && input.Tick? && s.split && !Resplits(s, input)
    requires DealtIn(s.senders, s.size, order)
    ensures DealtIn(Attempted(s, input), s.size, order)
  {
    assert Newcomers(s, input) == {};
    assert Joined(s, input) == s.senders;
    assert Attempted(s, input).Keys == s.senders.Keys;
    forall id | id in order
      ensures Attempted(s, input)[id].spec == s.senders[id].spec
    {
      assert SpecFor(s, input, id) == s.senders[id].spec;
    }
  }

  lemma CoveredNext(s: Primary, input: Input)
    requires Covered(s) && CountsRows(s, [input])
    ensures Covered(Next(s, input))
  {
    var t := Next(s, input);
    if Possible(s, input) && input.Tick? && s.split && t.phase.InProgress? && !t.senderDropped {
      NothingFailed(Attempted(s, input));
      assert t.senders == Attempted(s, input);
      if Resplits(s, input) {
        RedealtTick(s, input);
      } else {
        var order :| DealtIn(s.senders, s.size, order);
        UnchangedTick(s, input, order);
      }
    }
  }

  lemma {:induction false} CoveredRun(s: Primary, inputs: seq<Input>)
    requires Covered(s) && CountsRows(s, inputs)
    ensures Covered(Run(s, inputs))
    decreases |inputs|
  {
    if inputs != [] {
      CoveredNext(s, inputs[0]);
      CoveredRun(Next(s, inputs[0]), inputs[1..]);
    }
  }

  lemma StartCovered(split: bool, size: nat, order: seq<nat>, delivered: map<nat, nat>)
    requires Distinct(order)
    ensures Covered(Start(split, size, order, delivered, true))
  {
    var s := Start(split, size, order, delivered, true);
    if split && order != [] {
      assert DealtIn(s.senders, s.size, order);
    }
  }

  /** The slice a secondary reads once it has consumed its channel. */
  predicate ReadsSlice(link: Link, rows: Rows) {
    Reads(link).Loop? && Reads(link).spec == Slice(rows)
  }

  lemma {:induction false} OrderLength(order: seq<nat>, ids: set<nat>)
    requires IsOrder(order, ids)
    ensures |order| == |ids|
    decreases |order|
  {
    if order == [] {
      assert ids == {};
    } else {
      var rest := ids - {order[0]};
      forall id | id in rest ensures id in order[1..] {
        assert id in order;
      }
      OrderLength(order[1..], rest);
      assert ids == rest + {order[0]};
    }
  }

  // After a round a sender of a split job that deals in `order` reads its part of the file.
  lemma ReadsItsPart(s: Primary, order: seq<nat>, k: nat)
    requires Accepted(s) && AllCounted(s) && Covered(s) && s.ticks > 0
    requires DealtIn(s.senders, s.size, order) && k < |order|
    ensures order[k] in s.senders && ReadsSlice(s.senders[order[k]], Part(s.size, |order|, k))
  {
    assert order[k] in s.senders;
    assert LinkOk(s.senders[order[k]]);
    assert Index(order, order[k]) == k;
  }

  lemma Reached(size: nat, order: seq<nat>, delivered: map<nat, nat>, inputs: seq<Input>)
    requires Distinct(order) && CountsRows(Start(true, size, order, delivered, true), inputs)
    ensures var s := Run(Start(true, size, order, delivered, true), inputs);
      Accepted(s) && AllCounted(s) && Covered(s) && s.split && s.size == size
  {
    StartAccepted(true, size, order, delivered, true);
    AcceptedRun(Start(true, size, order, delivered, true), inputs);
    CountingRowsCountsForNewcomers(Start(true, size, order, delivered, true), inputs);
    AllCountedRun(Start(true, size, order, delivered, true), inputs);
    StartCovered(true, size, order, delivered);
    CoveredRun(Start(true, size, order, delivered, true), inputs);
    JobIsFixed(Start(true, size, order, delivered, true), inputs);
  }

  lemma {:induction false} JobIsFixed(s: Primary, inputs: seq<Input>)
    ensures Run(s, inputs).split == s.split && Run(s, inputs).size == s.size
    decreases |inputs|
  {
    if inputs != [] {
      JobIsFixed(Next(s, inputs[0]), inputs[1..]);
    }
  }

  predicate Assigned(senders: map<nat, Link>, row: nat) {
    exists id :: id in senders && senders[id].spec.Slice? && InRange(row, senders[id].spec.rows)
  }

  lemma DealtIsAssigned(senders: map<nat, Link>, size: nat, order: seq<nat>, row: nat)
    requires DealtIn(senders, size, order) && 1 <= row <= size
    ensures Assigned(senders, row)
  {
    PartsCover(size, |order|, row);
    var k :| 0 <= k < |order| && InRange(row, Parts(size, |order|)[k]);
    assert Index(order, order[k]) == k;
    assert senders[order[k]].spec == Dealt(size, order, order[k]);
  }

  /** At the head of every round, unless a drop is still unrepaired, each row of the
      file is assigned to one of the current secondaries. */
  lemma EveryRowIsAssigned(size: nat, order: seq<nat>, delivered: map<nat, nat>, inputs: seq<Input>, row: nat)
    requires Distinct(order) && CountsRows(Start(true, size, order, delivered, true), inputs) && 1 <= row <= size
    ensures var s := Run(Start(true, size, order, delivered, true), inputs);
      s.phase.InProgress? && !s.senderDropped ==> Assigned(s.senders, row)
  {
    var s := Run(Start(true, size, order, delivered, true), inputs);
    Reached(size, order, delivered, inputs);
    if s.phase.InProgress? && !s.senderDropped {
      var dealt :| DealtIn(s.senders, s.size, dealt);
      DealtIsAssigned(s.senders, size, dealt, row);
    }
  }

  /** At the head of every round but the first, unless a drop is still unrepaired,
      each row of the file is read by one of the current secondaries. */
  lemma EveryRowIsRead(size: nat, order: seq<nat>, delivered: map<nat, nat>, inputs: seq<Input>, row: nat)
    requires Distinct(order) && CountsRows(Start(true, size, order, delivered, true), inputs) && 1 <= row <= size
    ensures var s := Run(Start(true, size, order, delivered, true), inputs);
      s.phase.InProgress? && !s.senderDropped && s.ticks > 0 ==>
        exists id, rows :: id in s.senders && ReadsSlice(s.senders[id], rows) && InRange(row, rows)
  {
    var s := Run(Start(true, size, order, delivered, true), inputs);
    Reached(size, order, delivered, inputs);
    if s.phase.InProgress? && !s.senderDropped && s.ticks > 0 {
      var dealt :| DealtIn(s.senders, s.size, dealt);
      PartsCover(size, |dealt|, row);
      var k :| 0 <= k < |dealt| && InRange(row, Parts(size, |dealt|)[k]);
      ReadsItsPart(s, dealt, k);
    }
  }

  /** No secondary reads over one row more than another. */
  ghost predicate Balanced(senders: map<nat, Link>) {
    forall a, b, ra, rb ::
      (a in senders && b in senders && ReadsSlice(senders[a], ra) && ReadsSlice(senders[b], rb))
      ==> Length(ra) <= Length(rb) + 1
  }

  /** No two secondaries read the same row. */
  ghost predicate NothingShared(senders: map<nat, Link>) {
    forall a, b, ra, rb ::
      (a in senders && b in senders && a != b && ReadsSlice(senders[a], ra) && ReadsSlice(senders[b], rb))
      ==> Disjoint(ra, rb)
  }

  lemma DealtIsBalanced(s: Primary, order: seq<nat>)
    requires Accepted(s) && AllCounted(s) && Covered(s) && s.ticks > 0 && s.size >= 1
    requires DealtIn(s.senders, s.size, order)
    ensures Balanced(s.senders)
  {
    forall a, b, ra, rb
      | a in s.senders && b in s.senders && ReadsSlice(s.senders[a], ra) && ReadsSlice(s.senders[b], rb)
      ensures Length(ra) <= Length(rb) + 1
    {
      var i, j := Index(order, a), Index(order, b);
      ReadsItsPart(s, order, i);
      ReadsItsPart(s, order, j);
      PartsBalanced(s.size, |order|, i, j);
    }
  }

  lemma DealtIsDisjoint(s: Primary, order: seq<nat>)
    requires Accepted(s) && AllCounted(s) && Covered(s) && s.ticks > 0
    requires DealtIn(s.senders, s.size, order) && s.size >= |order|
    ensures NothingShared(s.senders)
  {
    PartsDisjoint(s.size, |order|);
    forall a, b, ra, rb
      | a in s.senders && b in s.senders && a != b && ReadsSlice(s.senders[a], ra) && ReadsSlice(s.senders[b], rb)
      ensures Disjoint(ra, rb)
    {
      var i, j := Index(order, a), Index(order, b);
      ReadsItsPart(s, order, i);
      ReadsItsPart(s, order, j);
      var parts := Parts(s.size, |order|);
      assert Disjoint(parts[if i < j then i else j], parts[if i < j then j else i]);
    }
  }

  lemma TooFewRowsAreShared(s: Primary, order: seq<nat>)
    requires Accepted(s) && AllCounted(s) && Covered(s) && s.ticks > 0
    requires DealtIn(s.senders, s.size, order) && 1 <= s.size < |order|
    ensures !NothingShared(s.senders)
  {
    PartsDisjoint(s.size, |order|);
    var parts := Parts(s.size, |order|);
    var i, j :| 0 <= i < j < |order| && !Disjoint(parts[i], parts[j]);
    ReadsItsPart(s, order, i);
    ReadsItsPart(s, order, j);
    assert order[i] != order[j];
  }

  /** And then the slices are balanced to within one row, and no two secondaries share
      a row if and only if there are at least as many rows as secondaries. */
  lemma SlicesAreFair(size: nat, order: seq<nat>, delivered: map<nat, nat>, inputs: seq<Input>)
    requires Distinct(order) && CountsRows(Start(true, size, order, delivered, true), inputs) && size >= 1
    ensures var s := Run(Start(true, size, order, delivered, true), inputs);
      s.phase.InProgress? && !s.senderDropped && s.ticks > 0 ==>
        Balanced(s.senders) && (NothingShared(s.senders) <==> size >= |s.senders|)
  {
    var s := Run(Start(true, size, order, delivered, true), inputs);
    Reached(size, order, delivered, inputs);
    if s.phase.InProgress? && !s.senderDropped && s.ticks > 0 {
      var dealt :| DealtIn(s.senders, s.size, dealt);
      OrderLength(dealt, s.senders.Keys);
      DealtIsBalanced(s, dealt);
      if size >= |dealt| {
        DealtIsDisjoint(s, dealt);
      } else {
        TooFewRowsAreShared(s, dealt);
      }
    }
  }

  /** Everyone is assigned a slice, and the lengths differ by at most one row. */
  predicate AssignedEvenly(senders: map<nat, Link>) {
    && (forall id :: id in senders ==> senders[id].spec.Slice?)
    && (forall a, b :: a in senders && b in senders ==>
          Length(senders[a].spec.rows) <= Length(senders[b].spec.rows) + 1)
  }

  predicate AssignedApart(senders: map<nat, Link>)
    requires AssignedEvenly(senders)
  {
    forall a, b :: a in senders && b in senders && a != b ==> Disjoint(senders[a].spec.rows, senders[b].spec.rows)
  }

  lemma AssignedItsPart(senders: map<nat, Link>, size: nat, order: seq<nat>, id: nat)
    requires DealtIn(senders, size, order) && id in senders
    ensures senders[id].spec == Slice(Part(size, |order|, Index(order, id)))
  {
    assert id in order;
  }

  lemma DealtIsEven(senders: map<nat, Link>, size: nat, order: seq<nat>)
    requires DealtIn(senders, size, order) && size >= 1
    ensures AssignedEvenly(senders) && (AssignedApart(senders) <==> size >= |order|)
  {
    hide Part;
    forall id | id in senders ensures senders[id].spec.Slice? { AssignedItsPart(senders, size, order, id); }
    forall a, b | a in senders && b in senders
      ensures Length(senders[a].spec.rows) <= Length(senders[b].spec.rows) + 1
    {
      AssignedItsPart(senders, size, order, a);
      AssignedItsPart(senders, size, order, b);
      PartsBalanced(size, |order|, Index(order, a), Index(order, b));
    }
    PartsDisjoint(size, |order|);
    var parts := Parts(size, |order|);
    if size >= |order| {
      forall a, b | a in senders && b in senders && a != b
        ensures Disjoint(senders[a].spec.rows, senders[b].spec.rows)
      {
        var i, j := Index(order, a), Index(order, b);
        AssignedItsPart(senders, size, order, a);
        AssignedItsPart(senders, size, order, b);
        assert Disjoint(parts[if i < j then i else j], parts[if i < j then j else i]);
      }
    } else {
      var i, j :| 0 <= i < j < |order| && !Disjoint(parts[i], parts[j]);
      assert Index(order, order[i]) == i && Index(order, order[j]) == j && order[i] != order[j];
      AssignedItsPart(senders, size, order, order[i]);
      AssignedItsPart(senders, size, order, order[j]);
    }
  }

  /** At the head of every round, also the first, unless a drop is still unrepaired, the
      slices assigned are balanced to within one row, and disjoint if and only if there
      are at least as many rows as secondaries. */
  lemma AssignedSlicesAreFair(size: nat, order: seq<nat>, delivered: map<nat, nat>, inputs: seq<Input>)
    requires Distinct(order) && CountsRows(Start(true, size, order, delivered, true), inputs) && size >= 1
    ensures var s := Run(Start(true, size, order, delivered, true), inputs);
      s.phase.InProgress? && !s.senderDropped ==>
        AssignedEvenly(s.senders) && (AssignedApart(s.senders) <==> size >= |s.senders|)
  {
    var s := Run(Start(true, size, order, delivered, true), inputs);
    Reached(size, order, delivered, inputs);
    if s.phase.InProgress? && !s.senderDropped {
      var dealt :| DealtIn(s.senders, s.size, dealt);
      OrderLength(dealt, s.senders.Keys);
      DealtIsEven(s.senders, size, dealt);
    }
  }

  // ---------- drops are repaired ----------

  /** The inputs are rounds that the primary can make one after the other. */
  predicate Rounds(s: Primary, inputs: seq<Input>)
    decreases |inputs|
  {
    inputs != [] ==>
      && inputs[0].Tick?
      && (s.phase.InProgress? ==> Possible(s, inputs[0]) && (Resplits(s, inputs[0]) ==> inputs[0].readOk))
      && Rounds(Next(s, inputs[0]), inputs[1..])
  }

  /** After a drop the rows are divided anew by the end of the eleventh round, at the
      latest, unless the primary has crashed by then. */
  lemma {:induction false} DropIsRepaired(s: Primary, inputs: seq<Input>)
    requires s.split && s.phase.InProgress? && s.senderDropped && s.counter <= 10
    requires Rounds(s, inputs) && |inputs| == 11 - s.counter
    ensures var t := Run(s, inputs); t.phase.Crashed? || t.splits == s.splits + 1
    decreases |inputs|
  {
    var t := Next(s, inputs[0]);
    if s.counter == 10 {
      assert Run(s, inputs) == Run(t, []) == t;
    } else {
      DropIsRepaired(t, inputs[1..]);
    }
  }

  lemma NoneLeftMeansDropped(s: Primary)
    requires Covered(s) && s.split && s.phase.InProgress? && s.senders == map[]
    ensures s.senderDropped
  {
    forall order ensures !DealtIn(s.senders, s.size, order) {
      if order != [] && IsOrder(order, s.senders.Keys) {
        assert order[0] in order;
      }
    }
  }

  /** A split job crashes at a round exactly when it looks for nodes, has lost all its
      secondaries and finds no new one. */
  lemma CrashesOnlyWithoutSecondaries(size: nat, order: seq<nat>, delivered: map<nat, nat>, inputs: seq<Input>,
                                      input: Input)
    requires Distinct(order) && CountsRows(Start(true, size, order, delivered, true), inputs)
    ensures var s := Run(Start(true, size, order, delivered, true), inputs);
      Possible(s, input) && input.Tick? && input.readOk ==>
        (Next(s, input).phase.Crashed? <==> s.counter == 10 && s.senders == map[] && input.joining == {})
  {
    var s := Run(Start(true, size, order, delivered, true), inputs);
    Reached(size, order, delivered, inputs);
    if Possible(s, input) && input.Tick? && input.readOk {
      if s.senders == map[] {
        NoneLeftMeansDropped(s);
        assert input.joining - s.senders.Keys == input.joining;
        if input.joining != {} {
          var id :| id in input.joining;
          assert s.counter == 10 ==> id in Joined(s, input);
        }
      } else {
        var id :| id in s.senders;
        assert id in Joined(s, input);
      }
    }
  }

  /** A repair that cannot count the rows is forgotten: nobody is dealt anything, every
      secondary that is left keeps the slice it had, the last division stays the last one,
      and only links that fail in this very round are remembered. */
  lemma UncountedRepairIsForgotten(s: Primary, input: Input)
    requires Possible(s, input) && input.Tick? && Resplits(s, input) && Newcomers(s, input) == {} && !input.readOk
    ensures var t := Next(s, input);
      var failed := Failed(Attempted(s, input));
      && s.senderDropped && (t.senderDropped <==> failed != {})
      && t.splits == s.splits && t.division == s.division.(open := s.division.open - failed)
      && t.senders.Keys == s.senders.Keys - failed
      && forall id :: id in t.senders ==> t.senders[id].spec == s.senders[id].spec
  {
    assert Joined(s, input) == s.senders;
    AttemptedKeys(s, input);
    UncountedKeepsSpecs(s, input);
    hide Attempted, Failed, IsOrder;
  }

  lemma UncountedKeepsSpecs(s: Primary, input: Input)
    requires Possible(s, input) && input.Tick? && !input.readOk
    ensures var after := Attempted(s, input);
      && s.senders.Keys <= after.Keys
      && forall id :: id in after ==> after[id].spec == if id in s.senders then s.senders[id].spec else Whole
  {
    hide Attempt, Burst;
  }

  lemma NothingFailedStep(s: Primary, input: Input)
    requires Possible(s, input) && input.Tick? && !Divides0(s, input) && Failed(Attempted(s, input)) == {}
    ensures Next(s, input).senders == Attempted(s, input)
  {
    NothingFailed(Attempted(s, input));
  }

  /** A round that is to divide the rows anew, has somebody to deal them to and loses
      no link. */
  predicate Repairs(s: Primary, input: Input) {
    && Possible(s, input) && input.Tick? && Resplits(s, input) && !Divides0(s, input)
    && Failed(Attempted(s, input)) == {}
  }

  /** After a round that divides the rows and loses no link, a row is assigned if and only
      if the rows could be counted or it was assigned before. */
  lemma AssignedIffCounted(s: Primary, input: Input, row: nat)
    requires 1 <= row <= s.size
    ensures Repairs(s, input) ==>
              (Assigned(Next(s, input).senders, row) <==> input.readOk || Assigned(s.senders, row))
  {
    if Repairs(s, input) {
      hide Attempted, Next, Failed, Joined, Resplits, Divides0, InRange;
      NothingFailedStep(s, input);
      if input.readOk {
        RedealtTick(s, input);
        DealtIsAssigned(Attempted(s, input), s.size, input.order, row);
      } else {
        UncountedKeepsSpecs(s, input);
      }
    }
  }

  // The whole burst of a newcomer reaches it.
  lemma NewcomerTrace(s: Primary, input: Input, id: nat)
    requires Possible(s, input) && input.Tick? && s.split
    requires id in Newcomers(s, input) && id !in input.delivered
    ensures id in Next(s, input).senders
    ensures Next(s, input).senders[id].trace == Burst(s, input, id)
  {
    var burst := Burst(s, input, id);
    assert id in Joined(s, input) && Joined(s, input)[id] == NewLink(input.readOk);
    assert burst[..|burst|] == burst && [] + burst == burst;
    var after := Attempted(s, input);
    assert after[id] == Link(burst, true, SpecFor(s, input, id), input.readOk);
    assert !Divides0(s, input);
    assert Next(s, input).senders == after - Failed(after);
  }

  /** A node that joins a split job and gets all its messages is taken into the loop
      if and only if the rows could be counted. */
  lemma NewcomerNeedsTheRows(s: Primary, input: Input, id: nat)
    requires Possible(s, input) && input.Tick? && s.split
    requires id in Newcomers(s, input) && id !in input.delivered
    ensures id in Next(s, input).senders
    ensures Reads(Next(s, input).senders[id]).Loop? <==> input.readOk
  {
    hide Next, Burst, Feed;
    NewcomerTrace(s, input, id);
    NewcomerReads(s, input, id);
  }

  lemma NewcomerReads(s: Primary, input: Input, id: nat)
    requires Possible(s, input) && input.Tick? && s.split && id in Newcomers(s, input)
    ensures Feed(AwaitMetadata, Burst(s, input, id)).Loop? <==> input.readOk
  {
    if input.readOk {
      BurstOk(s, input, id);
    } else {
      var i, n := Index(input.order, id), |input.order|;
      var rates := Rates(Share(input.qps, n, i), Share(input.connections, n, i));
      assert Burst(s, input, id) == [Metadata, Reset, rates];
      FeedThree(AwaitMetadata, Metadata, Reset, rates);
    }
  }

  // ---------- rates and the end ----------

  // The last message of a round to each sender, in iteration order.
  function LastMessages(s: Primary, input: Input): seq<Message>
    requires input.Tick? && IsOrder(input.order, Joined(s, input).Keys)
  {
    seq(|input.order|, k requires 0 <= k < |input.order| =>
      var burst := Burst(s, input, input.order[k]); burst[|burst| - 1])
  }

  lemma LastIsShare(s: Primary, input: Input, k: nat)
    requires input.Tick? && IsOrder(input.order, Joined(s, input).Keys) && k < |input.order|
    ensures var n := |input.order|;
      LastMessages(s, input)[k] == Rates(Share(input.qps, n, k), Share(input.connections, n, k))
  {
    hide Opening, Share;
    assert Index(input.order, input.order[k]) == k;
  }

  /** What a round tells the senders to do adds up to the rates of the round, in requests
      and in connections, and no two of them are told anything that differs by more than
      one. */
  lemma RatesAddUp(s: Primary, input: Input, qps: seq<nat>, connections: seq<nat>)
    requires Possible(s, input) && input.Tick? && input.order != []
    requires |qps| == |connections| == |input.order|
    requires forall k :: 0 <= k < |qps| ==> LastMessages(s, input)[k] == Rates(qps[k], connections[k])
    ensures Sum(qps) == input.qps && Sum(connections) == input.connections
    ensures forall i, j :: 0 <= i < |qps| && 0 <= j < |qps| ==>
      qps[i] <= qps[j] + 1 && connections[i] <= connections[j] + 1
  {
    hide LastMessages, Share;
    var n := |input.order|;
    forall k | 0 <= k < n
      ensures qps[k] == Shares(input.qps, n)[k] && connections[k] == Shares(input.connections, n)[k]
    {
      LastIsShare(s, input, k);
    }
    assert qps == Shares(input.qps, n) && connections == Shares(input.connections, n);
    SharesAreFair(input.qps, n);
    SharesAreFair(input.connections, n);
  }

  /** Every round tells every sender such rates. */
  lemma RatesAreTold(s: Primary, input: Input, k: nat)
    requires Possible(s, input) && input.Tick? && k < |input.order|
    ensures LastMessages(s, input)[k].Rates?
  {
    LastIsShare(s, input, k);
  }

  // The end message takes a secondary out of its loop.
  lemma FinishedEnds(link: Link, id: nat, delivered: map<nat, nat>)
    requires LinkOk(link) && link.up && link.counted && (id in delivered ==> delivered[id] >= 1)
    ensures var after := Attempt(link, [Finished], link.spec, id, delivered);
      after.trace == link.trace + [Finished] && Reads(after).Ended?
  {
    AttemptReads(link, [Finished], link.spec, id, delivered);
    FeedOne(Reads(link), Finished);
    assert [Finished][..1] == [Finished];
  }

  ghost predicate Ends(past: set<Link>, trace: seq<Message>) {
    exists link :: link in past && link.trace == trace + [Finished] && Reads(link).Ended?
  }

  lemma EndReaches(s: Primary, input: Input, id: nat)
    requires Accepted(s) && s.phase.InProgress? && input.End? && (id in input.delivered ==> input.delivered[id] >= 1)
    requires id in s.senders && s.senders[id].up && s.senders[id].counted
    ensures Ends(Next(s, input).past, s.senders[id].trace)
  {
    var link := s.senders[id];
    FinishedEnds(link, id, input.delivered);
    hide Reads, LinkOk, Attempt;
    assert Attempt(link, [Finished], link.spec, id, input.delivered) in Next(s, input).past;
  }

  /** At the end of a job every secondary that worked on it and hears of it ends its loop. */
  lemma EndIsHeard(split: bool, size: nat, order: seq<nat>, delivered: map<nat, nat>, readOk: bool,
                   inputs: seq<Input>, input: Input, id: nat)
    requires Distinct(order) && input.End? && (id in input.delivered ==> input.delivered[id] >= 1)
    ensures var s := Run(Start(split, size, order, delivered, readOk), inputs);
      s.phase.InProgress? && id in s.senders && s.senders[id].up && s.senders[id].counted ==>
        Ends(Next(s, input).past, s.senders[id].trace)
  {
    hide *;
    var start := Start(split, size, order, delivered, readOk);
    var s := Run(start, inputs);
    StartAccepted(split, size, order, delivered, readOk);
    AcceptedRun(start, inputs);
    if s.phase.InProgress? && id in s.senders && s.senders[id].up && s.senders[id].counted {
      EndReaches(s, input, id);
    }
  }
}
