/** A whole job on the primary: opening the links, a round for every pair of rates, and
    the end message. Which nodes are found, in which order the map is iterated and which
    sends fail is arbitrary; the job may be stopped before any round. */
module PrimaryJob {
  import opened ClusterProtocol
  import opened ClusterGuarantees
  import opened PrimaryLoop

  // The iteration order of a map: each of its keys once.
  method AnyOrder(ids: set<nat>) returns (order: seq<nat>)
    ensures IsOrder(order, ids)
  {
    order := [];
    var left := ids;
    while left != {}
      invariant left <= ids && Distinct(order)
      invariant forall id :: id in order <==> id in ids && id !in left
      decreases left
    {
      var id :| id in left;
      order := order + [id];
      left := left - {id};
    }
  }

  /** Run a job. `readable(k)` says whether the rows of a split job can be counted before
      the first round, for k = 0, or in the k-th round. Every run of it is a run of the
      protocol, and a secondary rejects what it was sent if and only if the rows could not
      be counted when its link was opened and more than the opening got through. */
  method HandleRequest(split: bool, size: nat, rates: seq<(nat, nat)>, readable: nat -> bool)
    returns (loop: Loop, ghost first: seq<nat>, ghost delivered: map<nat, nat>, ghost inputs: seq<Input>)
    ensures fresh(loop) && Distinct(first)
    ensures loop.View() == Run(Start(split, size, first, delivered, readable(0)), inputs)
    ensures loop.phase.Completed? || loop.phase.Crashed?
    ensures loop.phase.Completed? ==> inputs != [] && inputs[|inputs| - 1].End? && loop.senders == map[]
    ensures forall k :: 0 <= k < |inputs| ==>
      if inputs[k].Tick? then
        && k < |rates| && (inputs[k].qps, inputs[k].connections) == rates[k]
        && inputs[k].readOk == readable(k + 1)
      else k == |inputs| - 1
    ensures forall link :: link in loop.past ==>
      (Feed(AwaitMetadata, link.trace).Broken? <==> !link.counted && Told(link.trace))
  {
    hide Run, Next, Start, Feed, Told;
    loop := new Loop(split, size);
    var nodes: set<nat> := *;
    var order := AnyOrder(nodes);
    first := order;
    delivered := loop.InitSenders(nodes, order, readable(0));
    inputs := [];
    ghost var start := loop.View();
    RunNothing(start);
    for k := 0 to |rates|
      invariant fresh(loop) && loop.View() == Run(start, inputs) && !loop.phase.Completed?
      invariant |inputs| == k && forall i :: 0 <= i < k ==>
        && inputs[i].Tick? && (inputs[i].qps, inputs[i].connections) == rates[i]
        && inputs[i].readOk == readable(i + 1)
    {
      var stopped: bool := *;
      if loop.phase.Crashed? || stopped {
        break;
      }
      assert loop.phase.InProgress?;
      var joining: set<nat> := *;
      order := AnyOrder(if loop.counter == 10 then loop.senders.Keys + joining else loop.senders.Keys);
      ghost var input := loop.Round(rates[k].0, rates[k].1, joining, order, readable(k + 1));
      RunSnoc(start, inputs, input);
      inputs := inputs + [input];
    }
    if !loop.phase.Crashed? {
      order := AnyOrder(loop.senders.Keys);
      ghost var input := loop.Finish(order);
      RunSnoc(start, inputs, input);
      inputs := inputs + [input];
    }
    forall link | link in loop.past
      ensures Feed(AwaitMetadata, link.trace).Broken? <==> !link.counted && Told(link.trace)
    {
      AcceptedIffCounted(split, size, first, delivered, readable(0), inputs, link);
    }
  }
}
