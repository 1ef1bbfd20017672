/** Which sequences of messages a secondary accepts, said of the sequence alone. */
module ChannelOrder {
  import opened ClusterProtocol

  predicate HasRequest(trace: seq<Message>) {
    trace != [] && (trace[|trace| - 1].Request? || HasRequest(trace[..|trace| - 1]))
  }

  // The share of the last request.
  function LastSpec(trace: seq<Message>): Spec
    requires HasRequest(trace)
  {
    if trace[|trace| - 1].Request? then trace[|trace| - 1].spec else LastSpec(trace[..|trace| - 1])
  }

  // There is a reset behind the last request.
  predicate ResetSince(trace: seq<Message>) {
    && trace != [] && !trace[|trace| - 1].Request?
    && (trace[|trace| - 1].Reset? || ResetSince(trace[..|trace| - 1]))
  }

  predicate Over(trace: seq<Message>) {
    trace != [] && (trace[|trace| - 1].Stop? || trace[|trace| - 1].Finished?)
  }

  /** The metadata comes first, then the request, with at most one reset before it. After
      that there is no metadata, a further request only behind a reset, and nothing behind
      an end. */
  predicate MayFollow(before: seq<Message>, m: Message) {
    if before == [] then m.Metadata?
    else if !HasRequest(before) then m.Request? || (m.Reset? && |before| == 1)
    else !Over(before) && !m.Metadata? && (m.Request? ==> ResetSince(before))
  }

  predicate Orderly(trace: seq<Message>) {
    trace != [] ==> Orderly(trace[..|trace| - 1]) && MayFollow(trace[..|trace| - 1], trace[|trace| - 1])
  }

  // Where an orderly sequence takes a secondary.
  function StateAfter(trace: seq<Message>): Secondary {
    if trace == [] then AwaitMetadata
    else if !HasRequest(trace) then AwaitRequest(|trace| - 1)
    else if Over(trace) then Ended
    else Loop(ResetSince(trace), LastSpec(trace))
  }

  lemma {:induction false} NoRequestYet(trace: seq<Message>)
    requires Orderly(trace) && !HasRequest(trace)
    ensures |trace| <= 2 && !Over(trace)
  {
    if trace != [] { NoRequestYet(trace[..|trace| - 1]); }
  }

  /** A secondary accepts a sequence of messages if and only if it is orderly; it is then in
      its loop with the share of the last request, with a reset pending exactly when there
      is one behind that request, unless the end has come. */
  lemma {:induction false} AcceptsTheOrderly(trace: seq<Message>)
    ensures !Feed(AwaitMetadata, trace).Broken? <==> Orderly(trace)
    ensures Orderly(trace) ==> Feed(AwaitMetadata, trace) == StateAfter(trace)
  {
    if trace != [] {
      var before := trace[..|trace| - 1];
      AcceptsTheOrderly(before);
      if Orderly(before) && !HasRequest(before) { NoRequestYet(before); }
    }
  }
}
