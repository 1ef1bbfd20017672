/** How a secondary reads one connection from the primary: the handshake, then the
    message loop with its flags. `trace` is what arrives before the connection ends,
    cleanly or with a receive error. */
module SecondaryLoop {
  import opened Results
  import opened ClusterProtocol

  datatype Exit = Refused | Disconnected | Failed | Stopped | JobDone

  // The first message must be the metadata.
  method CheckForMetadata(trace: seq<Message>) returns (ok: bool)
    ensures ok <==> trace != [] && Receive(AwaitMetadata, trace[0]) == AwaitRequest(0)
  {
    ok := trace != [] && trace[0].Metadata?;
  }

  lemma FeedNext(trace: seq<Message>, k: nat)
    requires k < |trace|
    ensures Feed(AwaitMetadata, trace[..k + 1]) == Receive(Feed(AwaitMetadata, trace[..k]), trace[k])
  {
    assert trace[..k + 1][..k] == trace[..k];
  }

  /** The request may come after one reset. */
  method CheckForRequest(trace: seq<Message>) returns (r: Result<Spec>, unexpected: bool, next: nat)
    requires trace != [] && trace[0].Metadata?
    ensures 1 <= next <= |trace|
    ensures r.Ok? ==> Feed(AwaitMetadata, trace[..next]) == Loop(false, r.value)
    ensures unexpected <==> Feed(AwaitMetadata, trace[..next]).Broken?
    ensures r.Err? && !unexpected ==> next == |trace| && Feed(AwaitMetadata, trace).AwaitRequest?
  {
    hide Feed;
    unexpected, next := false, 1;
    FeedNext(trace, 0);
    assert Feed(AwaitMetadata, trace[..0]) == AwaitMetadata by { FeedNothing(trace); }
    for attempt := 0 to 2
      invariant next == 1 + attempt <= |trace|
      invariant attempt < 2 ==> Feed(AwaitMetadata, trace[..next]) == AwaitRequest(attempt)
      invariant attempt == 2 ==> Feed(AwaitMetadata, trace[..next]).Broken?
    {
      if next == |trace| {
        assert trace[..next] == trace;
        return Err, false, next;
      }
      FeedNext(trace, next);
      next := next + 1;
      match trace[next - 1]
      case Request(spec) => return Ok(spec), false, next;
      case Reset =>
      case _ => return Err, true, next;
    }
    r, unexpected := Err, true;
  }

  lemma FeedNothing(trace: seq<Message>)
    ensures Feed(AwaitMetadata, trace[..0]) == AwaitMetadata
  {
  }

  /** Serve a connection. `unexpected` is set when the handshake fails on a message or
      the loop reports one; this is exactly when the automaton rejects what was read. */
  method HandleConnection(trace: seq<Message>, receiveError: bool)
    returns (exit: Exit, unexpected: bool, reset: bool, spec: Spec, read: nat)
    ensures read <= |trace|
    ensures unexpected <==> Feed(AwaitMetadata, trace[..read]).Broken?
    ensures !Feed(AwaitMetadata, trace).Broken? ==> !unexpected
    ensures exit.Disconnected? || exit.Failed? ==> read == |trace|
    ensures (exit.Disconnected? || exit.Failed?) && !unexpected ==> Feed(AwaitMetadata, trace) == Loop(reset, spec)
    ensures (exit.Stopped? || exit.JobDone?) && !unexpected ==> Feed(AwaitMetadata, trace[..read]) == Ended
    ensures exit.Refused? && !unexpected ==> read == |trace|
    ensures exit.Refused? && !unexpected ==>
      Feed(AwaitMetadata, trace).AwaitMetadata? || Feed(AwaitMetadata, trace).AwaitRequest?
    ensures exit.Stopped? ==> 1 <= read && trace[read - 1] == Stop
    ensures exit.JobDone? ==> 1 <= read && trace[read - 1] == Finished
    ensures (exit.Failed? ==> receiveError) && (exit.Disconnected? ==> !receiveError)
  {
    exit, unexpected, reset, spec, read := Refused, false, false, Whole, 0;
    var ok := CheckForMetadata(trace);
    if !ok {
      FeedNothing(trace);
      if trace != [] {
        FeedNext(trace, 0);
        unexpected, read := true, 1;
        AcceptsPrefix(trace, read);
      }
      return;
    }
    var first: Result<Spec>;
    first, unexpected, read := CheckForRequest(trace);
    AcceptsPrefix(trace, read);
    if first.Err? {
      return;
    }
    spec := first.value;
    exit, unexpected, reset, spec, read := Serve(trace, receiveError, spec, read);
    AcceptsPrefix(trace, read);
  }

  lemma AcceptsPrefix(trace: seq<Message>, read: nat)
    requires read <= |trace|
    ensures !Feed(AwaitMetadata, trace).Broken? ==> !Feed(AwaitMetadata, trace[..read]).Broken?
  {
    if !Feed(AwaitMetadata, trace).Broken? {
      PrefixAccepted(AwaitMetadata, trace, read);
    }
  }

  // The message loop.
  method Serve(trace: seq<Message>, receiveError: bool, first: Spec, start: nat)
    returns (exit: Exit, unexpected: bool, reset: bool, spec: Spec, read: nat)
    requires start <= |trace| && Feed(AwaitMetadata, trace[..start]) == Loop(false, first)
    ensures start <= read <= |trace|
    ensures unexpected <==> Feed(AwaitMetadata, trace[..read]).Broken?
    ensures !exit.Refused?
    ensures exit.Stopped? ==> start < read && trace[read - 1] == Stop
    ensures exit.JobDone? ==> start < read && trace[read - 1] == Finished
    ensures (exit.Failed? ==> receiveError) && (exit.Disconnected? ==> !receiveError)
    ensures exit.Disconnected? || exit.Failed? ==> read == |trace|
    ensures (exit.Disconnected? || exit.Failed?) && !unexpected ==> Feed(AwaitMetadata, trace) == Loop(reset, spec)
    ensures (exit.Stopped? || exit.JobDone?) && !unexpected ==> Feed(AwaitMetadata, trace[..read]) == Ended
  {
    hide Feed;
    unexpected, reset, spec, read := false, false, first, start;
    while read < |trace|
      invariant start <= read <= |trace|
      invariant unexpected ==> Feed(AwaitMetadata, trace[..read]) == Broken
      invariant !unexpected ==> Feed(AwaitMetadata, trace[..read]) == Loop(reset, spec)
    {
      FeedNext(trace, read);
      var msg := trace[read];
      read := read + 1;
      match msg
      case Metadata => unexpected := true;
      case Rates(_, _) =>
      case Stop => return Stopped, unexpected, reset, spec, read;
      case Finished => return JobDone, unexpected, reset, spec, read;
      case Reset => reset := true;
      case Request(request) =>
        if !reset {
          unexpected := true;
        }
        spec, reset := request, false;
    }
    assert trace[..read] == trace;
    exit := if receiveError then Failed else Disconnected;
  }
}
