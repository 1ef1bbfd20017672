/** The primary's tick loop, the ordered channels to the secondaries, and the
    automaton with which a secondary reads its channel.

    Channels are independent, so a tick is described by what the primary tries to
    put on each channel, its burst, and by how much of the burst gets through. A
    send that fails breaks the link for good. The iteration order of the map of
    senders, the nodes that join, and the failures are inputs. */
module ClusterProtocol {
  import opened Arithmetic
  import opened WorkDivision

  /** The share of the request data: everything, or a slice of the rows of a file. */
  datatype Spec = Whole | Slice(rows: Rows)

  datatype Message =
    | Metadata
    | Request(spec: Spec)
    | Rates(qps: nat, connections: nat)
    | Reset
    | Stop
    | Finished

  // ---------- the secondary ----------

  /** `Broken` stands for a failed handshake or a message reported as unexpected. */
  datatype Secondary =
    | AwaitMetadata
    | AwaitRequest(resets: nat)
    | Loop(reset: bool, spec: Spec)
    | Ended
    | Broken

  function Receive(s: Secondary, m: Message): Secondary {
    match s
    case AwaitMetadata => if m.Metadata? then AwaitRequest(0) else Broken
    case AwaitRequest(resets) =>
      if m.Request? then Loop(false, m.spec)
      else if m.Reset? && resets == 0 then AwaitRequest(1)
      else Broken
    case Loop(reset, spec) => (
      match m
      case Metadata => Broken
      case Request(newSpec) => if reset then Loop(false, newSpec) else Broken
      case Rates(_, _) => s
      case Reset => Loop(true, spec)
      case Stop => Ended
      case Finished => Ended)
    case Ended => Broken
    case Broken => Broken
  }

  function Feed(s: Secondary, trace: seq<Message>): Secondary {
    if trace == [] then s else Receive(Feed(s, trace[..|trace| - 1]), trace[|trace| - 1])
  }

  lemma {:induction false} FeedConcat(s: Secondary, a: seq<Message>, b: seq<Message>)
    ensures Feed(s, a + b) == Feed(Feed(s, a), b)
  {
    if b == [] {
      assert a + b == a;
    } else {
      var last := |b| - 1;
      assert (a + b)[..|a + b| - 1] == a + b[..last];
      FeedConcat(s, a, b[..last]);
    }
  }

  lemma {:induction false} BrokenStays(trace: seq<Message>)
    ensures Feed(Broken, trace) == Broken
  {
    if trace != [] {
      BrokenStays(trace[..|trace| - 1]);
    }
  }

  // A channel cut short never breaks a secondary that the full channel would not break.
  lemma PrefixAccepted(s: Secondary, trace: seq<Message>, d: nat)
    requires d <= |trace| && !Feed(s, trace).Broken?
    ensures !Feed(s, trace[..d]).Broken?
  {
    assert trace == trace[..d] + trace[d..];
    FeedConcat(s, trace[..d], trace[d..]);
    BrokenStays(trace[d..]);
  }

  // ---------- the primary ----------

  /** A connection to a secondary: the messages put on it, whether it still works, and
      the last share of the data the primary meant for it. `counted` is history: whether
      the rows could be counted when it was opened, which only a split job needs. */
  datatype Link = Link(trace: seq<Message>, up: bool, spec: Spec, counted: bool)

  function NewLink(counted: bool): Link { Link([], true, Whole, counted) }

  datatype Phase = InProgress | Crashed | Completed

  /** The last division of the rows: the order in which they were dealt, and the nodes
      whose link has been open ever since. */
  datatype Division = Division(order: seq<nat>, open: set<nat>)

  /** `past` holds the links given up; `splits` and `ticks` count row divisions and
      rounds of the loop; they and `division` are history. */
  datatype Primary = Primary(
    split: bool,
    size: nat,
    counter: nat,
    senderDropped: bool,
    senders: map<nat, Link>,
    phase: Phase,
    past: set<Link>,
    splits: nat,
    ticks: nat,
    division: Division)

  /** `order` is the iteration order of the senders once the joining nodes are in;
      `delivered` says for a node how many of its messages get through, all of them
      when it is not mentioned; `readOk` is whether the rows could be counted. */
  datatype Input =
    | Tick(qps: nat, connections: nat, joining: set<nat>, order: seq<nat>, delivered: map<nat, nat>, readOk: bool)
    | End(delivered: map<nat, nat>)

  predicate Distinct(order: seq<nat>) {
    forall i, j :: 0 <= i < j < |order| ==> order[i] != order[j]
  }

  predicate IsOrder(order: seq<nat>, ids: set<nat>) {
    && Distinct(order)
    && (forall id :: id in ids ==> id in order)
    && (forall id :: id in order ==> id in ids)
  }

  function Index(order: seq<nat>, id: nat): (i: nat)
    requires id in order
    ensures i < |order| && order[i] == id
  {
    if order[0] == id then 0 else 1 + Index(order[1..], id)
  }

  function Attempt(link: Link, burst: seq<Message>, spec: Spec, id: nat, delivered: map<nat, nat>): (r: Link)
    ensures r.spec == spec && r.counted == link.counted
  {
    if !link.up then link.(spec := spec)
    else
      var d := if id in delivered then Min(delivered[id], |burst|) else |burst|;
      Link(link.trace + burst[..d], d == |burst|, spec, link.counted)
  }

  // The slice dealt to a node: slices are handed out in iteration order.
  function Dealt(size: nat, order: seq<nat>, id: nat): Spec
    requires id in order
  {
    Slice(Part(size, |order|, Index(order, id)))
  }

  // ---------- before the loop ----------

  function StartSpec(split: bool, size: nat, order: seq<nat>, readOk: bool, id: nat): Spec
    requires id in order
  {
    if split && readOk then Dealt(size, order, id) else Whole
  }

  // A split job whose rows cannot be counted sends no request.
  function StartBurst(split: bool, readOk: bool, spec: Spec): seq<Message> {
    [Metadata] + if split && !readOk then [] else [Request(spec)]
  }

  function Start(split: bool, size: nat, order: seq<nat>, delivered: map<nat, nat>, readOk: bool): Primary
    requires Distinct(order)
  {
    var senders := map id | id in order ::
      var spec := StartSpec(split, size, order, readOk, id);
      Attempt(NewLink(!split || readOk), StartBurst(split, readOk, spec), spec, id, delivered);
    var divides0 := split && readOk && order == [];
    Primary(split, size, 0, false, senders, if divides0 then Crashed else InProgress, {},
            if split && readOk && !divides0 then 1 else 0, 0, FirstDivision(split && readOk, order))
  }

  function FirstDivision(dealt: bool, order: seq<nat>): Division {
    if dealt then Division(order, set id | id in order) else Division([], {})
  }

  // ---------- one round of the loop ----------

  // The nodes are looked up every eleventh round only.
  function Newcomers(s: Primary, input: Input): set<nat>
    requires input.Tick?
  {
    if s.counter == 10 then input.joining - s.senders.Keys else {}
  }

  predicate Resplits(s: Primary, input: Input)
    requires input.Tick?
  {
    s.counter == 10 && s.split && (Newcomers(s, input) != {} || s.senderDropped)
  }

  function Joined(s: Primary, input: Input): map<nat, Link>
    requires input.Tick?
  {
    s.senders + map id | id in Newcomers(s, input) :: NewLink(!s.split || input.readOk)
  }

  function SpecFor(s: Primary, input: Input, id: nat): Spec
    requires input.Tick? && id in Joined(s, input) && IsOrder(input.order, Joined(s, input).Keys)
  {
    if Resplits(s, input) && input.readOk then Dealt(s.size, input.order, id) else Joined(s, input)[id].spec
  }

  function ResetMessages(readOk: bool, spec: Spec): seq<Message> {
    if readOk then [Reset, Request(spec)] else [Reset]
  }

  // What a node is sent before the rates of the round.
  function Opening(isNew: bool, resplits: bool, split: bool, readOk: bool, spec: Spec): seq<Message> {
    (if isNew then [Metadata] else [])
    + (if resplits then ResetMessages(readOk, spec) else if isNew && !split then [Request(Whole)] else [])
  }

  function Burst(s: Primary, input: Input, id: nat): seq<Message>
    requires input.Tick? && id in Joined(s, input) && IsOrder(input.order, Joined(s, input).Keys)
  {
    var i := Index(input.order, id);
    var n := |input.order|;
    Opening(id in Newcomers(s, input), Resplits(s, input), s.split, input.readOk, SpecFor(s, input, id))
    + [Rates(Share(input.qps, n, i), Share(input.connections, n, i))]
  }

  function Attempted(s: Primary, input: Input): map<nat, Link>
    requires input.Tick? && IsOrder(input.order, Joined(s, input).Keys)
  {
    map id | id in Joined(s, input) ::
      Attempt(Joined(s, input)[id], Burst(s, input, id), SpecFor(s, input, id), id, input.delivered)
  }

  function Failed(links: map<nat, Link>): set<nat> {
    set id | id in links && !links[id].up
  }

  // Dividing the rows among no senders is a division by zero.
  predicate Divides0(s: Primary, input: Input)
    requires input.Tick?
  {
    Resplits(s, input) && input.readOk && Joined(s, input) == map[]
  }

  function DoTick(s: Primary, input: Input): Primary
    requires input.Tick? && IsOrder(input.order, Joined(s, input).Keys)
  {
    if Divides0(s, input) then s.(phase := Crashed, senderDropped := false)
    else
      var after := Attempted(s, input);
      var failed := Failed(after);
      s.(senders := after - failed,
         past := s.past + set id | id in failed :: after[id],
         counter := if s.counter == 10 then 0 else s.counter + 1,
         senderDropped := failed != {} || (s.senderDropped && !(Resplits(s, input) && Newcomers(s, input) == {})),
         splits := s.splits + if Resplits(s, input) && input.readOk then 1 else 0,
         ticks := s.ticks + 1,
         division := NextDivision(s, input, failed))
  }

  function NextDivision(s: Primary, input: Input, failed: set<nat>): Division
    requires input.Tick?
  {
    var current := if Resplits(s, input) && input.readOk then Division(input.order, Joined(s, input).Keys)
                   else s.division;
    current.(open := current.open - failed)
  }

  function DoEnd(s: Primary, input: Input): Primary
    requires input.End?
  {
    s.(senders := map[],
       past := s.past + set id | id in s.senders ::
                          Attempt(s.senders[id], [Finished], s.senders[id].spec, id, input.delivered),
       phase := Completed,
       division := s.division.(open := {}))
  }

  predicate Possible(s: Primary, input: Input) {
    s.phase.InProgress? && (input.Tick? ==> IsOrder(input.order, Joined(s, input).Keys))
  }

  function Next(s: Primary, input: Input): Primary {
    if !Possible(s, input) then s
    else match input
      case Tick(_, _, _, _, _, _) => DoTick(s, input)
      case End(_) => DoEnd(s, input)
  }

  function Run(s: Primary, inputs: seq<Input>): Primary
    decreases |inputs|
  {
    if inputs == [] then s else Run(Next(s, inputs[0]), inputs[1..])
  }

  lemma RunNothing(s: Primary)
    ensures Run(s, []) == s
  {
  }

  lemma {:induction false} RunConcat(s: Primary, a: seq<Input>, b: seq<Input>)
    ensures Run(s, a + b) == Run(Run(s, a), b)
    decreases |a|
  {
    if a == [] {
      assert a + b == b;
    } else {
      assert (a + b)[1..] == a[1..] + b;
      RunConcat(Next(s, a[0]), a[1..], b);
    }
  }

  lemma RunSnoc(s: Primary, inputs: seq<Input>, input: Input)
    ensures Run(s, inputs + [input]) == Next(Run(s, inputs), input)
  {
    RunConcat(s, inputs, [input]);
    RunNothing(Next(Run(s, inputs), input));
  }
}
