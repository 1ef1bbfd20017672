/** Exactly which rows are assigned in a run of the primary, and exactly when it divides
    by zero; with the runs in which rows are left out and in which it crashes. */
module DivisionGuarantees {
  import opened Arithmetic
  import opened WorkDivision
  import opened ClusterProtocol
  import opened ClusterGuarantees

  // ---------- which rows are assigned ----------

  /** A link open since the last division has the slice it was dealt there; any other link
      has none. */
  predicate DividedBy(senders: map<nat, Link>, size: nat, division: Division) {
    && Distinct(division.order)
    && (forall id :: id in division.open ==> id in division.order && id in senders)
    && (forall id :: id in senders ==>
          senders[id].spec == if id in division.open then Dealt(size, division.order, id) else Whole)
  }

  predicate Divided(s: Primary) { DividedBy(s.senders, s.size, s.division) }

  lemma DividedStart(split: bool, size: nat, order: seq<nat>, delivered: map<nat, nat>, readOk: bool)
    requires Distinct(order)
    ensures Divided(Start(split, size, order, delivered, readOk))
  {
  }

  // What a round leaves of the links and of the division.
  lemma AfterTick(s: Primary, input: Input)
    requires Possible(s, input) && input.Tick? && !Divides0(s, input)
    ensures var t := DoTick(s, input);
      var failed := Failed(Attempted(s, input));
      var d := NextDivision(s, input, {});
      t.size == s.size && t.senders == Attempted(s, input) - failed && t.division == d.(open := d.open - failed)
  {
    hide Attempted, Joined, Failed, Resplits;
  }

  lemma DividedTick(s: Primary, input: Input)
    requires Divided(s) && Possible(s, input) && input.Tick?
    ensures Divided(DoTick(s, input))
  {
  }

  lemma DividedNext(s: Primary, input: Input)
    requires Divided(s)
    ensures Divided(Next(s, input))
  {
    if Possible(s, input) {
      if input.Tick? {
        DividedTick(s, input);
      } else {
      }
    }
    hide DoTick, DoEnd, Divided, Possible;
  }

  lemma {:induction false} DividedRun(s: Primary, inputs: seq<Input>)
    requires Divided(s)
    ensures Divided(Run(s, inputs))
    decreases |inputs|
  {
    if inputs != [] {
      DividedNext(s, inputs[0]);
      DividedRun(Next(s, inputs[0]), inputs[1..]);
    }
  }

  /** A link to which the row was dealt in the last division is still open. */
  predicate DealtAndOpen(s: Primary, row: nat) {
    exists id :: id in s.division.open && id in s.division.order
      && InRange(row, Part(s.size, |s.division.order|, Index(s.division.order, id)))
  }

  lemma AssignedIfDealt(s: Primary, row: nat)
    requires Divided(s)
    ensures Assigned(s.senders, row) <==> DealtAndOpen(s, row)
  {
    hide Part, InRange;
    if Assigned(s.senders, row) {
      var id :| id in s.senders && s.senders[id].spec.Slice? && InRange(row, s.senders[id].spec.rows);
      assert id in s.division.open;
    }
    if DealtAndOpen(s, row) {
      var id :| id in s.division.open && id in s.division.order
        && InRange(row, Part(s.size, |s.division.order|, Index(s.division.order, id)));
      assert s.senders[id].spec == Dealt(s.size, s.division.order, id);
    }
  }

  /** In every run, a row is assigned if and only if a link to which it was dealt in the
      last division that could count the rows has been open ever since. */
  lemma AssignedExactly(split: bool, size: nat, order: seq<nat>, delivered: map<nat, nat>, readOk: bool,
                        inputs: seq<Input>, row: nat)
    requires Distinct(order)
    ensures var s := Run(Start(split, size, order, delivered, readOk), inputs);
      Assigned(s.senders, row) <==> DealtAndOpen(s, row)
  {
    var start := Start(split, size, order, delivered, readOk);
    DividedStart(split, size, order, delivered, readOk);
    DividedRun(start, inputs);
    AssignedIfDealt(Run(start, inputs), row);
  }

  // With a row for each, two nodes share none.
  lemma DealtOnce(size: nat, order: seq<nat>, row: nat, a: nat, b: nat)
    requires Distinct(order) && 1 <= |order| <= size && a in order && b in order
    ensures var n := |order|;
      InRange(row, Part(size, n, Index(order, a))) && InRange(row, Part(size, n, Index(order, b))) ==> a == b
  {
    PartsDisjoint(size, |order|);
    var i, j := Index(order, a), Index(order, b);
    assert Parts(size, |order|)[i] == Part(size, |order|, i) && Parts(size, |order|)[j] == Part(size, |order|, j);
    hide Part, Index;
  }

  predicate AllOpen(division: Division) {
    division.order != [] && forall id :: id in division.order ==> id in division.open
  }

  lemma AllOpenAssigns(s: Primary, row: nat)
    requires Divided(s) && AllOpen(s.division) && 1 <= row <= s.size
    ensures Assigned(s.senders, row)
  {
    var order := s.division.order;
    PartsCover(s.size, |order|, row);
    var k :| 0 <= k < |order| && InRange(row, Parts(s.size, |order|)[k]);
    assert Index(order, order[k]) == k;
    assert order[k] in s.division.open;
    hide Part, InRange, DividedBy;
    assert DealtAndOpen(s, row);
    AssignedIfDealt(s, row);
  }

  lemma ClosedLeavesOut(s: Primary, id: nat, row: nat)
    requires Divided(s) && id in s.division.order && id !in s.division.open && |s.division.order| <= s.size
    requires InRange(row, Part(s.size, |s.division.order|, Index(s.division.order, id)))
    ensures !Assigned(s.senders, row)
  {
    hide Part, InRange, Index;
    AssignedIfDealt(s, row);
    if DealtAndOpen(s, row) {
      var other :| other in s.division.open && other in s.division.order
        && InRange(row, Part(s.size, |s.division.order|, Index(s.division.order, other)));
      DealtOnce(s.size, s.division.order, row, id, other);
    }
  }

  /** With at least one row for each secondary of the last division, every row is assigned
      if and only if no link of that division has been closed since. */
  lemma AllAssignedIffAllOpen(split: bool, size: nat, order: seq<nat>, delivered: map<nat, nat>, readOk: bool,
                              inputs: seq<Input>)
    requires Distinct(order) && size >= 1
    ensures var s := Run(Start(split, size, order, delivered, readOk), inputs);
      |s.division.order| <= size ==>
        ((forall row :: 1 <= row <= size ==> Assigned(s.senders, row)) <==> AllOpen(s.division))
  {
    var start := Start(split, size, order, delivered, readOk);
    var s := Run(start, inputs);
    DividedStart(split, size, order, delivered, readOk);
    DividedRun(start, inputs);
    JobIsFixed(start, inputs);
    if AllOpen(s.division) {
      forall row | 1 <= row <= size
        ensures Assigned(s.senders, row)
      {
        AllOpenAssigns(s, row);
      }
    } else if |s.division.order| <= size {
      var row := FirstLeftOut(s);
    }
  }

  lemma FirstLeftOut(s: Primary) returns (row: nat)
    requires Divided(s) && !AllOpen(s.division) && |s.division.order| <= s.size && s.size >= 1
    ensures 1 <= row <= s.size && !Assigned(s.senders, row)
  {
    if s.division.order == [] {
      row := 1;
      AssignedIfDealt(s, row);
    } else {
      var id :| id in s.division.order && id !in s.division.open;
      var k := Index(s.division.order, id);
      PartsBalanced(s.size, |s.division.order|, k, k);
      row := Part(s.size, |s.division.order|, k).first;
      ClosedLeavesOut(s, id, row);
    }
  }

  lemma RepairedDivision(s: Primary, input: Input)
    ensures Repairs(s, input) ==>
              && input.Tick? && Next(s, input).size == s.size
              && if input.readOk then AllOpen(Next(s, input).division) else Next(s, input).division == s.division
  {
    hide Attempted, Failed, DoTick, Joined, Distinct;
    if Repairs(s, input) {
      AfterTick(s, input);
      if input.readOk {
        var id :| id in Joined(s, input);
        assert id in input.order;
      }
    }
  }

  /** After a repair that loses no further link, every row is assigned if and only if the
      rows could be counted or no link of the last division had been closed. */
  lemma RepairAssignsIffCounted(split: bool, size: nat, order: seq<nat>, delivered: map<nat, nat>, readOk: bool,
                                inputs: seq<Input>, input: Input)
    requires Distinct(order) && size >= 1
    ensures var s := Run(Start(split, size, order, delivered, readOk), inputs);
      Repairs(s, input) && |s.division.order| <= size ==>
        ((forall row :: 1 <= row <= size ==> Assigned(Next(s, input).senders, row))
         <==> input.readOk || AllOpen(s.division))
  {
    var start := Start(split, size, order, delivered, readOk);
    var s := Run(start, inputs);
    var t := Next(s, input);
    hide Start, Run, Next, Assigned, AllOpen, Repairs;
    if Repairs(s, input) && |s.division.order| <= size {
      RepairedDivision(s, input);
      RunSnoc(start, inputs, input);
      if input.readOk {
        DividedStart(split, size, order, delivered, readOk);
        DividedRun(start, inputs + [input]);
        JobIsFixed(start, inputs + [input]);
        forall row | 1 <= row <= size
          ensures Assigned(t.senders, row)
        {
          AllOpenAssigns(t, row);
        }
      } else {
        AllAssignedIffAllOpen(split, size, order, delivered, readOk, inputs + [input]);
      }
    }
  }

  // ---------- runs in which links fail ----------

  predicate AllUp(links: map<nat, Link>) { forall id :: id in links ==> links[id].up }

  /** A round in which the nodes of `lost` get nothing, all others get everything, and
      nobody joins. */
  function Silencing(order: seq<nat>, lost: set<nat>, readOk: bool): Input {
    Tick(0, 0, {}, order, map id | id in lost :: 0, readOk)
  }

  lemma SilencedFail(s: Primary, order: seq<nat>, lost: set<nat>, readOk: bool)
    requires AllUp(s.senders) && IsOrder(order, s.senders.Keys) && lost <= s.senders.Keys
    ensures var input := Silencing(order, lost, readOk);
      && Joined(s, input) == s.senders && Newcomers(s, input) == {}
      && Failed(Attempted(s, input)) == lost && Attempted(s, input).Keys == s.senders.Keys
  {
    var input := Silencing(order, lost, readOk);
    assert Newcomers(s, input) == {};
    assert Joined(s, input) == s.senders;
    forall id | id in s.senders
      ensures Attempted(s, input)[id].up <==> id !in lost
    {
      assert |Burst(s, input, id)| >= 1;
    }
  }

  // What such a round leaves when it does not divide by zero.
  lemma SilencedTick(s: Primary, order: seq<nat>, lost: set<nat>, readOk: bool)
    requires s.phase.InProgress? && AllUp(s.senders) && IsOrder(order, s.senders.Keys) && lost <= s.senders.Keys
    requires s.counter != 10 || !readOk
    ensures var t := Next(s, Silencing(order, lost, readOk));
      && t.phase.InProgress? && t.split == s.split && t.size == s.size && AllUp(t.senders)
      && t.senders.Keys == s.senders.Keys - lost
      && t.counter == (if s.counter == 10 then 0 else s.counter + 1)
      && t.senderDropped == (lost != {} || (s.senderDropped && (s.counter != 10 || !s.split)))
      && t.division == s.division.(open := s.division.open - lost)
  {
    var input := Silencing(order, lost, readOk);
    SilencedFail(s, order, lost, readOk);
    hide Attempted, IsOrder;
  }

  function Quietly(order: seq<nat>, n: nat): seq<Input> {
    if n == 0 then [] else [Silencing(order, {}, true)] + Quietly(order, n - 1)
  }

  lemma {:induction false} QuietTicks(s: Primary, order: seq<nat>, n: nat)
    requires s.phase.InProgress? && AllUp(s.senders) && IsOrder(order, s.senders.Keys) && s.counter + n <= 10
    ensures var t := Run(s, Quietly(order, n));
      && t.phase.InProgress? && t.split == s.split && t.size == s.size && AllUp(t.senders)
      && t.senders.Keys == s.senders.Keys && t.counter == s.counter + n && t.senderDropped == s.senderDropped
      && t.division == s.division
    decreases n
  {
    if n > 0 {
      hide Next, Silencing, IsOrder, AllUp;
      var next := Next(s, Silencing(order, {}, true));
      SilencedTick(s, order, {}, true);
      assert next.senders.Keys == s.senders.Keys && next.division == s.division;
      QuietTicks(next, order, n - 1);
      assert Quietly(order, n)[1..] == Quietly(order, n - 1);
    }
  }

  function Without(order: seq<nat>, id: nat): seq<nat>
    requires id in order
  {
    order[..Index(order, id)] + order[Index(order, id) + 1..]
  }

  lemma WithoutIsOrder(order: seq<nat>, ids: set<nat>, id: nat)
    requires IsOrder(order, ids) && id in order
    ensures IsOrder(Without(order, id), ids - {id})
  {
    var i := Index(order, id);
    var rest := Without(order, id);
    forall other | other in ids - {id}
      ensures other in rest
    {
      var j := Index(order, other);
      assert rest[if j < i then j else j - 1] == other;
    }
  }

  /** A link fails in the round before the nodes are looked up, and the rows cannot be
      counted when the drop is to be repaired. */
  function ForgottenRepair(order: seq<nat>, id: nat): seq<Input>
    requires id in order
  {
    [Silencing(order, {id}, true), Silencing(Without(order, id), {}, false)]
  }

  lemma RunTwo(s: Primary, a: Input, b: Input)
    ensures Run(s, [a, b]) == Next(Next(s, a), b)
  {
    RunNothing(s);
    RunSnoc(s, [], a);
    RunSnoc(s, [a], b);
    hide *;
    assert [] + [a] == [a] && [a] + [b] == [a, b];
  }

  lemma ForgottenRepairRuns(s: Primary, order: seq<nat>, id: nat)
    requires s.phase.InProgress? && s.split && s.counter == 9 && AllUp(s.senders)
    requires IsOrder(order, s.senders.Keys) && id in s.senders && id in order
    ensures var t := Run(s, ForgottenRepair(order, id));
      && t.phase.InProgress? && !t.senderDropped && t.size == s.size
      && t.division == s.division.(open := s.division.open - {id})
  {
    hide Next, Silencing, Without, AllUp, Run, IsOrder;
    var lose, forget := Silencing(order, {id}, true), Silencing(Without(order, id), {}, false);
    SilencedTick(s, order, {id}, true);
    WithoutIsOrder(order, s.senders.Keys, id);
    SilencedTick(Next(s, lose), Without(order, id), {}, false);
    RunTwo(s, lose, forget);
    assert s.division.open - {id} - {} == s.division.open - {id};
  }

  /** Whatever the state in which it happens, such a repair leaves the job in progress, the
      drop forgotten and the rows of the lost link unassigned. */
  lemma ForgottenRepairLeavesRowsOut(s: Primary, order: seq<nat>, id: nat, row: nat)
    requires s.phase.InProgress? && s.split && s.counter == 9 && AllUp(s.senders) && Divided(s)
    requires IsOrder(order, s.senders.Keys) && id in s.division.open && |s.division.order| <= s.size
    requires InRange(row, Part(s.size, |s.division.order|, Index(s.division.order, id)))
    ensures var t := Run(s, ForgottenRepair(order, id));
      && t.phase.InProgress? && !t.senderDropped && t.division == s.division.(open := s.division.open - {id})
      && !Assigned(t.senders, row)
  {
    assert id in s.senders && id in order && id in s.division.order;
    hide *;
    ForgottenRepairRuns(s, order, id);
    DividedRun(s, ForgottenRepair(order, id));
    ClosedLeavesOut(Run(s, ForgottenRepair(order, id)), id, row);
  }

  lemma StartIsUp(size: nat, order: seq<nat>)
    requires Distinct(order) && order != []
    ensures var s := Start(true, size, order, map[], true);
      && s.phase.InProgress? && AllUp(s.senders) && IsOrder(order, s.senders.Keys)
      && s.counter == 0 && !s.senderDropped && s.split && s.size == size
      && s.division == Division(order, set id | id in order)
  {
  }

  /** The job is in progress, no drop is remembered, and nobody has the row. */
  predicate GoesOnWithout(s: Primary, row: nat) {
    s.phase.InProgress? && !s.senderDropped && !Assigned(s.senders, row)
  }

  /** For every file and every choice of secondaries with at least a row each, a run in
      which the rows of one of them are left out of a job that goes on. */
  lemma RowsCanBeLeftOut(size: nat, order: seq<nat>, id: nat, row: nat)
    requires Distinct(order) && id in order && |order| <= size
    requires InRange(row, Part(size, |order|, Index(order, id)))
    ensures exists inputs :: GoesOnWithout(Run(Start(true, size, order, map[], true), inputs), row)
  {
    var start := Start(true, size, order, map[], true);
    StartIsUp(size, order);
    QuietTicks(start, order, 9);
    DividedStart(true, size, order, map[], true);
    DividedRun(start, Quietly(order, 9));
    ForgottenRepairLeavesRowsOut(Run(start, Quietly(order, 9)), order, id, row);
    RunConcat(start, Quietly(order, 9), ForgottenRepair(order, id));
    assert GoesOnWithout(Run(start, Quietly(order, 9) + ForgottenRepair(order, id)), row);
  }

  // ---------- when the primary divides by zero ----------

  /** A round that looks for nodes to repair a drop, can count the rows, and has nobody to
      deal them to. */
  predicate NobodyToDealTo(s: Primary, input: Input) {
    && Possible(s, input) && input.Tick? && s.split && input.readOk
    && s.counter == 10 && s.senderDropped && s.senders == map[] && input.joining == {}
  }

  lemma CrashStep(s: Primary, input: Input)
    ensures Next(s, input).phase.Crashed? <==> s.phase.Crashed? || NobodyToDealTo(s, input)
  {
    hide IsOrder, Attempted;
    if Possible(s, input) && input.Tick? && s.counter == 10 {
      if s.senders != map[] {
        var id :| id in s.senders;
        assert id in Joined(s, input);
      } else if input.joining != {} {
        var id :| id in input.joining;
        assert id in Newcomers(s, input);
        assert id in Joined(s, input);
      } else {
        assert Newcomers(s, input) == {};
        assert Joined(s, input) == map[];
      }
    }
  }

  predicate MeetsNobody(s: Primary, inputs: seq<Input>) {
    exists k :: 0 <= k < |inputs| && NobodyToDealTo(Run(s, inputs[..k]), inputs[k])
  }

  lemma {:induction false} CrashRun(s: Primary, inputs: seq<Input>)
    ensures Run(s, inputs).phase.Crashed? <==> s.phase.Crashed? || MeetsNobody(s, inputs)
    decreases |inputs|
  {
    if inputs != [] {
      var last := |inputs| - 1;
      var before := inputs[..last];
      assert inputs == before + [inputs[last]];
      RunSnoc(s, before, inputs[last]);
      CrashStep(Run(s, before), inputs[last]);
      CrashRun(s, before);
      hide NobodyToDealTo, Next, Run;
      assert forall k :: 0 <= k < last ==> before[..k] == inputs[..k];
      if MeetsNobody(s, inputs) {
        var k :| 0 <= k < |inputs| && NobodyToDealTo(Run(s, inputs[..k]), inputs[k]);
        assert k < last ==> NobodyToDealTo(Run(s, before[..k]), before[k]);
      }
      if MeetsNobody(s, before) {
        var k :| 0 <= k < |before| && NobodyToDealTo(Run(s, before[..k]), before[k]);
        assert NobodyToDealTo(Run(s, inputs[..k]), inputs[k]);
      }
    }
  }

  /** In every run, the primary divides by zero if and only if a split job starts with
      countable rows and no node, or comes to a round that has nobody to deal them to. */
  lemma CrashesExactly(split: bool, size: nat, order: seq<nat>, delivered: map<nat, nat>, readOk: bool,
                       inputs: seq<Input>)
    requires Distinct(order)
    ensures var start := Start(split, size, order, delivered, readOk);
      Run(start, inputs).phase.Crashed? <==> (split && readOk && order == []) || MeetsNobody(start, inputs)
  {
    CrashRun(Start(split, size, order, delivered, readOk), inputs);
  }

  /** All secondaries of the first round are lost in it, and no node is found for ten
      rounds. */
  function Deserted(order: seq<nat>): seq<Input> {
    [Silencing(order, set id | id in order, true)] + Quietly([], 9) + [Silencing([], {}, true)]
  }

  lemma {:induction false} NobodyComes(s: Primary, n: nat)
    requires s.phase.InProgress? && s.split && s.counter + n == 10 && s.senderDropped && s.senders == map[]
    ensures Run(s, Quietly([], n) + [Silencing([], {}, true)]).phase.Crashed?
  {
    var last := Run(s, Quietly([], n));
    QuietTicks(s, [], n);
    hide *;
    assert last.senders == map[];
    RunSnoc(s, Quietly([], n), Silencing([], {}, true));
  }

  lemma AllLost(size: nat, order: seq<nat>)
    requires Distinct(order) && order != []
    ensures var s := Next(Start(true, size, order, map[], true), Silencing(order, set id | id in order, true));
      s.phase.InProgress? && s.split && s.counter == 1 && s.senderDropped && s.senders == map[]
  {
    hide Start, Next, Silencing, Distinct, AllUp;
    var ids := set id | id in order;
    var start := Start(true, size, order, map[], true);
    StartIsUp(size, order);
    assert start.senders.Keys == ids;
    assert order[0] in ids;
    SilencedTick(start, order, ids, true);
    assert Next(start, Silencing(order, ids, true)).senders.Keys == {};
  }

  /** Every split job whose rows can be counted has a run that divides by zero. */
  lemma JobsCanCrash(size: nat, order: seq<nat>)
    requires Distinct(order) && order != []
    ensures Run(Start(true, size, order, map[], true), Deserted(order)).phase.Crashed?
  {
    hide Start, Next, Silencing, Quietly, Distinct;
    var first := Silencing(order, set id | id in order, true);
    var rest := Quietly([], 9) + [Silencing([], {}, true)];
    AllLost(size, order);
    NobodyComes(Next(Start(true, size, order, map[], true), first), 9);
    assert Deserted(order)[0] == first && Deserted(order)[1..] == rest;
  }
}
