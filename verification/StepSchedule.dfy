/** Rates that change in steps: how a list of steps is validated, and how the cursor
    that moves over it picks the rate of each second. */
module StepSchedule {
  import opened Results

  const U32_MAX: nat := 0xffff_ffff

  datatype Step = Step(start: nat, end: nat, rate: nat)

  predicate InStep(t: nat, s: Step) { s.start <= t <= s.end }

  // ---------- sorting by start ----------

  // A stable sort: an entry goes behind the entries that start no later.
  function Insert(sorted: seq<Step>, x: Step): seq<Step> {
    if sorted == [] || sorted[|sorted| - 1].start <= x.start then sorted + [x]
    else Insert(sorted[..|sorted| - 1], x) + [sorted[|sorted| - 1]]
  }

  function SortByStart(steps: seq<Step>): seq<Step> {
    if steps == [] then [] else Insert(SortByStart(steps[..|steps| - 1]), steps[|steps| - 1])
  }

  predicate Sorted(steps: seq<Step>) {
    forall i, j :: 0 <= i < j < |steps| ==> steps[i].start <= steps[j].start
  }

  lemma SplitLast(s: seq<Step>)
    requires s != []
    ensures multiset(s) == multiset(s[..|s| - 1]) + multiset{s[|s| - 1]}
  {
    assert s == s[..|s| - 1] + [s[|s| - 1]];
  }

  // Nothing in an arrangement of `rest` and `x` starts after `last`.
  lemma NoneAfter(arranged: seq<Step>, rest: seq<Step>, x: Step, last: Step)
    requires multiset(arranged) == multiset(rest) + multiset{x} && x.start <= last.start
    requires forall i :: 0 <= i < |rest| ==> rest[i].start <= last.start
    ensures forall i :: 0 <= i < |arranged| ==> arranged[i].start <= last.start
  {
    forall i | 0 <= i < |arranged| ensures arranged[i].start <= last.start {
      assert arranged[i] in multiset(arranged);
      assert arranged[i] in multiset(rest) || arranged[i] == x;
      assert arranged[i] in rest || arranged[i] == x;
    }
  }

  lemma {:induction false} InsertSorts(sorted: seq<Step>, x: Step)
    requires Sorted(sorted)
    ensures Sorted(Insert(sorted, x))
    ensures multiset(Insert(sorted, x)) == multiset(sorted) + multiset{x}
  {
    if sorted != [] && sorted[|sorted| - 1].start > x.start {
      var rest, last := sorted[..|sorted| - 1], sorted[|sorted| - 1];
      InsertSorts(rest, x);
      SplitLast(sorted);
      NoneAfter(Insert(rest, x), rest, x, last);
    }
  }

  lemma {:induction false} SortSorts(steps: seq<Step>)
    ensures Sorted(SortByStart(steps))
    ensures multiset(SortByStart(steps)) == multiset(steps)
  {
    if steps != [] {
      SortSorts(steps[..|steps| - 1]);
      InsertSorts(SortByStart(steps[..|steps| - 1]), steps[|steps| - 1]);
      SplitLast(steps);
    }
  }

  // ---------- what a schedule should be ----------

  /** The steps follow each other without gap or overlap from 0 on. */
  predicate Partition(steps: seq<Step>) {
    && steps != [] && steps[0].start == 0
    && (forall i :: 0 <= i < |steps| ==> steps[i].start < steps[i].end <= U32_MAX)
    && (forall i :: 0 <= i < |steps| - 1 ==> steps[i].end + 1 == steps[i + 1].start)
  }

  lemma {:induction false} PartitionOrdered(steps: seq<Step>, i: nat, j: nat)
    requires Partition(steps) && i < j < |steps|
    ensures steps[i].end < steps[j].start
    decreases j
  {
    if i < j - 1 {
      PartitionOrdered(steps, i, j - 1);
    }
  }

  // The step that a search from the left finds.
  lemma {:induction false} FindStep(steps: seq<Step>, t: nat, from: nat) returns (i: nat)
    requires Partition(steps) && from < |steps| && steps[from].start <= t <= steps[|steps| - 1].end
    ensures i < |steps| && InStep(t, steps[i])
    decreases |steps| - from
  {
    if t <= steps[from].end {
      i := from;
    } else {
      i := FindStep(steps, t, from + 1);
    }
  }

  /** Every second up to the last end belongs to exactly one step. */
  lemma PartitionCovers(steps: seq<Step>, t: nat)
    requires Partition(steps) && t <= steps[|steps| - 1].end
    ensures exists i :: 0 <= i < |steps| && InStep(t, steps[i])
    ensures forall i, j :: 0 <= i < j < |steps| ==> !(InStep(t, steps[i]) && InStep(t, steps[j]))
  {
    var i := FindStep(steps, t, 0);
    forall i, j | 0 <= i < j < |steps| ensures !(InStep(t, steps[i]) && InStep(t, steps[j])) {
      PartitionOrdered(steps, i, j);
    }
  }

  // ---------- validation ----------

  // The condition between neighbours, in 32-bit arithmetic.
  predicate Follows(prev: Step, current: Step) {
    (prev.end + 1) % (U32_MAX + 1) == current.start
  }

  predicate Continuous(steps: seq<Step>) {
    forall i :: 0 <= i < |steps| - 1 ==> Follows(steps[i], steps[i + 1])
  }

  predicate Accepts(steps: seq<Step>) {
    |steps| >= 2 && SortByStart(steps)[0].start == 0 && Continuous(SortByStart(steps))
  }

  /** The steps sorted by start, provided there are two or more and they follow each other. */
  method CheckSteps(steps: seq<Step>) returns (r: Result<seq<Step>>)
    ensures r.Ok? <==> Accepts(steps)
    ensures r.Ok? ==> r.value == SortByStart(steps)
  {
    SortSorts(steps);
    assert |multiset(steps)| == |multiset(SortByStart(steps))|;
    if steps == [] {
      return Err;
    }
    if |steps| == 1 {
      return Err;
    }
    var sorted := SortByStart(steps);
    if sorted[0].start != 0 {
      return Err;
    }
    var prev := sorted[0].end;
    for i := 1 to |sorted|
      invariant prev == sorted[i - 1].end
      invariant forall k :: 0 <= k < i - 1 ==> Follows(sorted[k], sorted[k + 1])
    {
      if (prev + 1) % (U32_MAX + 1) != sorted[i].start {
        assert !Follows(sorted[i - 1], sorted[i]);
        return Err;
      }
      prev := sorted[i].end;
    }
    r := Ok(sorted);
  }

  /** Every step ends after its start and fits 32 bits. */
  predicate Checked(steps: seq<Step>) {
    forall s :: s in steps ==> s.start < s.end <= U32_MAX
  }

  // How many steps start at 0.
  function Zeros(steps: seq<Step>): nat {
    if steps == [] then 0 else Zeros(steps[..|steps| - 1]) + if steps[|steps| - 1].start == 0 then 1 else 0
  }

  lemma {:induction false} ZerosInsert(sorted: seq<Step>, x: Step)
    ensures Zeros(Insert(sorted, x)) == Zeros(sorted) + if x.start == 0 then 1 else 0
  {
    if sorted == [] || sorted[|sorted| - 1].start <= x.start {
      assert (sorted + [x])[..|sorted|] == sorted;
    } else {
      var rest := sorted[..|sorted| - 1];
      ZerosInsert(rest, x);
      assert (Insert(rest, x) + [sorted[|sorted| - 1]])[..|Insert(rest, x)|] == Insert(rest, x);
    }
  }

  lemma {:induction false} ZerosSort(steps: seq<Step>)
    ensures Zeros(SortByStart(steps)) == Zeros(steps)
  {
    if steps != [] {
      ZerosSort(steps[..|steps| - 1]);
      ZerosInsert(SortByStart(steps[..|steps| - 1]), steps[|steps| - 1]);
    }
  }

  // In a sorted list the steps that start at 0 come first.
  lemma {:induction false} ZerosSorted(steps: seq<Step>)
    requires Sorted(steps) && steps != [] && steps[0].start == 0
    ensures Zeros(steps) == 1 <==> |steps| == 1 || steps[1].start > 0
    ensures Zeros(steps) >= 1
  {
    if |steps| > 1 {
      ZerosSorted(steps[..|steps| - 1]);
    }
  }

  // The 32-bit test is exact unless a step ends at the largest number, and then the next one starts at 0.
  lemma ContinuousIsPartition(sorted: seq<Step>)
    requires Sorted(sorted) && |sorted| >= 2 && sorted[0].start == 0 && Continuous(sorted)
    requires forall i :: 0 <= i < |sorted| ==> sorted[i].start < sorted[i].end <= U32_MAX
    ensures Partition(sorted) <==> sorted[1].start > 0
  {
    if sorted[1].start > 0 {
      forall i | 0 <= i < |sorted| - 1 ensures sorted[i].end + 1 == sorted[i + 1].start {
        assert Follows(sorted[i], sorted[i + 1]);
        assert sorted[i + 1].start >= sorted[1].start;
      }
    }
  }

  /** An accepted list is a schedule if and only if a single step starts at 0. */
  lemma AcceptedIsPartition(steps: seq<Step>)
    requires Accepts(steps) && Checked(steps)
    ensures Partition(SortByStart(steps)) <==> Zeros(steps) == 1
  {
    var sorted := SortByStart(steps);
    SortSorts(steps);
    ZerosSort(steps);
    ZerosSorted(sorted);
    assert |multiset(steps)| == |multiset(sorted)|;
    forall i | 0 <= i < |sorted| ensures sorted[i].start < sorted[i].end <= U32_MAX {
      assert sorted[i] in multiset(sorted);
      assert sorted[i] in steps;
    }
    ContinuousIsPartition(sorted);
  }

  /** A list as it is read: each step is checked, then the list. What is accepted is a
      schedule if and only if a single step starts at 0. */
  method ReadSteps(raw: seq<Step>) returns (r: Result<seq<Step>>)
    requires forall s :: s in raw ==> s.start <= U32_MAX && s.end <= U32_MAX && s.rate <= U32_MAX
    ensures r.Ok? <==> Checked(raw) && Accepts(raw)
    ensures r.Ok? ==> multiset(r.value) == multiset(raw) && (Partition(r.value) <==> Zeros(raw) == 1)
  {
    for i := 0 to |raw|
      invariant forall k :: 0 <= k < i ==> raw[k].start < raw[k].end
    {
      if raw[i].start >= raw[i].end {
        assert raw[i] in raw;
        return Err;
      }
    }
    r := CheckSteps(raw);
    if r.Ok? {
      SortSorts(raw);
      AcceptedIsPartition(raw);
    }
  }

  /** A list that is accepted although its steps overlap: the end of the first step wraps around. */
  lemma WrappedStepsAreAccepted(rate1: nat, rate2: nat)
    ensures var steps := [Step(0, U32_MAX, rate1), Step(0, 5, rate2)];
      Checked(steps) && Accepts(steps) && !Partition(SortByStart(steps))
  {
    var a, b := Step(0, U32_MAX, rate1), Step(0, 5, rate2);
    assert [a, b][..1] == [a] && [a][..0] == [];
    assert SortByStart([a]) == [a];
    assert SortByStart([a, b]) == [a, b];
  }

  predicate Strict(steps: seq<Step>) {
    forall i, j :: 0 <= i < j < |steps| ==> steps[i].start < steps[j].start
  }

  lemma LastAgrees(sorted: seq<Step>, p: seq<Step>)
    requires Sorted(sorted) && Strict(p) && |sorted| == |p| > 0
    requires multiset(sorted) == multiset(p)
    ensures sorted[|p| - 1] == p[|p| - 1]
  {
    var n := |p| - 1;
    assert p[n] in multiset(sorted) && sorted[n] in multiset(p);
    var i :| 0 <= i <= n && sorted[i] == p[n];
    var j :| 0 <= j <= n && p[j] == sorted[n];
  }

  lemma DropLast(a: seq<Step>, b: seq<Step>)
    requires a != [] && b != [] && multiset(a) == multiset(b) && a[|a| - 1] == b[|b| - 1]
    ensures multiset(a[..|a| - 1]) == multiset(b[..|b| - 1])
  {
    SplitLast(a);
    SplitLast(b);
    assert multiset(a[..|a| - 1]) == multiset(a) - multiset{a[|a| - 1]};
    assert multiset(b[..|b| - 1]) == multiset(b) - multiset{b[|b| - 1]};
  }

  // A schedule is the only sorted arrangement of its steps.
  lemma {:induction false} SortedIsUnique(sorted: seq<Step>, p: seq<Step>)
    requires Sorted(sorted) && Strict(p) && |sorted| == |p| && multiset(sorted) == multiset(p)
    ensures sorted == p
    decreases |p|
  {
    if p != [] {
      var n := |p| - 1;
      LastAgrees(sorted, p);
      DropLast(sorted, p);
      SortedIsUnique(sorted[..n], p[..n]);
      assert sorted == sorted[..n] + [sorted[n]] && p == p[..n] + [p[n]];
    }
  }

  /** Every arrangement of the steps of a schedule is accepted, and the schedule is the result. */
  lemma SchedulesAreAccepted(steps: seq<Step>, p: seq<Step>)
    requires Partition(p) && |p| >= 2 && multiset(steps) == multiset(p)
    ensures Accepts(steps) && SortByStart(steps) == p
  {
    hide SortByStart;
    SortSorts(steps);
    forall i, j | 0 <= i < j < |p| ensures p[i].start < p[j].start {
      PartitionOrdered(p, i, j);
    }
    assert |steps| == |multiset(steps)| == |p|;
    assert |SortByStart(steps)| == |multiset(SortByStart(steps))| == |p|;
    SortedIsUnique(SortByStart(steps), p);
    forall i | 0 <= i < |p| - 1 ensures Follows(p[i], p[i + 1]) {
      assert p[i].end + 1 == p[i + 1].start < p[i + 1].end;
    }
  }

  // ---------- the rate of each second ----------

  /** The rate a search of the whole schedule gives: that of the step the second lies in,
      or the last rate when the schedule has ended. */
  predicate IsRateAt(steps: seq<Step>, t: nat, rate: nat)
    requires steps != []
  {
    if t > steps[|steps| - 1].end then rate == steps[|steps| - 1].rate
    else exists i :: 0 <= i < |steps| && InStep(t, steps[i]) && rate == steps[i].rate
  }

  // The cursor may be asked for second t: it stands on the step of the second before, or on the last one.
  predicate Tracks(steps: seq<Step>, current: nat, t: nat) {
    && current < |steps|
    && steps[current].start <= t
    && (t <= steps[current].end + 1 || current == |steps| - 1)
  }

  class Steps {
    const steps: seq<Step>
    var currentStep: nat

    constructor (valid: seq<Step>)
      requires Partition(valid)
      ensures steps == valid && Tracks(steps, currentStep, 0)
    {
      steps := valid;
      currentStep := 0;
    }

    /** The rate of a second, looked for in the current step and the next one only. */
    method Next(nth: nat) returns (rate: nat)
      requires Partition(steps) && Tracks(steps, currentStep, nth)
      modifies this
      ensures IsRateAt(steps, nth, rate)
      ensures Tracks(steps, currentStep, nth + 1)
    {
      var step := steps[currentStep];
      if step.start <= nth && step.end >= nth {
        rate := step.rate;
        if currentStep < |steps| - 1 {
          PartitionOrdered(steps, currentStep, |steps| - 1);
        }
        assert InStep(nth, steps[currentStep]);
      } else if currentStep + 1 < |steps| {
        currentStep := currentStep + 1;
        rate := steps[currentStep].rate;
        assert InStep(nth, steps[currentStep]);
        if currentStep < |steps| - 1 {
          PartitionOrdered(steps, currentStep, |steps| - 1);
        }
      } else {
        rate := steps[|steps| - 1].rate;
      }
    }
  }

  /** The generator asks for every second in turn and gets the rates of the schedule. */
  method Generate(schedule: seq<Step>, duration: nat) returns (rates: seq<nat>)
    requires Partition(schedule)
    ensures |rates| == duration
    ensures forall t :: 0 <= t < duration ==> IsRateAt(schedule, t, rates[t])
  {
    var scheme := new Steps(schedule);
    rates := [];
    var count := 0;
    while count < duration
      invariant count == |rates| <= duration
      invariant scheme.steps == schedule && Tracks(schedule, scheme.currentStep, count)
      invariant forall t :: 0 <= t < count ==> IsRateAt(schedule, t, rates[t])
    {
      var rate := scheme.Next(count);
      rates := rates + [rate];
      count := count + 1;
    }
  }

  /** The rate of a second is unique, so the cursor refines the full search. */
  lemma RateIsUnique(steps: seq<Step>, t: nat, a: nat, b: nat)
    requires Partition(steps) && IsRateAt(steps, t, a) && IsRateAt(steps, t, b)
    ensures a == b
  {
    if t <= steps[|steps| - 1].end {
      PartitionCovers(steps, t);
    }
  }
}
