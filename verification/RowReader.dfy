/** A secondary's reader over its slice of the rows of a split file. Rows are numbered
    1 to the size of the file; the reader goes round its slice for ever. */
module RowReader {
  import opened Results
  import opened Arithmetic
  import opened WorkDivision

  // The row a cyclic reader is at after a number of steps.
  function RowAt(rows: Rows, cursor: nat, step: nat): nat
    requires rows.first <= cursor <= rows.last
  {
    rows.first + (cursor - rows.first + step) % (rows.last - rows.first + 1)
  }

  /** The next n rows of the cyclic sequence. */
  function Cycle(rows: Rows, cursor: nat, n: nat): seq<nat>
    requires rows.first <= cursor <= rows.last
  {
    seq(n, k requires 0 <= k < n => RowAt(rows, cursor, k))
  }

  function Count(history: seq<nat>, row: nat): nat {
    if history == [] then 0
    else Count(history[..|history| - 1], row) + if history[|history| - 1] == row then 1 else 0
  }

  // ---------- arithmetic of going round ----------

  lemma DivStep(n: nat, m: nat)
    requires n >= 1 && m >= 1
    ensures var q, r := (n - 1) / m, (n - 1) % m;
      if r == m - 1 then n / m == q + 1 && n % m == 0 else n / m == q && n % m == r + 1
  {
    var q, r := (n - 1) / m, (n - 1) % m;
    assert n - 1 == m * q + r;
    if r == m - 1 {
      assert m * (q + 1) == m * q + m;
      ModOf(q + 1, 0, m);
    } else {
      ModOf(q, r + 1, m);
    }
  }

  lemma RowAtAdd(rows: Rows, cursor: nat, a: nat, b: nat)
    requires rows.first <= cursor <= rows.last
    ensures rows.first <= RowAt(rows, cursor, a) <= rows.last
    ensures RowAt(rows, RowAt(rows, cursor, a), b) == RowAt(rows, cursor, a + b)
  {
    var m := rows.last - rows.first + 1;
    var x := cursor - rows.first + a;
    var q := x / m;
    assert x == m * q + x % m;
    var y := x % m + b;
    assert x + b == m * q + y;
    ModShift(q, y, m);
  }

  lemma ModShift(q: nat, y: nat, m: nat)
    requires m >= 1
    ensures (m * q + y) % m == y % m
  {
    var q', r := y / m, y % m;
    assert y == m * q' + r;
    assert m * q + y == m * (q + q') + r;
    ModOf(q + q', r, m);
  }

  lemma RowAtNear(rows: Rows, cursor: nat, step: nat)
    requires rows.first <= cursor <= rows.last && step <= rows.last - cursor + 1
    ensures RowAt(rows, cursor, step) == if step <= rows.last - cursor then cursor + step else rows.first
  {
    var m := rows.last - rows.first + 1;
    if step <= rows.last - cursor {
      ModOf(0, cursor - rows.first + step, m);
    } else {
      ModOf(1, 0, m);
    }
  }

  // ---------- fairness ----------

  // The reads of row r among the first n: one for each full round, and one more if
  // the last, unfinished round has passed it.
  lemma {:induction false} CountCycle(rows: Rows, n: nat, row: nat)
    requires rows.first <= row <= rows.last
    ensures var m := rows.last - rows.first + 1;
      Count(Cycle(rows, rows.first, n), row) == n / m + if row - rows.first < n % m then 1 else 0
    decreases n
  {
    var m := rows.last - rows.first + 1;
    if n > 0 {
      CountCycle(rows, n - 1, row);
      assert Cycle(rows, rows.first, n)[..n - 1] == Cycle(rows, rows.first, n - 1);
      DivStep(n, m);
    } else {
      ModOf(0, 0, m);
    }
  }

  lemma CyclesCompose(rows: Rows, cursor: nat, a: nat, b: nat)
    requires rows.first <= cursor <= rows.last
    ensures rows.first <= RowAt(rows, cursor, a) <= rows.last
    ensures Cycle(rows, cursor, a) + Cycle(rows, RowAt(rows, cursor, a), b) == Cycle(rows, cursor, a + b)
  {
    RowAtAdd(rows, cursor, a, 0);
    forall k | 0 <= k < b
      ensures Cycle(rows, RowAt(rows, cursor, a), b)[k] == Cycle(rows, cursor, a + b)[a + k]
    {
      RowAtAdd(rows, cursor, a, k);
    }
  }

  /** What a reader that starts at the beginning of its slice has read after a series of calls. */
  function ReadAll(rows: Rows, cursor: nat, calls: seq<nat>): seq<nat>
    requires rows.first <= cursor <= rows.last
    decreases |calls|
  {
    if calls == [] then []
    else
      RowAtAdd(rows, cursor, calls[0], 0);
      Cycle(rows, cursor, calls[0]) + ReadAll(rows, RowAt(rows, cursor, calls[0]), calls[1..])
  }

  lemma {:induction false} ReadAllIsCycle(rows: Rows, cursor: nat, calls: seq<nat>) returns (total: nat)
    requires rows.first <= cursor <= rows.last
    ensures total == Sum(calls) && ReadAll(rows, cursor, calls) == Cycle(rows, cursor, total)
    decreases |calls|
  {
    if calls == [] {
      return 0;
    }
    var n := calls[0];
    RowAtAdd(rows, cursor, n, 0);
    var next := RowAt(rows, cursor, n);
    var rest := ReadAllIsCycle(rows, next, calls[1..]);
    CyclesCompose(rows, cursor, n, rest);
    total := n + rest;
  }

  /** Over any series of calls no row of the slice is read two times more than another. */
  lemma ReadsAreFair(rows: Rows, calls: seq<nat>, a: nat, b: nat)
    requires rows.first <= a <= rows.last && rows.first <= b <= rows.last
    ensures Count(ReadAll(rows, rows.first, calls), a) <= Count(ReadAll(rows, rows.first, calls), b) + 1
  {
    var total := ReadAllIsCycle(rows, rows.first, calls);
    CountCycle(rows, total, a);
    CountCycle(rows, total, b);
  }

  // ---------- the reader ----------

  class SplitRequestFile {
    const fileRows: nat
    var isOpen: bool
    var size: nat
    var rangeStart: nat
    var rangeEnd: nat
    var cursor: nat

    // The slice the reader goes round once the file is open: 0 stands for either end of the file.
    ghost function Slice(): Rows
      reads this
    {
      Rows(if rangeStart == 0 then 1 else rangeStart, if rangeEnd == 0 then fileRows else rangeEnd)
    }

    // Where the next call starts reading.
    ghost function Position(): nat
      reads this
    {
      if isOpen then cursor else Slice().first
    }

    ghost predicate Valid()
      reads this
    {
      && (fileRows >= 1 ==> 1 <= Slice().first <= Slice().last <= fileRows)
      && (isOpen ==> fileRows >= 1 && rangeStart >= 1 && rangeEnd >= 1 && rangeStart <= cursor <= rangeEnd)
    }

    // Rows first up to, not including, end of the table.
    method Query(first: nat, end: nat) returns (data: seq<nat>)
      ensures 1 <= first <= end <= fileRows + 1 ==> data == seq(end - first, k requires 0 <= k => first + k)
    {
      data := [];
      var row := Max(first, 1);
      while row < end && row <= fileRows
        invariant |data| == row - Max(first, 1) && forall k :: 0 <= k < |data| ==> data[k] == Max(first, 1) + k
        invariant Max(first, 1) <= row && (1 <= first <= end <= fileRows + 1 ==> row <= end)
      {
        data := data + [row];
        row := row + 1;
      }
    }

    method Open() returns (r: Result<()>)
      requires Valid() && !isOpen
      modifies this
      ensures Valid() && Slice() == old(Slice()) && Position() == old(Position())
      ensures isOpen <==> r.Ok?
      ensures r.Ok? <==> fileRows >= 1
    {
      size := fileRows;
      if size < 1 {
        return Err;
      }
      isOpen := true;
      if rangeStart == 0 {
        rangeStart := 1;
        cursor := 1;
      } else {
        cursor := rangeStart;
      }
      if rangeEnd == 0 {
        rangeEnd := size;
      }
      r := Ok(());
    }

    /** Exactly the next n rows of the cyclic sequence over the slice. */
    method GetN(n: nat) returns (r: Result<seq<nat>>)
      requires Valid() && n >= 1
      modifies this
      ensures Valid() && Slice() == old(Slice())
      ensures r.Err? <==> fileRows == 0
      ensures r.Ok? ==> r.value == Cycle(Slice(), old(Position()), n)
      ensures r.Ok? ==> Position() == RowAt(Slice(), old(Position()), n)
    {
      if !isOpen {
        var result := Open();
        if result.Err? {
          return Err;
        }
      }
      ghost var rows, start := Slice(), cursor;
      var need: nat := n;
      var data: seq<nat> := [];
      RowAtNear(rows, start, 0);
      while |data| < n
        invariant isOpen && Valid() && Slice() == rows && |data| <= n && need == n - |data|
        invariant rows == Rows(rangeStart, rangeEnd)
        invariant data == Cycle(rows, start, |data|) && cursor == RowAt(rows, start, |data|)
        decreases n - |data|
      {
        var end := Min(rangeEnd + 1, cursor + need);
        var found := Query(cursor, end);
        ghost var step := end - cursor;
        assert found == Cycle(rows, cursor, step) by {
          forall k | 0 <= k < step ensures RowAt(rows, cursor, k) == cursor + k {
            RowAtNear(rows, cursor, k);
          }
        }
        CyclesCompose(rows, start, |data|, step);
        RowAtAdd(rows, start, |data|, step);
        RowAtNear(rows, cursor, step);
        need := need - |found|;
        data := data + found;
        cursor := end;
        if cursor > rangeEnd {
          cursor := rangeStart;
        }
      }
      r := Ok(data);
    }
  }
}
