/** How the primary divides file rows and rates among the secondaries. */
module WorkDivision {
  import opened Arithmetic

  /** An inclusive range of row numbers. */
  datatype Rows = Rows(first: nat, last: nat)

  predicate InRange(row: nat, r: Rows) { r.first <= row <= r.last }

  predicate Disjoint(a: Rows, b: Rows) { a.last < b.first || b.last < a.first }

  function Length(r: Rows): int { r.last - r.first + 1 }

  // ---------- what the division means ----------

  // The last row of the first k parts.
  function End(size: nat, parts: nat, k: nat): nat
    requires parts >= 1
  {
    Min(size, k * (size / parts) + Min(k, size % parts))
  }

  function Part(size: nat, parts: nat, k: nat): Rows
    requires parts >= 1
  {
    Rows(Min(End(size, parts, k) + 1, size), End(size, parts, k + 1))
  }

  function Parts(size: nat, parts: nat): seq<Rows>
    requires parts >= 1
  {
    seq(parts, k requires 0 <= k < parts => Part(size, parts, k))
  }

  lemma DivMod(size: nat, parts: nat)
    requires parts >= 1
    ensures size == parts * (size / parts) + size % parts
    ensures size < parts ==> size / parts == 0 && size % parts == size
    ensures size >= parts ==> size / parts >= 1
  {
  }

  lemma MulStep(k: nat, block: nat)
    ensures (k + 1) * block == k * block + block
  {
  }

  lemma MulMono(j: nat, k: nat, block: nat)
    requires j <= k
    ensures j * block <= k * block
  {
  }

  // The cuts lie in order and each part adds a block, or a block and one row.
  lemma EndStep(size: nat, parts: nat, k: nat)
    requires parts >= 1 && k < parts
    ensures End(size, parts, k + 1) ==
            End(size, parts, k) + size / parts + if k < size % parts then 1 else 0
    ensures End(size, parts, 0) == 0 && End(size, parts, parts) == size
  {
    DivMod(size, parts);
    MulStep(k, size / parts);
    MulMono(k + 1, parts, size / parts);
  }

  lemma EndMono(size: nat, parts: nat, j: nat, k: nat)
    requires parts >= 1 && j <= k <= parts
    ensures End(size, parts, j) <= End(size, parts, k)
  {
    MulMono(j, k, size / parts);
  }

  // The part of a row, searched from the left.
  lemma {:induction false} FindPart(size: nat, parts: nat, row: nat, from: nat) returns (k: nat)
    requires parts >= 1 && 1 <= row <= size && from < parts && End(size, parts, from) < row
    ensures k < parts && InRange(row, Part(size, parts, k))
    decreases parts - from
  {
    EndStep(size, parts, from);
    if row <= End(size, parts, from + 1) {
      k := from;
    } else {
      assert from + 1 < parts;
      k := FindPart(size, parts, row, from + 1);
    }
  }

  /** Every row belongs to some part. */
  lemma PartsCover(size: nat, parts: nat, row: nat)
    requires parts >= 1 && 1 <= row <= size
    ensures exists k :: 0 <= k < parts && InRange(row, Parts(size, parts)[k])
  {
    EndStep(size, parts, 0);
    var k := FindPart(size, parts, row, 0);
    assert InRange(row, Parts(size, parts)[k]);
  }

  /** No part is empty, and no two lengths differ by more than one. */
  lemma PartsBalanced(size: nat, parts: nat, j: nat, k: nat)
    requires size >= 1 && j < parts && k < parts
    ensures Length(Part(size, parts, j)) >= 1
    ensures Length(Part(size, parts, j)) <= Length(Part(size, parts, k)) + 1
    ensures 1 <= Part(size, parts, j).first && Part(size, parts, j).last <= size
  {
    DivMod(size, parts);
    EndStep(size, parts, j);
    EndStep(size, parts, k);
    EndMono(size, parts, j + 1, parts);
    EndMono(size, parts, k + 1, parts);
    EndMono(size, parts, 0, j);
    if size < parts {
      assert 0 * j == 0 && 0 * k == 0;
    }
  }

  /** The parts are pairwise disjoint exactly when there are at least as many rows as parts. */
  lemma PartsDisjoint(size: nat, parts: nat)
    requires size >= 1 && parts >= 1
    ensures (forall j, k :: 0 <= j < k < parts ==> Disjoint(Parts(size, parts)[j], Parts(size, parts)[k]))
            <==> size >= parts
  {
    if size >= parts {
      forall j, k | 0 <= j < k < parts
        ensures Disjoint(Parts(size, parts)[j], Parts(size, parts)[k])
      {
        EndMono(size, parts, j + 1, k);
        PartsBalanced(size, parts, k, k);
        EndStep(size, parts, k);
        DivMod(size, parts);
        EndMono(size, parts, k + 1, parts);
      }
    } else {
      // the last two parts both hold the last row
      DivMod(size, parts);
      EndStep(size, parts, parts - 1);
      EndStep(size, parts, parts - 2);
      assert Part(size, parts, parts - 2).last == size && Part(size, parts, parts - 1).last == size;
      assert !Disjoint(Parts(size, parts)[parts - 2], Parts(size, parts)[parts - 1]);
    }
  }

  /** The parts lie in the order of the rows, without a gap, and the longer ones come first. */
  lemma PartsInOrder(size: nat, parts: nat, k: nat)
    requires 1 <= parts <= size && k < parts
    ensures k == 0 ==> Part(size, parts, k).first == 1
    ensures k == parts - 1 ==> Part(size, parts, k).last == size
    ensures k < parts - 1 ==> Part(size, parts, k + 1).first == Part(size, parts, k).last + 1
    ensures k < parts - 1 ==> Length(Part(size, parts, k + 1)) <= Length(Part(size, parts, k))
  {
    DivMod(size, parts);
    EndStep(size, parts, k);
    EndMono(size, parts, k + 1, parts);
    if k < parts - 1 {
      EndStep(size, parts, k + 1);
      EndMono(size, parts, k + 2, parts);
    }
  }

  // ---------- how it is computed ----------

  /** The ranges in the order they are dealt out. */
  method SplitRanges(size: nat, parts: nat) returns (splits: seq<Rows>)
    requires parts >= 1
    ensures splits == Parts(size, parts)
  {
    var block := size / parts;
    var remainder := size % parts;
    splits := [];
    var lastEnd := 0;
    EndStep(size, parts, 0);
    for k := 0 to remainder
      invariant |splits| == k && lastEnd == End(size, parts, k)
      invariant forall i :: 0 <= i < k ==> splits[i] == Part(size, parts, i)
    {
      EndStep(size, parts, k);
      EndMono(size, parts, k + 1, parts);
      var newEnd := Min(size, lastEnd + block + 1);
      splits := splits + [Rows(Min(lastEnd + 1, size), newEnd)];
      lastEnd := newEnd;
    }
    for k := remainder to parts
      invariant |splits| == k && lastEnd == End(size, parts, k)
      invariant forall i :: 0 <= i < k ==> splits[i] == Part(size, parts, i)
    {
      EndStep(size, parts, k);
      EndMono(size, parts, k + 1, parts);
      var newEnd := Min(size, lastEnd + block);
      splits := splits + [Rows(Min(lastEnd + 1, size), newEnd)];
      lastEnd := newEnd;
    }
  }

  // ---------- shares of a rate ----------

  function Share(total: nat, n: nat, i: nat): nat
    requires n >= 1
  {
    total / n + if i < total % n then 1 else 0
  }

  function Shares(total: nat, n: nat): seq<nat>
    requires n >= 1
  {
    seq(n, i requires 0 <= i < n => Share(total, n, i))
  }

  lemma {:induction false} SharesPrefixSum(total: nat, n: nat, k: nat)
    requires n >= 1 && k <= n
    ensures Sum(Shares(total, n)[..k]) == k * (total / n) + Min(k, total % n)
  {
    if k > 0 {
      var s := Shares(total, n);
      assert s[..k] == s[..k - 1] + [s[k - 1]];
      SumAppend(s[..k - 1], s[k - 1]);
      SharesPrefixSum(total, n, k - 1);
      MulStep(k - 1, total / n);
    }
  }

  /** The shares add up to the rate and differ by at most one, the larger ones first. */
  lemma SharesAreFair(total: nat, n: nat)
    requires n >= 1
    ensures Sum(Shares(total, n)) == total
    ensures forall i, j :: 0 <= i < n && 0 <= j < n ==> Shares(total, n)[i] <= Shares(total, n)[j] + 1
    ensures forall i, j :: 0 <= i < j < n ==> Shares(total, n)[i] >= Shares(total, n)[j]
  {
    SharesPrefixSum(total, n, n);
    assert Shares(total, n)[..n] == Shares(total, n);
    DivMod(total, n);
  }

  /** The shares of requests and of connections, one entry per secondary. */
  method CalculateReqPerSecondary(qps: nat, connections: nat, n: nat)
    returns (qpsShares: seq<nat>, connectionShares: seq<nat>)
    requires n >= 1
    ensures qpsShares == Shares(qps, n) && connectionShares == Shares(connections, n)
    ensures Sum(qpsShares) == qps && Sum(connectionShares) == connections
  {
    var q, c := new nat[n](_ => qps / n), new nat[n](_ => connections / n);
    for pos := 0 to n
      invariant forall i :: 0 <= i < pos ==> q[i] == Share(qps, n, i) && c[i] == Share(connections, n, i)
      invariant forall i :: pos <= i < n ==> q[i] == qps / n && c[i] == connections / n
    {
      if pos < qps % n {
        q[pos] := q[pos] + 1;
      }
      if pos < connections % n {
        c[pos] := c[pos] + 1;
      }
    }
    qpsShares, connectionShares := q[..], c[..];
    SharesAreFair(qps, n);
    SharesAreFair(connections, n);
  }
}
