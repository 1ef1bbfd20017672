/** JSON values as the data library holds them: an object lists its entries in the
    order of their keys, each key once. */
module JsonValue {
  import opened Results

  datatype Value =
    | Null
    | Bool(b: bool)
    | Int(n: int)
    | Float(text: string)
    | Str(s: string)
    | Arr(items: seq<Value>)
    | Obj(entries: seq<Entry>)

  datatype Entry = Entry(key: string, value: Value)

  // ---------- the order of keys ----------

  predicate Before(a: string, b: string) {
    b != [] && (a == [] || a[0] < b[0] || (a[0] == b[0] && Before(a[1..], b[1..])))
  }

  lemma {:induction false} BeforeIsStrict(a: string, b: string)
    requires Before(a, b)
    ensures a != b && !Before(b, a)
  {
    if a != [] && a[0] == b[0] {
      BeforeIsStrict(a[1..], b[1..]);
    }
  }

  predicate Sorted(entries: seq<Entry>) {
    forall i, j :: 0 <= i < j < |entries| ==> Before(entries[i].key, entries[j].key)
  }

  /** Every object in the value is sorted. */
  predicate Valid(v: Value) {
    match v
    case Arr(items) => forall i :: 0 <= i < |items| ==> Valid(items[i])
    case Obj(entries) => ValidEntries(entries)
    case _ => true
  }

  predicate ValidEntries(entries: seq<Entry>) {
    Sorted(entries) && forall i :: 0 <= i < |entries| ==> Valid(entries[i].value)
  }

  // ---------- entries ----------

  function Get(entries: seq<Entry>, key: string): Option<Value> {
    if entries == [] then None
    else if entries[0].key == key then Some(entries[0].value)
    else Get(entries[1..], key)
  }

  function Put(entries: seq<Entry>, key: string, value: Value): seq<Entry> {
    if entries == [] then [Entry(key, value)]
    else if entries[0].key == key then [Entry(key, value)] + entries[1..]
    else if Before(key, entries[0].key) then [Entry(key, value)] + entries
    else [entries[0]] + Put(entries[1..], key, value)
  }

  predicate AllBefore(entries: seq<Entry>, key: string) {
    forall i :: 0 <= i < |entries| ==> Before(entries[i].key, key)
  }

  lemma {:induction false} GetPut(entries: seq<Entry>, key: string, value: Value, other: string)
    ensures Get(Put(entries, key, value), other) == if other == key then Some(value) else Get(entries, other)
  {
    if entries != [] && entries[0].key != key && !Before(key, entries[0].key) {
      GetPut(entries[1..], key, value, other);
    }
  }

  // A key that follows all others is put last.
  lemma {:induction false} PutLast(entries: seq<Entry>, key: string, value: Value)
    requires AllBefore(entries, key)
    ensures Put(entries, key, value) == entries + [Entry(key, value)]
  {
    if entries != [] {
      BeforeIsStrict(entries[0].key, key);
      PutLast(entries[1..], key, value);
    }
  }

  lemma {:induction false} GetOfLast(entries: seq<Entry>, key: string)
    requires entries != [] && Sorted(entries)
    ensures var last := entries[|entries| - 1];
      Get(entries, key) == if last.key == key then Some(last.value) else Get(entries[..|entries| - 1], key)
  {
    var n := |entries| - 1;
    if n > 0 {
      BeforeIsStrict(entries[0].key, entries[n].key);
      assert entries[1..][..n - 1] == entries[..n][1..];
      GetOfLast(entries[1..], key);
    }
  }

  lemma {:induction false} GetOfPrefix(entries: seq<Entry>, i: nat, key: string)
    requires i <= |entries|
    ensures Get(entries[..i], key).Some? ==> Get(entries, key) == Get(entries[..i], key)
  {
    if i > 0 {
      assert entries[..i][1..] == entries[1..][..i - 1];
      GetOfPrefix(entries[1..], i - 1, key);
    }
  }

  // ---------- nesting ----------

  function Depth(v: Value): nat {
    match v
    case Arr(items) => 1 + DepthOfItems(items)
    case Obj(entries) => 1 + DepthOf(entries)
    case _ => 0
  }

  function DepthOfItems(items: seq<Value>): nat {
    if items == [] then 0
    else
      var rest, first := DepthOfItems(items[1..]), Depth(items[0]);
      if first > rest then first else rest
  }

  function DepthOf(entries: seq<Entry>): nat {
    if entries == [] then 0
    else
      var n := |entries| - 1;
      var rest, last := DepthOf(entries[..n]), Depth(entries[n].value);
      if last > rest then last else rest
  }

  lemma {:induction false} EntryIsShallower(entries: seq<Entry>, i: nat)
    requires i < |entries|
    ensures Depth(entries[i].value) <= DepthOf(entries)
  {
    var n := |entries| - 1;
    if i < n {
      assert entries[..n][i] == entries[i];
      EntryIsShallower(entries[..n], i);
    }
  }

  lemma {:induction false} FoundAt(entries: seq<Entry>, key: string) returns (i: nat)
    requires Get(entries, key).Some?
    ensures i < |entries| && entries[i] == Entry(key, Get(entries, key).value)
  {
    if entries[0].key == key {
      i := 0;
    } else {
      i := FoundAt(entries[1..], key);
      i := i + 1;
    }
  }

  lemma FoundIsShallower(entries: seq<Entry>, key: string)
    requires Get(entries, key).Some?
    ensures Depth(Get(entries, key).value) <= DepthOf(entries)
    ensures ValidEntries(entries) ==> Valid(Get(entries, key).value)
  {
    var i := FoundAt(entries, key);
    EntryIsShallower(entries, i);
  }
}
