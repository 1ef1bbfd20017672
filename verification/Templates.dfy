/** Templates in JSON data: their collection and the filling of the data with their
    values.

    `template` says of every text whether it contains a template. Evaluating one may
    give anything, and something else each time, so `eval` maps the path of the
    template and its text to an arbitrary value. */
module Templates {
  import opened Results
  import opened JsonValue
  import opened JsonPointer

  datatype Leaf = Leaf(path: seq<string>, text: string)

  // ---------- where the templates are ----------

  function Leaves(template: string -> bool, v: Value, at: seq<string>): seq<Leaf>
    decreases v, 0
  {
    match v
    case Str(s) => if template(s) then [Leaf(at, s)] else []
    case Arr(items) => ItemLeaves(template, items, at)
    case Obj(entries) => EntryLeaves(template, entries, at)
    case _ => []
  }

  function ItemLeaves(template: string -> bool, items: seq<Value>, at: seq<string>): seq<Leaf>
    decreases items, 0
  {
    if items == [] then []
    else
      var n := |items| - 1;
      ItemLeaves(template, items[..n], at) + Leaves(template, items[n], at + [Decimal(n)])
  }

  function EntryLeaves(template: string -> bool, entries: seq<Entry>, at: seq<string>): seq<Leaf>
    decreases entries, 0
  {
    if entries == [] then []
    else
      var n := |entries| - 1;
      EntryLeaves(template, entries[..n], at) + Leaves(template, entries[n].value, at + [entries[n].key])
  }

  // ---------- filling ----------

  function Find(entries: seq<Entry>, key: string): Option<nat> {
    if entries == [] then None
    else
      var n := |entries| - 1;
      if entries[n].key == key then Some(n) else Find(entries[..n], key)
  }

  lemma {:induction false} FindGives(entries: seq<Entry>, key: string)
    ensures var i := Find(entries, key); i.Some? ==> i.value < |entries| && entries[i.value].key == key
  {
    if entries != [] {
      FindGives(entries[..|entries| - 1], key);
    }
  }

  // Replace what a pointer addresses, if it addresses anything.
  function Set(v: Value, tokens: seq<string>, x: Value): Value
    decreases |tokens|
  {
    if tokens == [] then x
    else
      match v
      case Obj(entries) =>
        var i := Find(entries, tokens[0]);
        FindGives(entries, tokens[0]);
        if i.None? then v
        else Obj(entries[i.value := Entry(tokens[0], Set(entries[i.value].value, tokens[1..], x))])
      case Arr(items) =>
        var i := ParseIndex(tokens[0]);
        if i.None? || i.value >= |items| then v
        else Arr(items[i.value := Set(items[i.value], tokens[1..], x)])
      case _ => v
  }

  /** The data with every template replaced by its value, and nothing else. */
  function Filled(template: string -> bool, eval: (string, string) -> Value, v: Value, at: seq<string>): Value {
    match v
    case Str(s) => if template(s) then eval(Join(at), s) else v
    case Arr(items) =>
      Arr(seq(|items|, i requires 0 <= i < |items| => Filled(template, eval, items[i], at + [Decimal(i)])))
    case Obj(entries) =>
      Obj(seq(|entries|, i requires 0 <= i < |entries| =>
        Entry(entries[i].key, Filled(template, eval, entries[i].value, at + [entries[i].key]))))
    case _ => v
  }

  // One template of the map: replace what its path addresses.
  function FillAt(v: Value, path: string, x: Value): Value {
    var tokens := PointerTokens(path);
    if tokens.None? then v else Set(v, tokens.value, x)
  }

  /** The templates of a map filled in, one after the other. */
  function Populate(eval: (string, string) -> Value, v: Value, templates: map<string, string>,
                    order: seq<string>): Value
    requires forall i :: 0 <= i < |order| ==> order[i] in templates
  {
    if order == [] then v
    else
      var n := |order| - 1;
      var before := Populate(eval, v, templates, order[..n]);
      FillAt(before, order[n], eval(order[n], templates[order[n]]))
  }

  // ---------- the map of templates ----------

  function Record(m: map<string, string>, leaves: seq<Leaf>): map<string, string> {
    if leaves == [] then m
    else
      var last := leaves[|leaves| - 1];
      Record(m, leaves[..|leaves| - 1])[Join(last.path) := last.text]
  }

  lemma {:induction false} RecordConcat(m: map<string, string>, a: seq<Leaf>, b: seq<Leaf>)
    ensures Record(m, a + b) == Record(Record(m, a), b)
    decreases |b|
  {
    if b == [] {
      assert a + b == a;
    } else {
      var n := |b| - 1;
      assert (a + b)[..|a + b| - 1] == a + b[..n];
      RecordConcat(m, a, b[..n]);
    }
  }

  // No two leaves with the same path have different texts.
  predicate Unambiguous(leaves: seq<Leaf>) {
    forall i, j :: 0 <= i < |leaves| && 0 <= j < |leaves| && leaves[i].path == leaves[j].path ==> leaves[i] == leaves[j]
  }

  predicate PlainPaths(leaves: seq<Leaf>) {
    forall i :: 0 <= i < |leaves| ==> AllPlain(leaves[i].path)
  }

  // The map has the path of every leaf and no other path.
  lemma {:induction false} RecordKeys(leaves: seq<Leaf>, path: string)
    ensures path in Record(map[], leaves) <==> exists i :: 0 <= i < |leaves| && path == Join(leaves[i].path)
  {
    if leaves != [] {
      var n := |leaves| - 1;
      RecordKeys(leaves[..n], path);
      assert path == Join(leaves[n].path) || path !in Record(map[], leaves) || path in Record(map[], leaves[..n]);
    }
  }

  lemma {:induction false} RecordTexts(leaves: seq<Leaf>, i: nat)
    requires i < |leaves| && Unambiguous(leaves) && PlainPaths(leaves)
    ensures var m := Record(map[], leaves);
      Join(leaves[i].path) in m && m[Join(leaves[i].path)] == leaves[i].text
  {
    var n := |leaves| - 1;
    if Join(leaves[i].path) == Join(leaves[n].path) {
      JoinIsInjective(leaves[i].path, leaves[n].path);
    } else {
      RecordTexts(leaves[..n], i);
    }
  }

  // ---------- leaves lie where their paths lead ----------

  // Following the tokens leads to a template with this text.
  predicate Leads(template: string -> bool, v: Value, tokens: seq<string>, text: string)
    decreases |tokens|
  {
    if tokens == [] then v == Str(text) && template(text)
    else
      match v
      case Obj(entries) =>
        var i := Find(entries, tokens[0]);
        FindGives(entries, tokens[0]);
        i.Some? && Leads(template, entries[i.value].value, tokens[1..], text)
      case Arr(items) =>
        var i := ParseIndex(tokens[0]);
        i.Some? && i.value < |items| && Leads(template, items[i.value], tokens[1..], text)
      case _ => false
  }

  lemma {:induction false} FindUnique(entries: seq<Entry>, i: nat)
    requires Sorted(entries) && i < |entries|
    ensures Find(entries, entries[i].key) == Some(i)
  {
    var n := |entries| - 1;
    if i < n {
      BeforeIsStrict(entries[i].key, entries[n].key);
      FindUnique(entries[..n], i);
    }
  }

  lemma {:induction false} LeafOfItem(template: string -> bool, items: seq<Value>, at: seq<string>, leaf: Leaf)
    returns (i: nat)
    requires leaf in ItemLeaves(template, items, at)
    ensures i < |items| && leaf in Leaves(template, items[i], at + [Decimal(i)])
  {
    var n := |items| - 1;
    if leaf in ItemLeaves(template, items[..n], at) {
      i := LeafOfItem(template, items[..n], at, leaf);
    } else {
      i := n;
    }
  }

  lemma {:induction false} LeafOfEntry(template: string -> bool, entries: seq<Entry>, at: seq<string>, leaf: Leaf)
    returns (i: nat)
    requires leaf in EntryLeaves(template, entries, at)
    ensures i < |entries| && leaf in Leaves(template, entries[i].value, at + [entries[i].key])
  {
    var n := |entries| - 1;
    if leaf in EntryLeaves(template, entries[..n], at) {
      i := LeafOfEntry(template, entries[..n], at, leaf);
    } else {
      i := n;
    }
  }

  lemma {:induction false} LeafLeads(template: string -> bool, v: Value, at: seq<string>, leaf: Leaf)
    requires Valid(v) && leaf in Leaves(template, v, at)
    ensures at <= leaf.path && Leads(template, v, leaf.path[|at|..], leaf.text)
    decreases v
  {
    match v
    case Str(_) =>
    case Arr(items) =>
      var i := LeafOfItem(template, items, at, leaf);
      LeafLeads(template, items[i], at + [Decimal(i)], leaf);
      IndexRoundTrip(i);
      assert leaf.path[|at|..][1..] == leaf.path[|at + [Decimal(i)]|..];
    case Obj(entries) =>
      var i := LeafOfEntry(template, entries, at, leaf);
      LeafLeads(template, entries[i].value, at + [entries[i].key], leaf);
      FindUnique(entries, i);
      assert leaf.path[|at|..][1..] == leaf.path[|at + [entries[i].key]|..];
  }
}
