/** Filling replaces exactly the templates, exactly when their paths are plain. */
module TemplateFilling {
  import opened Results
  import opened JsonValue
  import opened JsonPointer
  import opened Templates

  // ---------- some of the templates filled ----------

  function Partly(template: string -> bool, eval: (string, string) -> Value, done: set<seq<string>>,
                  v: Value, at: seq<string>): Value {
    match v
    case Str(s) => if template(s) && at in done then eval(Join(at), s) else v
    case Arr(items) =>
      Arr(seq(|items|, i requires 0 <= i < |items| => Partly(template, eval, done, items[i], at + [Decimal(i)])))
    case Obj(entries) =>
      Obj(seq(|entries|, i requires 0 <= i < |entries| =>
        Entry(entries[i].key, Partly(template, eval, done, entries[i].value, at + [entries[i].key]))))
    case _ => v
  }

  lemma {:induction false} NothingFilled(template: string -> bool, eval: (string, string) -> Value, v: Value,
                                         at: seq<string>)
    ensures Partly(template, eval, {}, v, at) == v
    decreases v
  {
    match v
    case Arr(items) =>
      forall i | 0 <= i < |items| { NothingFilled(template, eval, items[i], at + [Decimal(i)]); }
    case Obj(entries) =>
      forall i | 0 <= i < |entries| { NothingFilled(template, eval, entries[i].value, at + [entries[i].key]); }
    case _ =>
  }

  lemma {:induction false} ItemLeavesHave(template: string -> bool, items: seq<Value>, at: seq<string>, i: nat)
    requires i < |items|
    ensures forall leaf :: leaf in Leaves(template, items[i], at + [Decimal(i)])
                           ==> leaf in ItemLeaves(template, items, at)
  {
    var n := |items| - 1;
    if i < n {
      ItemLeavesHave(template, items[..n], at, i);
    }
  }

  lemma {:induction false} EntryLeavesHave(template: string -> bool, entries: seq<Entry>, at: seq<string>, i: nat)
    requires i < |entries|
    ensures forall leaf :: leaf in Leaves(template, entries[i].value, at + [entries[i].key])
                           ==> leaf in EntryLeaves(template, entries, at)
  {
    var n := |entries| - 1;
    if i < n {
      EntryLeavesHave(template, entries[..n], at, i);
    }
  }

  lemma {:induction false} AllFilled(template: string -> bool, eval: (string, string) -> Value, done: set<seq<string>>,
                                     v: Value, at: seq<string>)
    requires forall leaf :: leaf in Leaves(template, v, at) ==> leaf.path in done
    ensures Partly(template, eval, done, v, at) == Filled(template, eval, v, at)
    decreases v
  {
    match v
    case Str(s) =>
      if template(s) { assert Leaf(at, s) in Leaves(template, v, at); }
    case Arr(items) =>
      forall i | 0 <= i < |items|
        ensures Partly(template, eval, done, items[i], at + [Decimal(i)])
             == Filled(template, eval, items[i], at + [Decimal(i)])
      {
        ItemLeavesHave(template, items, at, i);
        AllFilled(template, eval, done, items[i], at + [Decimal(i)]);
      }
    case Obj(entries) =>
      forall i | 0 <= i < |entries|
        ensures Partly(template, eval, done, entries[i].value, at + [entries[i].key])
             == Filled(template, eval, entries[i].value, at + [entries[i].key])
      {
        EntryLeavesHave(template, entries, at, i);
        AllFilled(template, eval, done, entries[i].value, at + [entries[i].key]);
      }
    case _ =>
  }

  // A path that does not run through a value leaves it alone.
  lemma {:induction false} ElsewhereUnchanged(template: string -> bool, eval: (string, string) -> Value,
                                              done: set<seq<string>>, v: Value, at: seq<string>, path: seq<string>)
    requires !(at <= path)
    ensures Partly(template, eval, done + {path}, v, at) == Partly(template, eval, done, v, at)
    decreases v
  {
    match v
    case Arr(items) =>
      forall i | 0 <= i < |items| {
        ElsewhereUnchanged(template, eval, done, items[i], at + [Decimal(i)], path);
      }
    case Obj(entries) =>
      forall i | 0 <= i < |entries| {
        ElsewhereUnchanged(template, eval, done, entries[i].value, at + [entries[i].key], path);
      }
    case _ =>
  }

  lemma {:induction false} FindSameKeys(a: seq<Entry>, b: seq<Entry>, key: string)
    requires |a| == |b| && forall i :: 0 <= i < |a| ==> a[i].key == b[i].key
    ensures Find(a, key) == Find(b, key)
  {
    if a != [] {
      FindSameKeys(a[..|a| - 1], b[..|b| - 1], key);
    }
  }

  // Writing the value of one more template, in an array and in an object.
  lemma {:induction false} FillItem(template: string -> bool, eval: (string, string) -> Value, done: set<seq<string>>,
                                    items: seq<Value>, at: seq<string>, tokens: seq<string>, text: string)
    requires Valid(Arr(items)) && tokens != [] && Leads(template, Arr(items), tokens, text)
    ensures Set(Partly(template, eval, done, Arr(items), at), tokens, eval(Join(at + tokens), text))
         == Partly(template, eval, done + {at + tokens}, Arr(items), at)
    decreases |tokens|, 0
  {
    hide Join, Decimal, ParseIndex;
    var path, x := at + tokens, eval(Join(at + tokens), text);
    var i := ParseIndex(tokens[0]).value;
    IndexIsCanonical(tokens[0]);
    assert at + tokens == at + [Decimal(i)] + tokens[1..];
    FillOne(template, eval, done, items[i], at + [Decimal(i)], tokens[1..], text);
    forall j | 0 <= j < |items| && j != i
      ensures Partly(template, eval, done + {path}, items[j], at + [Decimal(j)])
           == Partly(template, eval, done, items[j], at + [Decimal(j)])
    {
      IndexRoundTrip(i);
      IndexRoundTrip(j);
      assert path[|at|] != (at + [Decimal(j)])[|at|];
      ElsewhereUnchanged(template, eval, done, items[j], at + [Decimal(j)], path);
    }
  }

  lemma {:induction false} FillEntry(template: string -> bool, eval: (string, string) -> Value, done: set<seq<string>>,
                                     entries: seq<Entry>, at: seq<string>, tokens: seq<string>, text: string)
    requires Valid(Obj(entries)) && tokens != [] && Leads(template, Obj(entries), tokens, text)
    ensures Set(Partly(template, eval, done, Obj(entries), at), tokens, eval(Join(at + tokens), text))
         == Partly(template, eval, done + {at + tokens}, Obj(entries), at)
    decreases |tokens|, 0
  {
    hide Join, Before, Find;
    var path, x := at + tokens, eval(Join(at + tokens), text);
    FindGives(entries, tokens[0]);
    var i := Find(entries, tokens[0]).value;
    FindSameKeys(entries, Partly(template, eval, done, Obj(entries), at).entries, tokens[0]);
    assert at + tokens == at + [entries[i].key] + tokens[1..];
    FillOne(template, eval, done, entries[i].value, at + [entries[i].key], tokens[1..], text);
    forall j | 0 <= j < |entries| && j != i
      ensures Partly(template, eval, done + {path}, entries[j].value, at + [entries[j].key])
           == Partly(template, eval, done, entries[j].value, at + [entries[j].key])
    {
      FindUnique(entries, j);
      assert path[|at|] != (at + [entries[j].key])[|at|];
      ElsewhereUnchanged(template, eval, done, entries[j].value, at + [entries[j].key], path);
    }
  }

  lemma {:induction false} FillOne(template: string -> bool, eval: (string, string) -> Value, done: set<seq<string>>,
                                   v: Value, at: seq<string>, tokens: seq<string>, text: string)
    requires Valid(v) && Leads(template, v, tokens, text)
    ensures Set(Partly(template, eval, done, v, at), tokens, eval(Join(at + tokens), text))
         == Partly(template, eval, done + {at + tokens}, v, at)
    decreases |tokens|, 1
  {
    if tokens == [] {
      assert at + tokens == at;
    } else if v.Arr? {
      FillItem(template, eval, done, v.items, at, tokens, text);
    } else {
      FillEntry(template, eval, done, v.entries, at, tokens, text);
    }
  }

  // ---------- plain paths are filled ----------

  lemma {:induction false} LeadsToOneText(template: string -> bool, v: Value, tokens: seq<string>, a: string, b: string)
    requires Leads(template, v, tokens, a) && Leads(template, v, tokens, b)
    ensures a == b
    decreases |tokens|
  {
    if tokens != [] {
      if v.Obj? {
        FindGives(v.entries, tokens[0]);
        LeadsToOneText(template, v.entries[Find(v.entries, tokens[0]).value].value, tokens[1..], a, b);
      } else {
        LeadsToOneText(template, v.items[ParseIndex(tokens[0]).value], tokens[1..], a, b);
      }
    }
  }

  lemma LeavesAreUnambiguous(template: string -> bool, v: Value)
    requires Valid(v)
    ensures Unambiguous(Leaves(template, v, []))
  {
    var leaves := Leaves(template, v, []);
    forall i, j | 0 <= i < |leaves| && 0 <= j < |leaves| && leaves[i].path == leaves[j].path
      ensures leaves[i] == leaves[j]
    {
      LeafLeads(template, v, [], leaves[i]);
      LeafLeads(template, v, [], leaves[j]);
      LeadsToOneText(template, v, leaves[i].path[0..], leaves[i].text, leaves[j].text);
    }
  }

  function Reached(leaves: seq<Leaf>, order: seq<string>): set<seq<string>> {
    set leaf | leaf in leaves && Join(leaf.path) in order :: leaf.path
  }

  lemma ReachedSnoc(leaves: seq<Leaf>, order: seq<string>, leaf: Leaf)
    requires PlainPaths(leaves) && leaf in leaves
    ensures Reached(leaves, order + [Join(leaf.path)]) == Reached(leaves, order) + {leaf.path}
  {
    forall other | other in leaves && Join(other.path) == Join(leaf.path) ensures other.path == leaf.path {
      JoinIsInjective(other.path, leaf.path);
    }
  }

  lemma FillLeaf(template: string -> bool, eval: (string, string) -> Value, done: set<seq<string>>, v: Value,
                 leaf: Leaf)
    requires Valid(v) && leaf in Leaves(template, v, []) && AllPlain(leaf.path)
    ensures FillAt(Partly(template, eval, done, v, []), Join(leaf.path), eval(Join(leaf.path), leaf.text))
         == Partly(template, eval, done + {leaf.path}, v, [])
  {
    hide Join, Leads, Set, Leaves, Partly;
    LeafLeads(template, v, [], leaf);
    PointerAddressesItsPath(leaf.path);
    assert leaf.path[0..] == leaf.path == [] + leaf.path;
    FillOne(template, eval, done, v, [], leaf.path, leaf.text);
  }

  lemma {:induction false} PopulatePartly(template: string -> bool, eval: (string, string) -> Value, v: Value,
                                          leaves: seq<Leaf>, order: seq<string>)
    requires Valid(v) && leaves == Leaves(template, v, []) && PlainPaths(leaves) && Unambiguous(leaves)
    requires forall i :: 0 <= i < |order| ==> order[i] in Record(map[], leaves)
    ensures Populate(eval, v, Record(map[], leaves), order) == Partly(template, eval, Reached(leaves, order), v, [])
    decreases |order|
  {
    if order == [] {
      assert Reached(leaves, order) == {};
      NothingFilled(template, eval, v, []);
    } else {
      hide Join, FillAt, Leaves, Partly, AllPlain, Reached;
      var n := |order| - 1;
      PopulatePartly(template, eval, v, leaves, order[..n]);
      RecordKeys(leaves, order[n]);
      var i :| 0 <= i < |leaves| && order[n] == Join(leaves[i].path);
      RecordTexts(leaves, i);
      FillLeaf(template, eval, Reached(leaves, order[..n]), v, leaves[i]);
      ReachedSnoc(leaves, order[..n], leaves[i]);
      assert order == order[..n] + [order[n]];
    }
  }

  /** The order visits paths of the map only, and every path of it. */
  predicate Covers(templates: map<string, string>, order: seq<string>) {
    (forall i :: 0 <= i < |order| ==> order[i] in templates) && (forall path :: path in templates ==> path in order)
  }

  lemma PlainPathsAreFilled(template: string -> bool, eval: (string, string) -> Value, v: Value, order: seq<string>)
    requires Valid(v) && PlainPaths(Leaves(template, v, []))
    requires Covers(Record(map[], Leaves(template, v, [])), order)
    ensures Populate(eval, v, Record(map[], Leaves(template, v, [])), order) == Filled(template, eval, v, [])
  {
    var leaves := Leaves(template, v, []);
    LeavesAreUnambiguous(template, v);
    PopulatePartly(template, eval, v, leaves, order);
    forall leaf | leaf in leaves ensures leaf.path in Reached(leaves, order) {
      RecordKeys(leaves, Join(leaf.path));
    }
    AllFilled(template, eval, Reached(leaves, order), v, []);
  }

  // ---------- other paths are missed ----------

  function NoValue(path: string, text: string): Value { Null }

  // On the way to the template something was overwritten, or the template is still there.
  predicate Missed(v: Value, tokens: seq<string>, text: string)
    decreases |tokens|
  {
    if tokens == [] then v == Str(text)
    else
      match v
      case Null => true
      case Obj(entries) =>
        var i := Find(entries, tokens[0]);
        FindGives(entries, tokens[0]);
        i.Some? && Missed(entries[i.value].value, tokens[1..], text)
      case Arr(items) =>
        var i := ParseIndex(tokens[0]);
        i.Some? && i.value < |items| && Missed(items[i.value], tokens[1..], text)
      case _ => false
  }

  lemma {:induction false} LeadsIsMissed(template: string -> bool, v: Value, tokens: seq<string>, text: string)
    requires Leads(template, v, tokens, text)
    ensures Missed(v, tokens, text)
    decreases |tokens|
  {
    if tokens != [] {
      FindGives(if v.Obj? then v.entries else [], tokens[0]);
      LeadsIsMissed(template, if v.Obj? then v.entries[Find(v.entries, tokens[0]).value].value
                              else v.items[ParseIndex(tokens[0]).value], tokens[1..], text);
    }
  }

  lemma {:induction false} FilledIsNotMissed(template: string -> bool, v: Value, at: seq<string>,
                                             tokens: seq<string>, text: string)
    requires Leads(template, v, tokens, text)
    ensures !Missed(Filled(template, NoValue, v, at), tokens, text)
    decreases |tokens|
  {
    if tokens != [] {
      if v.Obj? {
        FindGives(v.entries, tokens[0]);
        var i := Find(v.entries, tokens[0]).value;
        FindSameKeys(v.entries, Filled(template, NoValue, v, at).entries, tokens[0]);
        FilledIsNotMissed(template, v.entries[i].value, at + [v.entries[i].key], tokens[1..], text);
      } else {
        var i := ParseIndex(tokens[0]).value;
        FilledIsNotMissed(template, v.items[i], at + [Decimal(i)], tokens[1..], text);
      }
    }
  }

  lemma {:induction false} StillMissed(v: Value, tokens: seq<string>, text: string, other: seq<string>)
    requires Missed(v, tokens, text) && other != tokens
    ensures Missed(Set(v, other, Null), tokens, text)
    decreases |tokens|
  {
    if tokens != [] && other != [] {
      assert tokens == [tokens[0]] + tokens[1..] && other == [other[0]] + other[1..];
      if v.Obj? {
        FindGives(v.entries, tokens[0]);
        FindGives(v.entries, other[0]);
        FindSameKeys(v.entries, Set(v, other, Null).entries, tokens[0]);
        if other[0] == tokens[0] {
          StillMissed(v.entries[Find(v.entries, tokens[0]).value].value, tokens[1..], text, other[1..]);
        }
      } else if v.Arr? && ParseIndex(other[0]) == ParseIndex(tokens[0]) {
        IndexIsCanonical(other[0]);
        IndexIsCanonical(tokens[0]);
        StillMissed(v.items[ParseIndex(tokens[0]).value], tokens[1..], text, other[1..]);
      }
    }
  }

  lemma {:induction false} HeaviestPath(leaves: seq<Leaf>) returns (k: nat)
    requires !PlainPaths(leaves)
    ensures k < |leaves| && !AllPlain(leaves[k].path)
    ensures forall i :: 0 <= i < |leaves| && !AllPlain(leaves[i].path)
                        ==> Weight(leaves[i].path) <= Weight(leaves[k].path)
  {
    hide Weight, AllPlain;
    var n := |leaves| - 1;
    if PlainPaths(leaves[..n]) {
      k := n;
    } else {
      k := HeaviestPath(leaves[..n]);
      if !AllPlain(leaves[n].path) && Weight(leaves[n].path) > Weight(leaves[k].path) {
        k := n;
      }
    }
  }

  // No pointer of the map addresses the heaviest path.
  lemma NoPointerReads(leaves: seq<Leaf>, k: nat, i: nat)
    requires k < |leaves| && i < |leaves| && !AllPlain(leaves[k].path)
    requires !AllPlain(leaves[i].path) ==> Weight(leaves[i].path) <= Weight(leaves[k].path)
    ensures PointerTokens(Join(leaves[i].path)) != Some(leaves[k].path)
  {
    PointerAddressesItsPath(leaves[i].path);
    if !AllPlain(leaves[i].path) {
      OtherPointersAreLighter(leaves[i].path);
    }
  }

  lemma {:induction false} PopulateMisses(v: Value, leaves: seq<Leaf>, order: seq<string>, leaf: Leaf)
    requires forall i :: 0 <= i < |order| ==> order[i] in Record(map[], leaves)
    requires forall i :: 0 <= i < |leaves| ==> PointerTokens(Join(leaves[i].path)) != Some(leaf.path)
    requires Missed(v, leaf.path, leaf.text)
    ensures Missed(Populate(NoValue, v, Record(map[], leaves), order), leaf.path, leaf.text)
    decreases |order|
  {
    if order != [] {
      var n := |order| - 1;
      PopulateMisses(v, leaves, order[..n], leaf);
      RecordKeys(leaves, order[n]);
      var before := Populate(NoValue, v, Record(map[], leaves), order[..n]);
      var tokens := PointerTokens(order[n]);
      if tokens.Some? {
        StillMissed(before, leaf.path, leaf.text, tokens.value);
      }
    }
  }

  lemma EscapedPathsAreMissed(template: string -> bool, v: Value, order: seq<string>)
    requires Valid(v) && !PlainPaths(Leaves(template, v, []))
    requires Covers(Record(map[], Leaves(template, v, [])), order)
    ensures Populate(NoValue, v, Record(map[], Leaves(template, v, [])), order) != Filled(template, NoValue, v, [])
  {
    var leaves := Leaves(template, v, []);
    var k := HeaviestPath(leaves);
    var leaf := leaves[k];
    forall i | 0 <= i < |leaves| ensures PointerTokens(Join(leaves[i].path)) != Some(leaf.path) {
      NoPointerReads(leaves, k, i);
    }
    LeafLeads(template, v, [], leaf);
    assert leaf.path[0..] == leaf.path;
    LeadsIsMissed(template, v, leaf.path, leaf.text);
    PopulateMisses(v, leaves, order, leaf);
    FilledIsNotMissed(template, v, [], leaf.path, leaf.text);
  }

  /** In whatever order the map is visited, filling replaces every template by its
      value and nothing else, whatever the values are, exactly when no key on the
      way to a template contains a slash, a tilde before a zero or a tilde before a one. */
  lemma FillingIsExact(template: string -> bool, v: Value, order: seq<string>)
    requires Valid(v) && Covers(Record(map[], Leaves(template, v, [])), order)
    ensures var leaves := Leaves(template, v, []);
      (forall eval :: Populate(eval, v, Record(map[], leaves), order) == Filled(template, eval, v, []))
      <==> PlainPaths(leaves)
  {
    var leaves := Leaves(template, v, []);
    if PlainPaths(leaves) {
      forall eval ensures Populate(eval, v, Record(map[], leaves), order) == Filled(template, eval, v, []) {
        PlainPathsAreFilled(template, eval, v, order);
      }
    } else {
      EscapedPathsAreMissed(template, v, order);
    }
  }
}
