/** JSON texts by the grammar of RFC 8259, as derivations: what a derivation is spelled, and
    the Lua value it stands for. Of the numbers only the integers are covered. */
module LuaGrammar {
  import opened Results
  import opened Decimals
  import opened LuaText
  import opened LuaJson

  // ---------- characters ----------

  function Ascii(s: string): Bytes
    requires forall i :: 0 <= i < |s| ==> s[i] as int < 128
  {
    seq(|s|, i requires 0 <= i < |s| => s[i] as int)
  }

  /** A character of a string, section 7: as it is, as a two-character escape, or by the
      digits of one or two UTF-16 units. */
  datatype Chr =
    | Plain(c: byte)
    | Short(letter: char)
    | Escaped(digits: seq<Hex>)
    | Paired(high: seq<Hex>, low: seq<Hex>)

  predicate IsChr(x: Chr) {
    match x
    case Plain(c) => c >= 0x20 && c != 0x22 && c != 0x5c
    case Short(letter) => letter in "\"\\/bfnrt"
    case Escaped(digits) => IsUnit(digits) && !(0xd800 <= Unit(digits) <= 0xdfff)
    case Paired(high, low) =>
      && IsUnit(high) && 0xd800 <= Unit(high) <= 0xdbff && IsUnit(low) && 0xdc00 <= Unit(low) <= 0xdfff
  }

  predicate AreChrs(xs: seq<Chr>) { forall i :: 0 <= i < |xs| ==> IsChr(xs[i]) }

  function ChrText(x: Chr): Bytes
    requires IsChr(x)
  {
    match x
    case Plain(c) => [c]
    case Short(letter) => Ascii("\\") + Ascii([letter])
    case Escaped(digits) => Ascii("\\u") + UnitText(digits)
    case Paired(high, low) => Ascii("\\u") + UnitText(high) + (Ascii("\\u") + UnitText(low))
  }

  // The character a two-character escape stands for: quotation mark, reverse solidus,
  // solidus, backspace, form feed, line feed, carriage return, tab.
  function ShortMeaning(letter: char): byte
    requires letter in "\"\\/bfnrt"
  {
    match letter
    case '"' => 0x22
    case '\\' => 0x5c
    case '/' => 0x2f
    case 'b' => 0x08
    case 'f' => 0x0c
    case 'n' => 0x0a
    case 'r' => 0x0d
    case _ => 0x09
  }

  /** The bytes of a character. Code points are spelled in UTF-8. */
  function ChrMeaning(x: Chr): Bytes
    requires IsChr(x)
  {
    match x
    case Plain(c) => [c]
    case Short(letter) => [ShortMeaning(letter)]
    case Escaped(digits) => CodepointToUtf8(Unit(digits)).value
    case Paired(high, low) => CodepointToUtf8(PairCodepoint(Unit(high), Unit(low))).value
  }

  function ChrsText(xs: seq<Chr>): Bytes
    requires AreChrs(xs)
  {
    if xs == [] then [] else ChrText(xs[0]) + ChrsText(xs[1..])
  }

  function ChrsMeaning(xs: seq<Chr>): Bytes
    requires AreChrs(xs)
  {
    if xs == [] then [] else ChrMeaning(xs[0]) + ChrsMeaning(xs[1..])
  }

  function Quotation(xs: seq<Chr>): Bytes
    requires AreChrs(xs)
  {
    Ascii("\"") + (ChrsText(xs) + Ascii("\""))
  }

  // ---------- values ----------

  /** A value as it is spelled, with the insignificant whitespace. */
  datatype Syntax =
    | True
    | False
    | Null
    | Integer(negative: bool, digits: seq<Digit>)
    | Quoted(chars: seq<Chr>)
    | EmptyArray(space: Bytes)
    | Array(items: seq<Item>)
    | EmptyObject(space: Bytes)
    | Object(members: seq<Member>)

  datatype Item = Item(before: Bytes, value: Syntax, after: Bytes)

  datatype Member = Member(before: Bytes, name: seq<Chr>, mid: Bytes, item: Item)

  predicate IsWs(s: Bytes) { forall i :: 0 <= i < |s| ==> s[i] in [0x20, 0x09, 0x0a, 0x0d] }

  predicate IsSyntax(x: Syntax) {
    match x
    case Integer(_, digits) => digits != []
    case Quoted(chars) => AreChrs(chars)
    case EmptyArray(space) => IsWs(space)
    case Array(items) => items != [] && forall i :: 0 <= i < |items| ==> IsItem(items[i])
    case EmptyObject(space) => IsWs(space)
    case Object(members) => members != [] && forall i :: 0 <= i < |members| ==> IsMember(members[i])
    case _ => true
  }

  predicate IsItem(item: Item) { IsWs(item.before) && IsSyntax(item.value) && IsWs(item.after) }

  predicate IsMember(m: Member) { IsWs(m.before) && AreChrs(m.name) && IsWs(m.mid) && IsItem(m.item) }

  predicate AreItems(items: seq<Item>) { forall i :: 0 <= i < |items| ==> IsItem(items[i]) }

  predicate AreMembers(members: seq<Member>) { forall i :: 0 <= i < |members| ==> IsMember(members[i]) }

  function DigitChars(digits: seq<Digit>): Bytes {
    seq(|digits|, i requires 0 <= i < |digits| => "0123456789"[digits[i]] as int)
  }

  function Text(x: Syntax): Bytes
    requires IsSyntax(x)
    decreases x
  {
    match x
    case True => Ascii("true")
    case False => Ascii("false")
    case Null => Ascii("null")
    case Integer(negative, digits) => (if negative then Ascii("-") else []) + DigitChars(digits)
    case Quoted(chars) => Quotation(chars)
    case EmptyArray(space) => Ascii("[") + (space + Ascii("]"))
    case Array(items) => Ascii("[") + (ItemsText(items) + Ascii("]"))
    case EmptyObject(space) => Ascii("{") + (space + Ascii("}"))
    case Object(members) => Ascii("{") + (MembersText(members) + Ascii("}"))
  }

  function ItemText(item: Item): Bytes
    requires IsItem(item)
    decreases item
  {
    item.before + (Text(item.value) + item.after)
  }

  function ItemsText(items: seq<Item>): Bytes
    requires AreItems(items)
    decreases items
  {
    if items == [] then []
    else if |items| == 1 then ItemText(items[0])
    else ItemText(items[0]) + (Ascii(",") + ItemsText(items[1..]))
  }

  function MemberText(m: Member): Bytes
    requires IsMember(m)
    decreases m
  {
    m.before + (Quotation(m.name) + (m.mid + (Ascii(":") + ItemText(m.item))))
  }

  function MembersText(members: seq<Member>): Bytes
    requires AreMembers(members)
    decreases members
  {
    if members == [] then []
    else if |members| == 1 then MemberText(members[0])
    else MemberText(members[0]) + (Ascii(",") + MembersText(members[1..]))
  }

  /** The Lua value a text stands for. A name given again is set again, and a name set to
      null is not there; a table without entries is the same for `[]` and `{}`. */
  function Meaning(x: Syntax): LuaJson.Value
    requires IsSyntax(x)
    decreases x
  {
    match x
    case True => Bool(true)
    case False => Bool(false)
    case Null => Nil
    case Integer(negative, digits) =>
      var n: int := Decimals.Value(digits);
      Num(if negative then -n else n)
    case Quoted(chars) => Str(ChrsMeaning(chars))
    case EmptyArray(_) => Arr([])
    case Array(items) => Arr(ItemsMeaning(items))
    case EmptyObject(_) => Arr([])
    case Object(members) => Table(SetAll([], members))
  }

  function ItemsMeaning(items: seq<Item>): seq<LuaJson.Value>
    requires AreItems(items)
    decreases items
  {
    if items == [] then [] else [Meaning(items[0].value)] + ItemsMeaning(items[1..])
  }

  function SetAll(entries: seq<Entry>, members: seq<Member>): seq<Entry>
    requires AreMembers(members)
    decreases members
  {
    if members == [] then entries
    else
      var m := members[0];
      assert IsItem(m.item);
      SetAll(Put(entries, ChrsMeaning(m.name), Meaning(m.item.value)), members[1..])
  }

  // ---------- what an object holds ----------

  // The value of a key in a table, nil when it is not there.
  function Lookup(entries: seq<Entry>, key: Bytes): LuaJson.Value {
    if entries == [] then Nil else if entries[0].key == key then entries[0].value else Lookup(entries[1..], key)
  }

  predicate IsTable(entries: seq<Entry>) {
    DistinctKeys(entries) && forall i :: 0 <= i < |entries| ==> !entries[i].value.Nil?
  }

  lemma {:induction false} NotThere(entries: seq<Entry>, key: Bytes)
    requires forall i :: 0 <= i < |entries| ==> entries[i].key != key
    ensures Lookup(entries, key) == Nil
  {
    if entries != [] { NotThere(entries[1..], key); }
  }

  lemma TableTail(entries: seq<Entry>)
    requires entries != [] && IsTable(entries)
    ensures IsTable(entries[1..]) && forall i :: 0 <= i < |entries| - 1 ==> entries[1..][i].key != entries[0].key
  {
    assert forall i :: 0 <= i < |entries| - 1 ==> entries[1..][i] == entries[i + 1];
  }

  lemma TableCons(e: Entry, rest: seq<Entry>)
    requires IsTable(rest) && !e.value.Nil? && forall i :: 0 <= i < |rest| ==> rest[i].key != e.key
    ensures IsTable([e] + rest)
  {
    assert forall i :: 0 < i < |rest| + 1 ==> ([e] + rest)[i] == rest[i - 1];
  }

  // Setting a key adds no other.
  lemma {:induction false} PutAddsOne(entries: seq<Entry>, key: Bytes, value: LuaJson.Value, i: nat)
    requires i < |Put(entries, key, value)|
    ensures Put(entries, key, value)[i].key == key
            || exists j :: 0 <= j < |entries| && entries[j].key == Put(entries, key, value)[i].key
  {
    if entries != [] && entries[0].key != key && i > 0 {
      PutAddsOne(entries[1..], key, value, i - 1);
    } else if entries != [] && entries[0].key == key {
      var n := if value.Nil? then 0 else 1;
      if i >= n { assert Put(entries, key, value)[i] == entries[i - n + 1]; }
    }
  }

  lemma {:induction false} PutIsTable(entries: seq<Entry>, key: Bytes, value: LuaJson.Value)
    requires IsTable(entries)
    ensures IsTable(Put(entries, key, value))
  {
    if entries != [] {
      var first, rest := entries[0], entries[1..];
      TableTail(entries);
      if first.key == key {
        if value.Nil? {
          assert [] + rest == rest;
        } else {
          TableCons(Entry(key, value), rest);
        }
      } else {
        PutIsTable(rest, key, value);
        var after := Put(rest, key, value);
        forall i | 0 <= i < |after| ensures after[i].key != first.key { PutAddsOne(rest, key, value, i); }
        hide Put, IsTable;
        TableCons(first, after);
      }
    }
  }

  /** Setting a key sets it and no other. */
  lemma {:induction false} PutSets(entries: seq<Entry>, key: Bytes, value: LuaJson.Value, other: Bytes)
    requires IsTable(entries)
    ensures Lookup(Put(entries, key, value), other) == if other == key then value else Lookup(entries, other)
  {
    if entries != [] {
      var rest := entries[1..];
      TableTail(entries);
      if entries[0].key == key {
        NotThere(rest, key);
        if value.Nil? {
          assert [] + rest == rest;
        } else {
          assert Put(entries, key, value)[1..] == rest;
        }
      } else {
        PutSets(rest, key, value, other);
        assert Put(entries, key, value)[1..] == Put(rest, key, value);
      }
    }
  }

  // The value of the last member with a name, or what was there before.
  function LastNamed(members: seq<Member>, key: Bytes, before: LuaJson.Value): LuaJson.Value
    requires AreMembers(members)
  {
    if members == [] then before
    else
      var m := members[0];
      assert IsItem(m.item);
      LastNamed(members[1..], key, if ChrsMeaning(m.name) == key then Meaning(m.item.value) else before)
  }

  /** An object holds under every name the value of the last member with that name. */
  lemma {:induction false} ObjectHoldsTheLast(entries: seq<Entry>, members: seq<Member>, key: Bytes)
    requires IsTable(entries) && AreMembers(members)
    ensures IsTable(SetAll(entries, members))
    ensures Lookup(SetAll(entries, members), key) == LastNamed(members, key, Lookup(entries, key))
    decreases |members|
  {
    if members != [] {
      var m := members[0];
      assert IsItem(m.item);
      hide ChrsMeaning, Meaning, Put, IsTable, IsSyntax;
      PutSets(entries, ChrsMeaning(m.name), Meaning(m.item.value), key);
      PutIsTable(entries, ChrsMeaning(m.name), Meaning(m.item.value));
      ObjectHoldsTheLast(Put(entries, ChrsMeaning(m.name), Meaning(m.item.value)), members[1..], key);
    }
  }
}
