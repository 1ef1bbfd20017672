/** What the encoder writes is JSON for its value, so decoding gives the value back; and
    what becomes of single \u escapes and pairs of them. */
module LuaRoundTrip {
  import opened Results
  import opened Decimals
  import opened LuaText
  import opened LuaJson
  import opened LuaGrammar
  import opened LuaReading

  // ---------- what the encoder writes ----------

  function Lower(d: nat): Hex { Hex(d, false) }

  function CharSyntax(c: byte): Chr {
    if c == 0x22 then Short('"')
    else if c == 0x5c then Short('\\')
    else if c == 0x08 then Short('b')
    else if c == 0x0c then Short('f')
    else if c == 0x0a then Short('n')
    else if c == 0x0d then Short('r')
    else if c == 0x09 then Short('t')
    else if c < 0x20 then Escaped([Lower(0), Lower(0), Lower(c / 16), Lower(c % 16)])
    else Plain(c)
  }

  function StringSyntax(s: Bytes): seq<Chr> {
    if s == [] then [] else [CharSyntax(s[0])] + StringSyntax(s[1..])
  }

  /** The derivation of what is written for a value. */
  function SyntaxOf(v: LuaJson.Value): Syntax {
    match v
    case Nil => Null
    case Bool(b) => if b then True else False
    case Num(n) => Integer(n < 0, Digits(if n < 0 then -n else n))
    case Str(s) => Quoted(StringSyntax(s))
    case Arr(items) => if items == [] then EmptyArray([]) else Array(ItemsSyntax(items))
    case Obj(entries) => if entries == [] then EmptyObject([]) else Object(EntriesSyntax(entries))
  }

  function ItemsSyntax(items: seq<LuaJson.Value>): seq<Item> {
    if items == [] then [] else [Item([], SyntaxOf(items[0]), [])] + ItemsSyntax(items[1..])
  }

  function EntriesSyntax(entries: seq<Entry>): seq<Member> {
    if entries == [] then []
    else [Member([], StringSyntax(entries[0].key), [], Item([], SyntaxOf(entries[0].value), []))]
         + EntriesSyntax(entries[1..])
  }

  lemma ControlIsWritten(c: byte)
    requires CharSyntax(c).Escaped?
    ensures var x := CharSyntax(c); IsChr(x) && ChrText(x) == EncodeChar(c) && ChrMeaning(x) == [c]
  {
    assert c / 4096 == 0 && c / 256 % 16 == 0 && c / 16 % 16 == c / 16;
    assert Unit(CharSyntax(c).digits) == c;
    DigitIsLower(0);
    DigitIsLower(c / 16);
    DigitIsLower(c % 16);
    assert Ascii("\\u") == [BACKSLASH, LETTER_U];
    hide HexChar, HexDigit, Ascii;
  }

  lemma DigitIsLower(d: nat)
    requires d < 16
    ensures HexChar(Lower(d)) as int == HexDigit(d)
  {
    assert d == 0 || d == 1 || d == 2 || d == 3 || d == 4 || d == 5 || d == 6 || d == 7 || d == 8 || d == 9
           || d == 10 || d == 11 || d == 12 || d == 13 || d == 14 || d == 15;
  }

  lemma CharIsWritten(c: byte)
    ensures var x := CharSyntax(c); IsChr(x) && ChrText(x) == EncodeChar(c) && ChrMeaning(x) == [c]
  {
    if CharSyntax(c).Escaped? {
      ControlIsWritten(c);
    } else {
      hide Unit, UnitText, Hex4, CodepointToUtf8;
    }
  }

  lemma {:induction false} StringParts(s: Bytes)
    requires s != []
    ensures StringSyntax(s) == [CharSyntax(s[0])] + StringSyntax(s[1..])
    ensures EncodeChars(s) == EncodeChar(s[0]) + EncodeChars(s[1..]) && [s[0]] + s[1..] == s
  {
    hide CharSyntax, EncodeChar;
  }

  lemma ChrsCons(x: Chr, rest: seq<Chr>)
    requires IsChr(x) && AreChrs(rest)
    ensures AreChrs([x] + rest) && ([x] + rest)[0] == x && ([x] + rest)[1..] == rest
  {
    hide IsChr;
  }

  lemma QuotationText(xs: seq<Chr>)
    requires AreChrs(xs)
    ensures Quotation(xs) == [QUOTE] + ChrsText(xs) + [QUOTE]
  {
    assert Ascii("\"") == [QUOTE];
    hide ChrsText, Ascii;
  }

  lemma {:induction false} StringIsWritten(s: Bytes)
    ensures var xs := StringSyntax(s);
      AreChrs(xs) && ChrsText(xs) == EncodeChars(s) && ChrsMeaning(xs) == s && Quotation(xs) == EncodeString(s)
  {
    if s != [] {
      hide CharSyntax, IsChr, ChrText, ChrMeaning, EncodeChar;
      hide StringSyntax, ChrsText, ChrsMeaning, EncodeChars, AreChrs, Quotation;
      CharIsWritten(s[0]);
      StringIsWritten(s[1..]);
      StringParts(s);
      ChrsCons(CharSyntax(s[0]), StringSyntax(s[1..]));
      ChrsSplit([CharSyntax(s[0])] + StringSyntax(s[1..]));
    }
    QuotationText(StringSyntax(s));
  }

  lemma NumberIsWritten(n: int)
    ensures var x := SyntaxOf(Num(n)); IsSyntax(x) && Text(x) == Encode(Num(n)) && Meaning(x) == Num(n)
  {
    var m: nat := if n < 0 then -n else n;
    DigitsRoundTrip(m);
    forall d: Digit ensures "0123456789"[d] as int == DigitByte(d) { DigitChar(d); }
    assert DigitChars(Digits(m)) == DigitsText(m);
    assert Ascii("-") == [MINUS];
  }

  lemma {:induction false} PutNew(entries: seq<Entry>, e: Entry)
    requires !e.value.Nil? && forall i :: 0 <= i < |entries| ==> entries[i].key != e.key
    ensures Put(entries, e.key, e.value) == entries + [e]
  {
    if entries != [] {
      PutNew(entries[1..], e);
      assert entries + [e] == [entries[0]] + (entries[1..] + [e]);
    } else {
      assert entries + [e] == [e];
    }
  }

  lemma NewKey(res: seq<Entry>, entries: seq<Entry>)
    requires entries != [] && DistinctKeys(res + entries)
    ensures forall k :: 0 <= k < |res| ==> res[k].key != entries[0].key
  {
    forall k | 0 <= k < |res| ensures res[k].key != entries[0].key {
      assert (res + entries)[k].key != (res + entries)[|res|].key;
    }
  }

  /** What the encoder writes for a value is a JSON text that stands for it. */
  lemma {:induction false} EncodeWritesJson(v: LuaJson.Value)
    requires Encodable(v) || v.Nil?
    ensures var x := SyntaxOf(v); IsSyntax(x) && Text(x) == Encode(v) && Meaning(x) == v
    decreases v, 0
  {
    match v
    case Nil => assert Ascii("null") == NULL;
    case Bool(_) => assert Ascii("true") == TRUE && Ascii("false") == FALSE;
    case Num(n) => NumberIsWritten(n);
    case Str(s) => StringIsWritten(s);
    case Arr(items) => ArrayIsWritten(items);
    case Obj(entries) => ObjectIsWritten(entries);
  }

  lemma {:induction false} ArrayIsWritten(items: seq<LuaJson.Value>)
    requires forall i :: 0 <= i < |items| ==> Encodable(items[i])
    ensures var x := SyntaxOf(Arr(items));
      IsSyntax(x) && Text(x) == Encode(Arr(items)) && Meaning(x) == Arr(items)
    decreases items, 1
  {
    assert Ascii("[") == [LBRACKET] && Ascii("]") == [RBRACKET];
    ItemsAreWritten(items);
    hide ItemsSyntax, ItemsText, ItemsMeaning, EncodeItems, Encodable, IsItem, Ascii;
    Bracketed(LBRACKET, EncodeItems(items), RBRACKET);
  }

  lemma {:induction false} ItemIsWritten(v: LuaJson.Value)
    requires Encodable(v)
    ensures var x := Item([], SyntaxOf(v), []);
      IsItem(x) && ItemText(x) == Encode(v) && Meaning(x.value) == v
    decreases v, 1
  {
    EncodeWritesJson(v);
    hide SyntaxOf, Text, Meaning, Encode, IsSyntax;
    assert [] + (Encode(v) + []) == Encode(v);
  }

  lemma {:induction false} ItemsAreWritten(items: seq<LuaJson.Value>)
    requires forall i :: 0 <= i < |items| ==> Encodable(items[i])
    ensures var xs := ItemsSyntax(items);
      && AreItems(xs) && |xs| == |items| && ItemsText(xs) == EncodeItems(items) && ItemsMeaning(xs) == items
    decreases items, 0
  {
    if items != [] {
      var x, rest := Item([], SyntaxOf(items[0]), []), ItemsSyntax(items[1..]);
      var xs := ItemsSyntax(items);
      ItemIsWritten(items[0]);
      ItemsAreWritten(items[1..]);
      hide SyntaxOf, Text, ItemText, Meaning, Encode, IsSyntax, IsItem, Encodable;
      assert xs[0] == x && xs[1..] == rest && Ascii(",") == [COMMA];
      assert [items[0]] + items[1..] == items;
    }
  }

  lemma {:induction false} ObjectIsWritten(entries: seq<Entry>)
    requires forall i :: 0 <= i < |entries| ==> Encodable(entries[i].value)
    requires entries != [] && DistinctKeys(entries)
    ensures var x := SyntaxOf(Obj(entries));
      IsSyntax(x) && Text(x) == Encode(Obj(entries)) && Meaning(x) == Obj(entries)
    decreases entries, 1
  {
    hide EntriesSyntax, MembersText, SetAll, EncodeEntries, Encodable, IsMember, Ascii, DistinctKeys, AreMembers;
    assert [] + entries == entries;
    EntriesAreWritten(entries, []);
    IsObject(EntriesSyntax(entries));
    ObjectText(EntriesSyntax(entries));
    Bracketed(LBRACE, EncodeEntries(entries), RBRACE);
    hide Text, Meaning, IsSyntax;
  }

  lemma IsObject(members: seq<Member>)
    requires AreMembers(members) && members != []
    ensures IsSyntax(Object(members))
  {
  }

  lemma Bracketed(open: byte, text: Bytes, close: byte)
    ensures [open] + (text + [close]) == [open] + text + [close]
  {
  }

  function MemberOf(e: Entry): Member { Member([], StringSyntax(e.key), [], Item([], SyntaxOf(e.value), [])) }

  lemma {:induction false} EntryIsWritten(e: Entry)
    requires Encodable(e.value)
    ensures var m := MemberOf(e);
      && IsMember(m) && IsItem(m.item) && IsSyntax(m.item.value) && AreChrs(m.name)
      && MemberText(m) == EncodeEntry(e) && ChrsMeaning(m.name) == e.key && Meaning(m.item.value) == e.value
    decreases e, 0
  {
    StringIsWritten(e.key);
    ItemIsWritten(e.value);
    hide SyntaxOf, StringSyntax, ItemText, Meaning, ChrsMeaning, Encode, EncodeString, Quotation, IsSyntax;
    assert Ascii(":") == [COLON];
    var key, value := EncodeString(e.key), Encode(e.value);
    assert [] + (key + ([] + ([COLON] + value))) == key + [COLON] + value;
  }

  lemma {:induction false} EntriesParts(entries: seq<Entry>)
    requires entries != []
    ensures EntriesSyntax(entries) == [MemberOf(entries[0])] + EntriesSyntax(entries[1..])
    ensures |entries| == 1 ==> EncodeEntries(entries) == EncodeEntry(entries[0]) && EntriesSyntax(entries[1..]) == []
    ensures |entries| > 1 ==>
      EncodeEntries(entries) == EncodeEntry(entries[0]) + ([COMMA] + EncodeEntries(entries[1..]))
  {
    hide SyntaxOf, StringSyntax, EncodeEntry;
  }

  lemma MembersCons(m: Member, rest: seq<Member>)
    requires IsMember(m) && AreMembers(rest)
    ensures AreMembers([m] + rest) && ([m] + rest)[0] == m && ([m] + rest)[1..] == rest
  {
    hide IsMember;
  }

  lemma {:induction false} NoEntries(res: seq<Entry>)
    ensures var ms := EntriesSyntax([]);
      AreMembers(ms) && |ms| == 0 && MembersText(ms) == EncodeEntries([]) && SetAll(res, ms) == res
  {
  }

  lemma {:induction false} EntriesAreWritten(entries: seq<Entry>, res: seq<Entry>)
    requires forall i :: 0 <= i < |entries| ==> Encodable(entries[i].value)
    requires DistinctKeys(res + entries)
    ensures var ms := EntriesSyntax(entries);
      && AreMembers(ms) && |ms| == |entries| && MembersText(ms) == EncodeEntries(entries)
      && SetAll(res, ms) == res + entries
    decreases entries, 0
  {
    hide *;
    if entries == [] {
      NoEntries(res);
      assert res + [] == res;
    } else {
      var e, rest := entries[0], EntriesSyntax(entries[1..]);
      EntryIsWritten(e);
      NotNil(e.value);
      NewKey(res, entries);
      PutNew(res, e);
      assert res + [e] + entries[1..] == res + entries;
      EntriesAreWritten(entries[1..], res + [e]);
      EntriesParts(entries);
      MembersCons(MemberOf(e), rest);
      MembersSplit(res, [MemberOf(e)] + rest);
    }
  }

  lemma NotNil(v: LuaJson.Value)
    requires Encodable(v)
    ensures !v.Nil?
  {
  }

  // ---------- the round trip ----------

  /** At any place in any input that holds the encoding of a value, the decoder reads
      the value and stops right behind it. */
  lemma ValueRoundTrip(str: Bytes, i: nat, v: LuaJson.Value)
    requires Encodable(v) && Holds(str, i, Encode(v)) && EndsAt(str, i + |Encode(v)|)
    ensures LuaJson.Parse(str, i) == Done(v, i + |Encode(v)|)
  {
    hide *;
    EncodeWritesJson(v);
    TextIsRead(str, i, SyntaxOf(v));
  }

  lemma StringRoundTrip(str: Bytes, i: nat, s: Bytes)
    requires Holds(str, i, EncodeString(s))
    ensures i < |str| && str[i] == QUOTE
    ensures StringFrom(str, i + 1, []) == Done(s, i + |EncodeString(s)|)
  {
    hide *;
    StringIsWritten(s);
    QuotationIsRead(str, i, StringSyntax(s));
  }

  /** Decoding undoes encoding, for every tree of values and every order of its keys. */
  lemma DecodeUndoesEncode(v: LuaJson.Value)
    requires Encodable(v) || v.Nil?
    ensures Decode(Encode(v)) == Some(v)
  {
    EncodeWritesJson(v);
    DecodeReadsJson([], SyntaxOf(v), []);
    hide *;
    assert [] + (Encode(v) + []) == Encode(v);
  }

  // ---------- \u escapes inside a string ----------

  /** Wherever it stands in a string, an escape that is no surrogate is read as UTF-8 for
      its code point, and reading goes on behind it. */
  lemma EscapeInString(str: Bytes, j: nat, digits: seq<Hex>, res: Bytes)
    requires IsUnit(digits) && !IsSurrogate(Unit(digits)) && Holds(str, j, Ascii("\\u") + UnitText(digits))
    ensures exists bytes ::
      (Utf8Decode(bytes) == Some(Unit(digits)) && StringFrom(str, j, res) == StringFrom(str, j + 6, res + bytes))
  {
    hide StringFrom, UnitText, Utf8Decode, CodepointToUtf8;
    SingleEscape(digits);
    EscapeIsRead(str, j, digits, res);
    assert Utf8Decode(ChrMeaning(Escaped(digits))) == Some(Unit(digits));
  }

  /** A proper surrogate pair is read as UTF-8 for the code point of the pair. */
  lemma PairInString(str: Bytes, j: nat, high: seq<Hex>, low: seq<Hex>, res: Bytes)
    requires IsUnit(high) && IsHigh(Unit(high)) && IsUnit(low) && IsLow(Unit(low))
    requires Holds(str, j, Ascii("\\u") + UnitText(high) + (Ascii("\\u") + UnitText(low)))
    ensures exists bytes ::
      (&& Utf8Decode(bytes) == Some(PairCodepoint(Unit(high), Unit(low)))
       && StringFrom(str, j, res) == StringFrom(str, j + 12, res + bytes))
  {
    hide StringFrom, UnitText, Unit, Utf8Decode, CodepointToUtf8;
    PairedEscape(high, low);
    PairIsRead(str, j, high, low, res);
    assert Utf8Decode(ChrMeaning(Paired(high, low))) == Some(PairCodepoint(Unit(high), Unit(low)));
  }

  /** An improper pair is read, if at all, as something that is not the character of its
      second escape, and reading goes on behind that escape. */
  lemma ImproperPairInString(str: Bytes, j: nat, high: seq<Hex>, low: seq<Hex>, res: Bytes)
    requires IsUnit(high) && IsHigh(Unit(high)) && IsUnit(low) && !IsLow(Unit(low))
    requires Holds(str, j, Ascii("\\u") + UnitText(high) + (Ascii("\\u") + UnitText(low)))
    ensures StringFrom(str, j, res).Fail? || exists bytes ::
      (&& Utf8Decode(bytes) != Some(Unit(low))
       && StringFrom(str, j, res) == StringFrom(str, j + 12, res + bytes))
  {
    hide UnitText, Unit, Utf8Decode, CodepointToUtf8;
    var hex := PairText(high, low);
    ImproperPairLosesCharacter(high, low);
    assert Ascii("\\u") == [BACKSLASH, LETTER_U];
    assert Ascii("\\u") + UnitText(high) + (Ascii("\\u") + UnitText(low)) == [BACKSLASH, LETTER_U] + hex;
    DigitsInText(str, j, hex);
    if ParseUnicodeEscape(hex).Some? {
      StringStep(str, j, ParseUnicodeEscape(hex).value, j + 12, res);
    }
  }
}
