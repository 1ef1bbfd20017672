/** The decoder reads every JSON text: wherever a text of the grammar stands, it gives the
    value the text stands for and stops right behind it. */
module LuaReading {
  import opened Results
  import opened LuaText
  import opened LuaJson
  import opened LuaGrammar

  // The text stands in the input from position i on.
  predicate Holds(str: Bytes, i: nat, text: Bytes) {
    i + |text| <= |str| && str[i..i + |text|] == text
  }

  // A number or a literal can end here.
  predicate EndsAt(str: Bytes, j: nat) { j == |str| || (j < |str| && IsDelim(str[j])) }

  lemma HoldsSplit(str: Bytes, i: nat, a: Bytes, b: Bytes)
    requires Holds(str, i, a + b)
    ensures Holds(str, i, a) && Holds(str, i + |a|, b)
  {
    assert str[i..i + |a|] == (a + b)[..|a|];
    assert str[i + |a|..i + |a| + |b|] == (a + b)[|a|..];
  }

  lemma HoldsIs(str: Bytes, i: nat, text: Bytes)
    requires Holds(str, i, text)
    ensures i + |text| <= |str| && str[i..i + |text|] == text
  {
  }

  lemma HoldsFirst(str: Bytes, i: nat, text: Bytes)
    requires Holds(str, i, text) && text != []
    ensures i < |str| && str[i] == text[0]
  {
    assert str[i..i + |text|][0] == text[0];
  }

  lemma {:induction false} FindDelimAt(str: Bytes, i: nat, text: Bytes)
    requires Holds(str, i, text) && EndsAt(str, i + |text|)
    requires forall c :: c in text ==> !IsDelim(c)
    ensures FindDelim(str, i) == i + |text|
    decreases |text|
  {
    if text != [] {
      HoldsFirst(str, i, text);
      assert text == [text[0]] + text[1..];
      HoldsSplit(str, i, [text[0]], text[1..]);
      FindDelimAt(str, i + 1, text[1..]);
    }
  }

  // A text followed by a delimiter: a number or a literal can end behind it.
  lemma BeforeDelim(str: Bytes, i: nat, text: Bytes, tail: Bytes)
    requires Holds(str, i, text + tail) && tail != [] && IsDelim(tail[0])
    ensures Holds(str, i, text) && Holds(str, i + |text|, tail)
    ensures i + |text| < |str| && str[i + |text|] == tail[0] && EndsAt(str, i + |text|)
  {
    HoldsSplit(str, i, text, tail);
    HoldsFirst(str, i + |text|, tail);
  }


  // Whitespace is skipped up to the next token.
  lemma {:induction false} SkipWs(str: Bytes, i: nat, ws: Bytes)
    requires IsWs(ws) && Holds(str, i, ws)
    requires i + |ws| == |str| || !IsSpace(str[i + |ws|])
    ensures SkipSpace(str, i) == i + |ws|
    decreases |ws|
  {
    if ws != [] {
      HoldsFirst(str, i, ws);
      assert ws == [ws[0]] + ws[1..];
      HoldsSplit(str, i, [ws[0]], ws[1..]);
      SkipWs(str, i + 1, ws[1..]);
    }
  }

  // ---------- strings ----------

  // The digits found behind an escape are the ones written there.
  lemma DigitsInText(str: Bytes, j: nat, hex: Bytes)
    requires (IsHex4(hex) && !IsSurrogate(Hex4Value(hex))) || IsPairText(hex)
    requires Holds(str, j, [BACKSLASH, LETTER_U] + hex)
    ensures str[j] == BACKSLASH && str[j + 1] == LETTER_U && HexAt(str, j + 2) == Some(hex)
  {
    HoldsSplit(str, j, [BACKSLASH, LETTER_U], hex);
    assert str[j..j + 2][0] == str[j] && str[j..j + 2][1] == str[j + 1];
    if |hex| == 4 {
      HighDigitsValue(hex);
      if j + 12 <= |str| {
        assert str[j + 2..j + 12][..4] == str[j + 2..j + 6] == hex;
      }
    }
  }

  /** Every character of a string is read as what it stands for: the eight two-character
      escapes, the escapes of code points, pairs of them, and all others. */
  lemma ChrIsRead(str: Bytes, j: nat, x: Chr, res: Bytes)
    requires IsChr(x) && Holds(str, j, ChrText(x))
    ensures StringFrom(str, j, res) == StringFrom(str, j + |ChrText(x)|, res + ChrMeaning(x))
  {
    hide Unescape, Holds, HexChar, Unit, ShortMeaning, CodepointToUtf8;
    HoldsFirst(str, j, ChrText(x));
    match x
    case Plain(_) =>
    case Short(letter) => ShortIsRead(str, j, letter, res);
    case Escaped(digits) => EscapeIsRead(str, j, digits, res);
    case Paired(high, low) => PairIsRead(str, j, high, low, res);
  }

  lemma ShortIsRead(str: Bytes, j: nat, letter: char, res: Bytes)
    requires IsChr(Short(letter)) && Holds(str, j, ChrText(Short(letter)))
    ensures StringFrom(str, j, res) == StringFrom(str, j + 2, res + [ShortMeaning(letter)])
  {
    var text := ChrText(Short(letter));
    assert text == [0x5c, letter as int];
    assert str[j..j + 2][0] == str[j] && str[j..j + 2][1] == str[j + 1];
    hide StringFrom;
    assert Unescape(str, j) == Done([ShortMeaning(letter)], j + 2);
    StringStep(str, j, [ShortMeaning(letter)], j + 2, res);
  }

  lemma StringStep(str: Bytes, j: nat, bytes: Bytes, next: nat, res: Bytes)
    requires j < |str| && str[j] == BACKSLASH && Unescape(str, j) == Done(bytes, next)
    ensures StringFrom(str, j, res) == StringFrom(str, next, res + bytes)
  {
  }

  lemma EscapeIsRead(str: Bytes, j: nat, digits: seq<Hex>, res: Bytes)
    requires IsChr(Escaped(digits)) && Holds(str, j, ChrText(Escaped(digits)))
    ensures StringFrom(str, j, res) == StringFrom(str, j + 6, res + ChrMeaning(Escaped(digits)))
  {
    hide StringFrom, HexChar, CodepointToUtf8;
    UnitIsRead(digits);
    SingleEscape(digits);
    assert ChrText(Escaped(digits)) == [BACKSLASH, LETTER_U] + UnitText(digits);
    DigitsInText(str, j, UnitText(digits));
    StringStep(str, j, ChrMeaning(Escaped(digits)), j + 6, res);
  }

  lemma PairSpelling(high: seq<Hex>, low: seq<Hex>)
    requires IsChr(Paired(high, low))
    ensures ChrText(Paired(high, low)) == [BACKSLASH, LETTER_U] + PairText(high, low)
    ensures |ChrText(Paired(high, low))| == 12
  {
    assert Ascii("\\u") == [BACKSLASH, LETTER_U];
    hide Unit, HexChar, Ascii;
  }

  lemma PairIsRead(str: Bytes, j: nat, high: seq<Hex>, low: seq<Hex>, res: Bytes)
    requires IsChr(Paired(high, low)) && Holds(str, j, ChrText(Paired(high, low)))
    ensures StringFrom(str, j, res) == StringFrom(str, j + 12, res + ChrMeaning(Paired(high, low)))
  {
    PairSpelling(high, low);
    PairedEscape(high, low);
    hide StringFrom, UnitText, CodepointToUtf8, Unit, ChrText, HexAt, ParseUnicodeEscape;
    DigitsInText(str, j, PairText(high, low));
    StringStep(str, j, ChrMeaning(Paired(high, low)), j + 12, res);
  }

  lemma QuoteEnds(str: Bytes, j: nat, xs: seq<Chr>, res: Bytes)
    requires xs == [] && Holds(str, j, ChrsText(xs) + Ascii("\""))
    ensures StringFrom(str, j, res) == Done(res, j + 1) && |ChrsText(xs)| == 0 && ChrsMeaning(xs) == []
  {
    assert ChrsText(xs) + Ascii("\"") == [QUOTE];
    HoldsFirst(str, j, [QUOTE]);
  }

  lemma {:induction false} ChrsSplit(xs: seq<Chr>)
    requires AreChrs(xs) && xs != []
    ensures AreChrs(xs[1..]) && IsChr(xs[0])
    ensures ChrsText(xs) == ChrText(xs[0]) + ChrsText(xs[1..])
    ensures ChrsText(xs) + Ascii("\"") == ChrText(xs[0]) + (ChrsText(xs[1..]) + Ascii("\""))
    ensures ChrsMeaning(xs) == ChrMeaning(xs[0]) + ChrsMeaning(xs[1..])
  {
  }

  lemma {:induction false} ChrsAreRead(str: Bytes, j: nat, xs: seq<Chr>, res: Bytes)
    requires AreChrs(xs) && Holds(str, j, ChrsText(xs) + Ascii("\""))
    ensures StringFrom(str, j, res) == Done(res + ChrsMeaning(xs), j + |ChrsText(xs)| + 1)
    decreases |xs|
  {
    hide *;
    if xs == [] {
      QuoteEnds(str, j, xs, res);
      assert res + [] == res;
    } else {
      var x, rest := xs[0], xs[1..];
      ChrsSplit(xs);
      HoldsSplit(str, j, ChrText(x), ChrsText(rest) + Ascii("\""));
      ChrIsRead(str, j, x, res);
      ChrsAreRead(str, j + |ChrText(x)|, rest, res + ChrMeaning(x));
      assert res + ChrMeaning(x) + ChrsMeaning(rest) == res + (ChrMeaning(x) + ChrsMeaning(rest));
    }
  }

  /** A string is read as its characters. */
  lemma QuotationIsRead(str: Bytes, i: nat, xs: seq<Chr>)
    requires AreChrs(xs) && Holds(str, i, Quotation(xs))
    ensures i < |str| && str[i] == QUOTE
    ensures StringFrom(str, i + 1, []) == Done(ChrsMeaning(xs), i + |Quotation(xs)|)
  {
    assert Ascii("\"") == [QUOTE];
    hide StringFrom, ChrsText, ChrsMeaning, Ascii;
    HoldsFirst(str, i, Quotation(xs));
    HoldsSplit(str, i, Ascii("\""), ChrsText(xs) + Ascii("\""));
    ChrsAreRead(str, i + 1, xs, []);
    assert [] + ChrsMeaning(xs) == ChrsMeaning(xs);
  }

  // ---------- words and numbers ----------

  /** The characters true, false and null before a delimiter are those values. */
  lemma WordIsRead(str: Bytes, i: nat, x: Syntax)
    requires x.True? || x.False? || x.Null?
    requires Holds(str, i, Text(x)) && EndsAt(str, i + |Text(x)|)
    ensures Parse(str, i) == Done(Meaning(x), i + |Text(x)|)
  {
    assert Ascii("true") == [116, 114, 117, 101] && Ascii("false") == [102, 97, 108, 115, 101];
    assert Ascii("null") == [110, 117, 108, 108];
    hide Ascii, Holds;
    FindDelimAt(str, i, Text(x));
    HoldsFirst(str, i, Text(x));
    assert str[i..i + |Text(x)|] == Text(x) by { HoldsIs(str, i, Text(x)); }
    hide FindDelim;
  }

  lemma DigitChar(d: Decimals.Digit)
    ensures "0123456789"[d] as int == 48 + d
  {
    assert d == 0 || d == 1 || d == 2 || d == 3 || d == 4 || d == 5 || d == 6 || d == 7 || d == 8 || d == 9;
  }

  lemma DigitsAreRead(digits: seq<Decimals.Digit>)
    ensures AllDigits(DigitChars(digits)) && DigitsOf(DigitChars(digits)) == digits
    ensures forall c :: c in DigitChars(digits) ==> !IsDelim(c)
  {
    forall d: Decimals.Digit ensures "0123456789"[d] as int == 48 + d { DigitChar(d); }
  }

  lemma NumberText(x: Syntax)
    requires x.Integer? && IsSyntax(x)
    ensures Text(x) == if x.negative then [MINUS] + DigitChars(x.digits) else DigitChars(x.digits)
  {
    assert Ascii("-") == [MINUS];
    hide DigitChars;
  }

  lemma NumberIsRead(x: Syntax)
    requires x.Integer? && IsSyntax(x)
    ensures Text(x) != [] && (IsDigit(Text(x)[0]) || Text(x)[0] == MINUS)
    ensures Meaning(x).Num? && ToNumber(Text(x)) == Some(Meaning(x).n)
    ensures forall c :: c in Text(x) ==> !IsDelim(c)
  {
    var digits := DigitChars(x.digits);
    DigitsAreRead(x.digits);
    NumberText(x);
    hide Text, DigitChars, Decimals.Value;
    if x.negative {
      assert Text(x)[1..] == digits;
    } else {
      assert IsDigit(digits[0]);
    }
  }

  lemma IntegerIsRead(str: Bytes, i: nat, x: Syntax)
    requires x.Integer? && IsSyntax(x) && Holds(str, i, Text(x)) && EndsAt(str, i + |Text(x)|)
    ensures Parse(str, i) == Done(Meaning(x), i + |Text(x)|)
  {
    NumberIsRead(x);
    hide Text, Meaning, ToNumber, FindDelim;
    FindDelimAt(str, i, Text(x));
    HoldsFirst(str, i, Text(x));
  }

  // ---------- arrays and objects ----------

  // A text never starts with a space or a closing bracket.
  lemma TextHead(x: Syntax)
    requires IsSyntax(x)
    ensures Text(x) != [] && !IsSpace(Text(x)[0]) && Text(x)[0] != RBRACKET && Text(x)[0] != RBRACE
  {
    if x.Integer? {
      DigitsAreRead(x.digits);
      if !x.negative { assert Text(x)[0] == DigitChars(x.digits)[0]; }
    }
  }

  // What the loop over an array or an object finds at the next item: the item, and behind
  // it, after some space, a comma or a closing bracket.
  predicate ItemAt(str: Bytes, i: nat, item: Item, close: byte)
    requires IsItem(item)
  {
    var end := i + |ItemText(item)|;
    Holds(str, i, ItemText(item)) && end < |str| && (str[end] == close || str[end] == COMMA)
  }

  // Behind a text comes whitespace or, without any, what follows it.
  lemma AfterText(str: Bytes, end: nat, ws: Bytes)
    requires IsWs(ws) && Holds(str, end, ws) && end + |ws| < |str| && IsDelim(str[end + |ws|])
    ensures EndsAt(str, end)
  {
    if ws != [] { HoldsFirst(str, end, ws); }
  }

  lemma ItemParts(str: Bytes, i: nat, item: Item, close: byte)
    requires IsItem(item) && ItemAt(str, i, item, close) && (close == RBRACKET || close == RBRACE)
    ensures var at := i + |item.before|;
      var end := at + |Text(item.value)|;
      && SkipSpace(str, i) == at < |str| && str[at] != RBRACKET && str[at] != RBRACE
      && Holds(str, at, Text(item.value)) && EndsAt(str, end)
      && SkipSpace(str, end) == i + |ItemText(item)|
  {
    hide Text, SkipSpace, Holds, EndsAt, IsSyntax, IsWs;
    var text := Text(item.value);
    var at := i + |item.before|;
    TextHead(item.value);
    HoldsSplit(str, i, item.before, text + item.after);
    HoldsSplit(str, at, text, item.after);
    HoldsFirst(str, at, text);
    SkipWs(str, i, item.before);
    SkipWs(str, at + |text|, item.after);
    AfterText(str, at + |text|, item.after);
  }

  lemma {:induction false} ItemsSplit(items: seq<Item>)
    requires AreItems(items) && items != []
    ensures IsItem(items[0]) && IsSyntax(items[0].value) && AreItems(items[1..])
    ensures ItemsMeaning(items) == [Meaning(items[0].value)] + ItemsMeaning(items[1..])
    ensures |items| == 1 ==> ItemsText(items) == ItemText(items[0]) && ItemsMeaning(items[1..]) == []
    ensures |items| > 1 ==> ItemsText(items) == ItemText(items[0]) + ([COMMA] + ItemsText(items[1..]))
  {
    assert Ascii(",") == [COMMA] && IsItem(items[0]) && IsSyntax(items[0].value);
    hide ItemText, Meaning, IsSyntax, Ascii;
  }

  /** Wherever a JSON text stands before a delimiter or the end, the decoder gives the value
      it stands for and stops right behind it. */
  lemma {:induction false} TextIsRead(str: Bytes, i: nat, x: Syntax)
    requires IsSyntax(x) && Holds(str, i, Text(x)) && EndsAt(str, i + |Text(x)|)
    ensures Parse(str, i) == Done(Meaning(x), i + |Text(x)|)
    decreases x, 0
  {
    match x
    case True => WordIsRead(str, i, x);
    case False => WordIsRead(str, i, x);
    case Null => WordIsRead(str, i, x);
    case Integer(_, _) => IntegerIsRead(str, i, x);
    case Quoted(chars) => QuotationIsRead(str, i, chars);
    case EmptyArray(space) => EmptyIsRead(str, i, x);
    case EmptyObject(space) => EmptyIsRead(str, i, x);
    case Array(items) => ArrayIsRead(str, i, items);
    case Object(members) => ObjectIsRead(str, i, members);
  }

  lemma EmptyText(x: Syntax)
    requires (x.EmptyArray? || x.EmptyObject?) && IsSyntax(x)
    ensures Text(x) == if x.EmptyArray? then [LBRACKET] + (x.space + [RBRACKET]) else [LBRACE] + (x.space + [RBRACE])
  {
    assert Ascii("[") == [LBRACKET] && Ascii("]") == [RBRACKET] && Ascii("{") == [LBRACE] && Ascii("}") == [RBRACE];
    hide Ascii;
  }

  lemma EmptyIsRead(str: Bytes, i: nat, x: Syntax)
    requires (x.EmptyArray? || x.EmptyObject?) && IsSyntax(x) && Holds(str, i, Text(x))
    ensures Parse(str, i) == Done(Meaning(x), i + |Text(x)|)
  {
    EmptyText(x);
    hide Text, Holds, SkipSpace, IsWs, Parse;
    if x.EmptyArray? {
      Opens(str, i, LBRACKET, x.space + [RBRACKET]);
      NothingInside(str, i + 1, x.space, RBRACKET);
    } else {
      Opens(str, i, LBRACE, x.space + [RBRACE]);
      NothingInside(str, i + 1, x.space, RBRACE);
    }
  }

  lemma NothingInside(str: Bytes, i: nat, space: Bytes, close: byte)
    requires IsWs(space) && Holds(str, i, space + [close])
    ensures close == RBRACKET ==> ItemsFrom(str, i, []) == Done(Arr([]), i + |space| + 1)
    ensures close == RBRACE ==> EntriesFrom(str, i, []) == Done(Arr([]), i + |space| + 1)
  {
    hide Holds, SkipSpace, IsWs, EntryAt;
    HoldsSplit(str, i, space, [close]);
    HoldsFirst(str, i + |space|, [close]);
    if close == RBRACKET || close == RBRACE { SkipWs(str, i, space); }
  }

  lemma {:induction false} ArrayIsRead(str: Bytes, i: nat, items: seq<Item>)
    requires IsSyntax(Array(items)) && Holds(str, i, Text(Array(items)))
    ensures Parse(str, i) == Done(Meaning(Array(items)), i + |Text(Array(items))|)
    decreases items, 3
  {
    hide *;
    ArrayText(items);
    Opens(str, i, LBRACKET, ItemsText(items) + [RBRACKET]);
    ItemsAreRead(str, i + 1, items, []);
    assert [] + ItemsMeaning(items) == ItemsMeaning(items);
  }

  // An opening bracket leads to the loop over items or members.
  lemma Opens(str: Bytes, i: nat, open: byte, text: Bytes)
    requires Holds(str, i, [open] + text)
    ensures Holds(str, i + 1, text) && i < |str|
    ensures open == LBRACKET ==> Parse(str, i) == ItemsFrom(str, i + 1, [])
    ensures open == LBRACE ==> Parse(str, i) == EntriesFrom(str, i + 1, [])
  {
    hide ItemsFrom, EntriesFrom;
    HoldsFirst(str, i, [open] + text);
    HoldsSplit(str, i, [open], text);
  }

  lemma {:induction false} ArrayText(items: seq<Item>)
    requires IsSyntax(Array(items))
    ensures items != [] && AreItems(items)
    ensures Text(Array(items)) == [LBRACKET] + (ItemsText(items) + [RBRACKET])
    ensures Meaning(Array(items)) == Arr(ItemsMeaning(items))
  {
    assert Ascii("[") == [LBRACKET] && Ascii("]") == [RBRACKET];
    hide ItemsText, ItemsMeaning, Ascii;
  }

  lemma {:induction false} ItemsAreRead(str: Bytes, i: nat, items: seq<Item>, res: seq<Value>)
    requires AreItems(items) && items != [] && Holds(str, i, ItemsText(items) + [RBRACKET])
    ensures ItemsFrom(str, i, res) == Done(Arr(res + ItemsMeaning(items)), i + |ItemsText(items)| + 1)
    decreases items, 2
  {
    hide *;
    ItemsSplit(items);
    var text, x := ItemText(items[0]), Meaning(items[0].value);
    if |items| == 1 {
      LastItem(str, i, items[0], res);
      assert [x] + [] == [x];
    } else {
      var rest := items[1..];
      assert text + ([COMMA] + ItemsText(rest)) + [RBRACKET] == text + ([COMMA] + (ItemsText(rest) + [RBRACKET]));
      FirstItem(str, i, items[0], ItemsText(rest) + [RBRACKET], res);
      ItemsAreRead(str, i + |text| + 1, rest, res + [x]);
      assert res + [x] + ItemsMeaning(rest) == res + ([x] + ItemsMeaning(rest));
    }
  }

  lemma {:induction false} LastItem(str: Bytes, i: nat, item: Item, res: seq<Value>)
    requires IsItem(item) && Holds(str, i, ItemText(item) + [RBRACKET])
    ensures ItemsFrom(str, i, res) == Done(Arr(res + [Meaning(item.value)]), i + |ItemText(item)| + 1)
    decreases item, 1
  {
    hide Parse, Holds, Text, ItemText, Meaning, SkipSpace;
    BeforeDelim(str, i, ItemText(item), [RBRACKET]);
    ItemParts(str, i, item, RBRACKET);
    TextIsRead(str, i + |item.before|, item.value);
  }

  lemma {:induction false} FirstItem(str: Bytes, i: nat, item: Item, rest: Bytes, res: seq<Value>)
    requires IsItem(item) && Holds(str, i, ItemText(item) + ([COMMA] + rest))
    ensures Holds(str, i + |ItemText(item)| + 1, rest)
    ensures ItemsFrom(str, i, res) == ItemsFrom(str, i + |ItemText(item)| + 1, res + [Meaning(item.value)])
    decreases item, 1
  {
    hide Parse, Holds, Text, ItemText, Meaning, SkipSpace;
    BeforeDelim(str, i, ItemText(item), [COMMA] + rest);
    HoldsSplit(str, i + |ItemText(item)|, [COMMA], rest);
    ItemParts(str, i, item, RBRACKET);
    TextIsRead(str, i + |item.before|, item.value);
  }

  lemma NameIsRead(str: Bytes, at: nat, m: Member)
    requires IsMember(m) && Holds(str, at, Quotation(m.name) + (m.mid + ([COLON] + ItemText(m.item))))
    requires var item := at + |Quotation(m.name)| + |m.mid| + 1;
      SkipSpace(str, item) == item + |m.item.before|
    ensures var item := at + |Quotation(m.name)| + |m.mid| + 1;
      && at < |str| && str[at] == QUOTE && Holds(str, item, ItemText(m.item))
      && KeyAt(str, at) == Done(ChrsMeaning(m.name), item + |m.item.before|)
  {
    hide StringFrom, Quotation, ChrsMeaning, ItemText, SkipSpace, Holds;
    var name, tail := Quotation(m.name), [COLON] + ItemText(m.item);
    HoldsSplit(str, at, name, m.mid + tail);
    HoldsSplit(str, at + |name|, m.mid, tail);
    HoldsFirst(str, at + |name| + |m.mid|, tail);
    HoldsSplit(str, at + |name| + |m.mid|, [COLON], ItemText(m.item));
    SkipWs(str, at + |name|, m.mid);
    QuotationIsRead(str, at, m.name);
  }

  lemma MemberSplit(m: Member)
    requires IsMember(m)
    ensures MemberText(m) == m.before + (Quotation(m.name) + (m.mid + ([COLON] + ItemText(m.item))))
    ensures Quotation(m.name) != [] && Quotation(m.name)[0] == QUOTE && IsItem(m.item)
  {
    assert Ascii(":") == [COLON] && Ascii("\"") == [QUOTE];
    hide ItemText, ChrsText;
  }

  // What the loop over an object finds at the next member.
  lemma {:induction false} MemberIsRead(str: Bytes, i: nat, m: Member)
    requires IsMember(m) && Holds(str, i, MemberText(m))
    requires var end := i + |MemberText(m)|; end < |str| && (str[end] == RBRACE || str[end] == COMMA)
    ensures var at := SkipSpace(str, i);
      && at < |str| && str[at] == QUOTE
      && var e := EntryAt(str, at);
         e.Done? && e.value == Entry(ChrsMeaning(m.name), Meaning(m.item.value))
         && SkipSpace(str, e.next) == i + |MemberText(m)|
    decreases m, 1
  {
    hide Holds, Quotation, ChrsMeaning, ItemText, Text, Meaning, SkipSpace, KeyAt, Parse;
    MemberSplit(m);
    var at := i + |m.before|;
    var body := Quotation(m.name) + (m.mid + ([COLON] + ItemText(m.item)));
    HoldsSplit(str, i, m.before, body);
    assert body[0] == QUOTE;
    HoldsFirst(str, at, body);
    SkipWs(str, i, m.before);
    var item := at + |Quotation(m.name)| + |m.mid| + 1;
    ItemStands(str, at, m);
    ItemParts(str, item, m.item, RBRACE);
    NameIsRead(str, at, m);
    TextIsRead(str, item + |m.item.before|, m.item.value);
  }

  lemma ItemStands(str: Bytes, at: nat, m: Member)
    requires IsMember(m) && Holds(str, at, Quotation(m.name) + (m.mid + ([COLON] + ItemText(m.item))))
    requires var end := at + |Quotation(m.name)| + |m.mid| + 1 + |ItemText(m.item)|;
      end < |str| && (str[end] == RBRACE || str[end] == COMMA)
    ensures ItemAt(str, at + |Quotation(m.name)| + |m.mid| + 1, m.item, RBRACE)
  {
    hide Quotation, ItemText, Holds;
    var name, tail := Quotation(m.name), [COLON] + ItemText(m.item);
    HoldsSplit(str, at, name, m.mid + tail);
    HoldsSplit(str, at + |name|, m.mid, tail);
    HoldsSplit(str, at + |name| + |m.mid|, [COLON], ItemText(m.item));
  }

  lemma {:induction false} MembersSplit(res: seq<Entry>, members: seq<Member>)
    requires AreMembers(members) && members != []
    ensures var m := members[0];
      && IsMember(m) && IsItem(m.item) && IsSyntax(m.item.value) && AreMembers(members[1..]) && AreChrs(m.name)
      && SetAll(res, members) == SetAll(Put(res, ChrsMeaning(m.name), Meaning(m.item.value)), members[1..])
    ensures |members| == 1 ==> MembersText(members) == MemberText(members[0])
    ensures |members| == 1 ==> forall r :: SetAll(r, members[1..]) == r
    ensures |members| > 1 ==> MembersText(members) == MemberText(members[0]) + ([COMMA] + MembersText(members[1..]))
  {
    assert Ascii(",") == [COMMA] && IsMember(members[0]) && IsItem(members[0].item);
    hide MemberText, Meaning, ChrsMeaning, IsSyntax, Ascii, Put;
  }

  lemma IsObjectOf(members: seq<Member>)
    requires IsSyntax(Object(members))
    ensures members != [] && AreMembers(members)
  {
  }

  lemma {:induction false} ObjectText(members: seq<Member>)
    requires IsSyntax(Object(members))
    ensures AreMembers(members) && Text(Object(members)) == [LBRACE] + (MembersText(members) + [RBRACE])
    ensures Meaning(Object(members)) == Table(SetAll([], members))
  {
    assert Ascii("{") == [LBRACE] && Ascii("}") == [RBRACE];
  }

  lemma {:induction false} ObjectIsRead(str: Bytes, i: nat, members: seq<Member>)
    requires IsSyntax(Object(members)) && Holds(str, i, Text(Object(members)))
    ensures Parse(str, i) == Done(Meaning(Object(members)), i + |Text(Object(members))|)
    decreases members, 3
  {
    IsObjectOf(members);
    hide *;
    ObjectText(members);
    Opens(str, i, LBRACE, MembersText(members) + [RBRACE]);
    MembersAreRead(str, i + 1, members, []);
  }

  lemma {:induction false} MembersAreRead(str: Bytes, i: nat, members: seq<Member>, res: seq<Entry>)
    requires AreMembers(members) && members != [] && Holds(str, i, MembersText(members) + [RBRACE])
    ensures EntriesFrom(str, i, res) == Done(Table(SetAll(res, members)), i + |MembersText(members)| + 1)
    decreases members, 2
  {
    hide *;
    MembersSplit(res, members);
    var text := MemberText(members[0]);
    if |members| == 1 {
      LastMember(str, i, members[0], res);
    } else {
      var m, rest := members[0], members[1..];
      assert text + ([COMMA] + MembersText(rest)) + [RBRACE] == text + ([COMMA] + (MembersText(rest) + [RBRACE]));
      FirstMember(str, i, m, MembersText(rest) + [RBRACE], res);
      MembersAreRead(str, i + |text| + 1, rest, Put(res, ChrsMeaning(m.name), Meaning(m.item.value)));
    }
  }

  lemma {:induction false} LastMember(str: Bytes, i: nat, m: Member, res: seq<Entry>)
    requires IsMember(m) && IsItem(m.item) && Holds(str, i, MemberText(m) + [RBRACE])
    ensures EntriesFrom(str, i, res) ==
      Done(Table(Put(res, ChrsMeaning(m.name), Meaning(m.item.value))), i + |MemberText(m)| + 1)
    decreases m, 2
  {
    hide Holds, MemberText, ChrsMeaning, Meaning, SkipSpace, EntryAt, Put, Table;
    BeforeDelim(str, i, MemberText(m), [RBRACE]);
    MemberIsRead(str, i, m);
  }

  lemma {:induction false} FirstMember(str: Bytes, i: nat, m: Member, rest: Bytes, res: seq<Entry>)
    requires IsMember(m) && IsItem(m.item) && Holds(str, i, MemberText(m) + ([COMMA] + rest))
    ensures Holds(str, i + |MemberText(m)| + 1, rest)
    ensures EntriesFrom(str, i, res) ==
      EntriesFrom(str, i + |MemberText(m)| + 1, Put(res, ChrsMeaning(m.name), Meaning(m.item.value)))
    decreases m, 2
  {
    hide Holds, MemberText, ChrsMeaning, Meaning, SkipSpace, EntryAt, Put, Table;
    BeforeDelim(str, i, MemberText(m), [COMMA] + rest);
    HoldsSplit(str, i + |MemberText(m)|, [COMMA], rest);
    MemberIsRead(str, i, m);
  }

  /** The decoder gives every JSON text, with whitespace before and after it, its value. */
  lemma DecodeReadsJson(before: Bytes, x: Syntax, after: Bytes)
    requires IsWs(before) && IsSyntax(x) && IsWs(after)
    ensures Decode(before + (Text(x) + after)) == Some(Meaning(x))
  {
    var str := before + (Text(x) + after);
    var at, end := |before|, |before| + |Text(x)|;
    TextHead(x);
    hide Text, Meaning, Parse, SkipSpace;
    assert Holds(str, 0, str);
    HoldsSplit(str, 0, before, Text(x) + after);
    HoldsSplit(str, at, Text(x), after);
    HoldsFirst(str, at, Text(x));
    SkipWs(str, 0, before);
    SkipWs(str, end, after);
    if after != [] { HoldsFirst(str, end, after); }
    TextIsRead(str, at, x);
  }

  // ---------- what is read besides ----------

  /** A comma before the closing bracket of an array, which JSON does not allow, is read too. */
  lemma {:induction false} TrailingCommaIsRead(str: Bytes, i: nat, items: seq<Item>, res: seq<Value>)
    requires AreItems(items) && items != [] && Holds(str, i, ItemsText(items) + ([COMMA] + [RBRACKET]))
    ensures ItemsFrom(str, i, res) == Done(Arr(res + ItemsMeaning(items)), i + |ItemsText(items)| + 2)
    decreases |items|
  {
    hide *;
    ItemsSplit(items);
    var text, x := ItemText(items[0]), Meaning(items[0].value);
    if |items| == 1 {
      FirstItem(str, i, items[0], [RBRACKET], res);
      BracketEnds(str, i + |text| + 1, res + [x]);
      assert [x] + [] == [x];
    } else {
      var rest := items[1..];
      assert text + ([COMMA] + ItemsText(rest)) + ([COMMA] + [RBRACKET])
          == text + ([COMMA] + (ItemsText(rest) + ([COMMA] + [RBRACKET])));
      FirstItem(str, i, items[0], ItemsText(rest) + ([COMMA] + [RBRACKET]), res);
      TrailingCommaIsRead(str, i + |text| + 1, rest, res + [x]);
      assert res + [x] + ItemsMeaning(rest) == res + ([x] + ItemsMeaning(rest));
    }
  }

  lemma BracketEnds(str: Bytes, i: nat, res: seq<Value>)
    requires Holds(str, i, [RBRACKET])
    ensures ItemsFrom(str, i, res) == Done(Arr(res), i + 1)
  {
    HoldsFirst(str, i, [RBRACKET]);
  }
}
