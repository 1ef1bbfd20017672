/** The loops of the Lua JSON library, proved to compute its encoder and decoder. */
module LuaCodec {
  import opened Results
  import opened LuaText
  import opened LuaJson

  const SPACE_CHARS: set<byte> := {32, 9, 13, 10}
  const DELIM_CHARS: set<byte> := {32, 9, 13, 10, RBRACKET, RBRACE, COMMA}

  // The first position from idx on whose membership in the set differs from `negate`.
  predicate IsNextChar(str: Bytes, idx: nat, chars: set<byte>, negate: bool, i: nat) {
    && idx <= i <= |str|
    && (forall k :: idx <= k < i ==> (str[k] in chars) == negate)
    && (i < |str| ==> (str[i] in chars) != negate)
  }

  lemma {:induction false} NextIsSkipSpace(str: Bytes, idx: nat, i: nat)
    requires IsNextChar(str, idx, SPACE_CHARS, true, i)
    ensures i == SkipSpace(str, idx)
    decreases |str| - idx
  {
    if idx < i {
      assert str[idx] in SPACE_CHARS;
      NextIsSkipSpace(str, idx + 1, i);
    }
  }

  lemma {:induction false} NextIsFindDelim(str: Bytes, idx: nat, i: nat)
    requires IsNextChar(str, idx, DELIM_CHARS, false, i)
    ensures i == FindDelim(str, idx)
    decreases |str| - idx
  {
    if idx < i {
      assert str[idx] !in DELIM_CHARS;
      NextIsFindDelim(str, idx + 1, i);
    }
  }

  method NextChar(str: Bytes, idx: nat, chars: set<byte>, negate: bool) returns (i: nat)
    requires idx <= |str|
    ensures IsNextChar(str, idx, chars, negate, i)
    ensures chars == SPACE_CHARS && negate ==> i == SkipSpace(str, idx)
    ensures chars == DELIM_CHARS && !negate ==> i == FindDelim(str, idx)
  {
    i := idx;
    while i < |str| && (str[i] in chars) == negate
      invariant idx <= i <= |str|
      invariant forall k :: idx <= k < i ==> (str[k] in chars) == negate
    {
      i := i + 1;
    }
    if chars == SPACE_CHARS && negate {
      NextIsSkipSpace(str, idx, i);
    }
    if chars == DELIM_CHARS && !negate {
      NextIsFindDelim(str, idx, i);
    }
  }

  // ---------- decoder ----------

  /** The string that starts at the quote at position i; `k` is where the run of
      ordinary characters not yet copied begins. */
  method ReadString(str: Bytes, i: nat) returns (r: Parsed<Bytes>)
    requires i < |str|
    ensures r == StringFrom(str, i + 1, [])
  {
    var res: Bytes := [];
    var j := i + 1;
    var k := j;
    assert [] + str[k..j] == [];
    while j < |str|
      invariant i < k <= j <= |str|
      invariant StringFrom(str, i + 1, []) == StringFrom(str, j, res + str[k..j])
    {
      var x := str[j];
      if x < 32 {
        return Fail;
      } else if x == BACKSLASH {
        res := res + str[k..j];
        var escape := Unescape(str, j);
        if escape.Fail? {
          return Fail;
        }
        res := res + escape.value;
        j := escape.next;
        k := j;
        assert res + str[k..j] == res;
      } else if x == QUOTE {
        res := res + str[k..j];
        return Done(res, j + 1);
      } else {
        assert res + str[k..j + 1] == res + str[k..j] + [x];
        j := j + 1;
      }
    }
    r := Fail;
  }

  method ReadWord(str: Bytes, i: nat) returns (r: Parsed<Value>)
    requires i < |str|
    ensures IsDigit(str[i]) || str[i] == MINUS ==> r == ParseNumber(str, i)
    ensures !(IsDigit(str[i]) || str[i] == MINUS) ==> r == ParseLiteral(str, i)
  {
    var x := NextChar(str, i, DELIM_CHARS, false);
    var word := str[i..x];
    if IsDigit(str[i]) || str[i] == MINUS {
      var n := ToNumber(word);
      r := if n.None? then Fail else Done(Num(n.value), x);
    } else if word == TRUE {
      r := Done(Bool(true), x);
    } else if word == FALSE {
      r := Done(Bool(false), x);
    } else if word == NULL {
      r := Done(Nil, x);
    } else {
      r := Fail;
    }
  }

  method ReadValue(str: Bytes, i: nat) returns (r: Parsed<Value>)
    requires i <= |str|
    ensures r == Parse(str, i)
    decreases |str| - i, 0
  {
    if i >= |str| {
      return Fail;
    }
    var c := str[i];
    if c == QUOTE {
      var s := ReadString(str, i);
      r := if s.Fail? then Fail else Done(Str(s.value), s.next);
    } else if IsDigit(c) || c == MINUS || c == LETTER_T || c == LETTER_F || c == LETTER_N {
      r := ReadWord(str, i);
    } else if c == LBRACKET {
      r := ReadArray(str, i);
    } else if c == LBRACE {
      r := ReadObject(str, i);
    } else {
      r := Fail;
    }
  }

  method ReadArray(str: Bytes, start: nat) returns (r: Parsed<Value>)
    requires start < |str|
    ensures r == ItemsFrom(str, start + 1, [])
    decreases |str| - start - 1, 1
  {
    hide Parse, SkipSpace;
    var res: seq<Value> := [];
    var i := start + 1;
    while true
      invariant start < i <= |str|
      invariant ItemsFrom(str, start + 1, []) == ItemsFrom(str, i, res)
      decreases |str| - i
    {
      var at := NextChar(str, i, SPACE_CHARS, true);
      if at < |str| && str[at] == RBRACKET {
        return Done(Arr(res), at + 1);
      }
      var x := ReadValue(str, at);
      if x.Fail? {
        return Fail;
      }
      var end := NextChar(str, x.next, SPACE_CHARS, true);
      if end < |str| && str[end] == RBRACKET {
        return Done(Arr(res + [x.value]), end + 1);
      }
      if end >= |str| || str[end] != COMMA {
        return Fail;
      }
      res := res + [x.value];
      i := end + 1;
    }
  }

  method ReadKey(str: Bytes, i: nat) returns (r: Parsed<Bytes>)
    requires i <= |str|
    ensures r == KeyAt(str, i)
  {
    if i >= |str| || str[i] != QUOTE {
      return Fail;
    }
    var key := ReadString(str, i);
    if key.Fail? {
      return Fail;
    }
    var colon := NextChar(str, key.next, SPACE_CHARS, true);
    if colon >= |str| || str[colon] != COLON {
      return Fail;
    }
    var next := NextChar(str, colon + 1, SPACE_CHARS, true);
    r := Done(key.value, next);
  }

  method ReadEntry(str: Bytes, i: nat) returns (r: Parsed<Entry>)
    requires i <= |str|
    ensures r == EntryAt(str, i)
    decreases |str| - i, 1
  {
    var key := ReadKey(str, i);
    if key.Fail? {
      return Fail;
    }
    var value := ReadValue(str, key.next);
    r := if value.Fail? then Fail else Done(Entry(key.value, value.value), value.next);
  }

  method ReadObject(str: Bytes, start: nat) returns (r: Parsed<Value>)
    requires start < |str|
    ensures r == EntriesFrom(str, start + 1, [])
    decreases |str| - start - 1, 2
  {
    hide EntryAt, SkipSpace, Put, Table;
    var res: seq<Entry> := [];
    var i := start + 1;
    while true
      invariant start < i <= |str|
      invariant EntriesFrom(str, start + 1, []) == EntriesFrom(str, i, res)
      decreases |str| - i
    {
      var at := NextChar(str, i, SPACE_CHARS, true);
      if at < |str| && str[at] == RBRACE {
        return Done(Table(res), at + 1);
      }
      var e := ReadEntry(str, at);
      if e.Fail? {
        return Fail;
      }
      var end := NextChar(str, e.next, SPACE_CHARS, true);
      var res' := Put(res, e.value.key, e.value.value);
      if end < |str| && str[end] == RBRACE {
        return Done(Table(res'), end + 1);
      }
      if end >= |str| || str[end] != COMMA {
        return Fail;
      }
      res := res';
      i := end + 1;
    }
  }

  method DecodeText(str: Bytes) returns (r: Option<Value>)
    ensures r == Decode(str)
  {
    var start := NextChar(str, 0, SPACE_CHARS, true);
    var v := ReadValue(str, start);
    if v.Fail? {
      return None;
    }
    var end := NextChar(str, v.next, SPACE_CHARS, true);
    r := if end < |str| then None else Some(v.value);
  }

  // ---------- encoder ----------

  // The pieces with commas between them.
  function Joined(pieces: seq<Bytes>): Bytes {
    if pieces == [] then []
    else pieces[0] + if |pieces| == 1 then [] else [COMMA] + Joined(pieces[1..])
  }

  lemma {:induction false} JoinedItems(items: seq<Value>, pieces: seq<Bytes>)
    requires |pieces| == |items| && forall i :: 0 <= i < |items| ==> pieces[i] == Encode(items[i])
    ensures Joined(pieces) == EncodeItems(items)
  {
    if items != [] {
      JoinedItems(items[1..], pieces[1..]);
    }
  }

  lemma {:induction false} JoinedEntries(entries: seq<Entry>, pieces: seq<Bytes>)
    requires |pieces| == |entries| && forall i :: 0 <= i < |entries| ==> pieces[i] == EncodeEntry(entries[i])
    ensures Joined(pieces) == EncodeEntries(entries)
  {
    if entries != [] {
      JoinedEntries(entries[1..], pieces[1..]);
    }
  }

  lemma QuotedStep(s: Bytes, i: nat, text: Bytes)
    requires i < |s|
    ensures text + EncodeChars(s[i..]) == (text + EncodeChar(s[i])) + EncodeChars(s[i + 1..])
  {
    hide EncodeChar;
    assert s[i..][1..] == s[i + 1..];
  }

  lemma QuotedEnd(s: Bytes, text: Bytes)
    ensures text + EncodeChars(s[|s|..]) == text && s[0..] == s
  {
  }

  /** The quoted text of a string: the bytes that may not stand in one are replaced. */
  method QuoteString(s: Bytes) returns (text: Bytes)
    ensures text == EncodeString(s)
  {
    hide EncodeChars;
    text := [QUOTE];
    QuotedEnd(s, text);
    for i := 0 to |s|
      invariant text + EncodeChars(s[i..]) == [QUOTE] + EncodeChars(s)
    {
      var c := s[i];
      var piece := [c];
      if c < 32 || c == BACKSLASH || c == QUOTE {
        var letter := ShortEscape(c);
        piece := if letter.Some? then [BACKSLASH, letter.value] else [BACKSLASH, LETTER_U] + Hex4(c);
      }
      QuotedStep(s, i, text);
      text := text + piece;
    }
    QuotedEnd(s, text);
    text := text + [QUOTE];
  }

  method EncodeTable(v: Value) returns (text: Bytes)
    requires v.Arr? || v.Obj?
    ensures text == Encode(v)
    decreases v, 0
  {
    var res: seq<Bytes> := [];
    if v.Arr? {
      for i := 0 to |v.items|
        invariant |res| == i && forall k :: 0 <= k < i ==> res[k] == Encode(v.items[k])
      {
        var piece := EncodeValue(v.items[i]);
        res := res + [piece];
      }
      JoinedItems(v.items, res);
      text := [LBRACKET] + Joined(res) + [RBRACKET];
    } else {
      for i := 0 to |v.entries|
        invariant |res| == i && forall k :: 0 <= k < i ==> res[k] == EncodeEntry(v.entries[k])
      {
        var key := QuoteString(v.entries[i].key);
        var piece := EncodeValue(v.entries[i].value);
        res := res + [key + [COLON] + piece];
      }
      JoinedEntries(v.entries, res);
      text := [LBRACE] + Joined(res) + [RBRACE];
    }
  }

  method EncodeValue(v: Value) returns (text: Bytes)
    ensures text == Encode(v)
    decreases v, 1
  {
    match v
    case Nil => text := NULL;
    case Bool(b) => text := if b then TRUE else FALSE;
    case Num(n) => text := Decimal(n);
    case Str(s) => text := QuoteString(s);
    case _ => text := EncodeTable(v);
  }
}
