/** The encoder and the decoder of the bundled Lua JSON library, as functions. */
module LuaJson {
  import opened Results
  import opened LuaText

  /** A Lua value. A table with entries under string keys lists them in the order in
      which they are visited; a table without entries is `Arr([])`. */
  datatype Value =
    | Nil
    | Bool(b: bool)
    | Num(n: int)
    | Str(s: Bytes)
    | Arr(items: seq<Value>)
    | Obj(entries: seq<Entry>)

  datatype Entry = Entry(key: Bytes, value: Value)

  const MAX_NUMBER: int := 100_000_000_000_000

  /** A tree of booleans, integers of at most 14 digits, strings, arrays and objects
      with distinct keys. */
  predicate Encodable(v: Value) {
    match v
    case Nil => false
    case Bool(_) => true
    case Num(n) => -MAX_NUMBER < n < MAX_NUMBER
    case Str(_) => true
    case Arr(items) => forall i :: 0 <= i < |items| ==> Encodable(items[i])
    case Obj(entries) =>
      && entries != [] && DistinctKeys(entries)
      && forall i :: 0 <= i < |entries| ==> Encodable(entries[i].value)
  }

  predicate DistinctKeys(entries: seq<Entry>) {
    forall i, j :: 0 <= i < j < |entries| ==> entries[i].key != entries[j].key
  }

  // ---------- encoder ----------

  predicate NeedsEscape(c: byte) { c < 32 || c == BACKSLASH || c == QUOTE }

  function ShortEscape(c: byte): Option<byte> {
    if c == BACKSLASH then Some(BACKSLASH)
    else if c == QUOTE then Some(QUOTE)
    else if c == 8 then Some(LETTER_B)
    else if c == 12 then Some(LETTER_F)
    else if c == 10 then Some(LETTER_N)
    else if c == 13 then Some(LETTER_R)
    else if c == 9 then Some(LETTER_T)
    else None
  }

  function EscapeChar(c: byte): Bytes {
    match ShortEscape(c)
    case Some(letter) => [BACKSLASH, letter]
    case None => [BACKSLASH, LETTER_U] + Hex4(c)
  }

  function EncodeChar(c: byte): Bytes {
    if NeedsEscape(c) then EscapeChar(c) else [c]
  }

  function EncodeChars(s: Bytes): Bytes {
    if s == [] then [] else EncodeChar(s[0]) + EncodeChars(s[1..])
  }

  function EncodeString(s: Bytes): Bytes {
    [QUOTE] + EncodeChars(s) + [QUOTE]
  }

  function Encode(v: Value): Bytes
    decreases v
  {
    match v
    case Nil => NULL
    case Bool(b) => if b then TRUE else FALSE
    case Num(n) => Decimal(n)
    case Str(s) => EncodeString(s)
    case Arr(items) => [LBRACKET] + EncodeItems(items) + [RBRACKET]
    case Obj(entries) => [LBRACE] + EncodeEntries(entries) + [RBRACE]
  }

  function EncodeItems(items: seq<Value>): Bytes
    decreases items
  {
    if items == [] then []
    else Encode(items[0]) + if |items| == 1 then [] else [COMMA] + EncodeItems(items[1..])
  }

  function EncodeEntry(e: Entry): Bytes
    decreases e
  {
    EncodeString(e.key) + [COLON] + Encode(e.value)
  }

  function EncodeEntries(entries: seq<Entry>): Bytes
    decreases entries
  {
    if entries == [] then []
    else EncodeEntry(entries[0]) + if |entries| == 1 then [] else [COMMA] + EncodeEntries(entries[1..])
  }

  // ---------- decoder ----------

  /** A value and the position behind it, or an error. */
  datatype Parsed<T> = Done(value: T, next: nat) | Fail

  // The first position from i on that is not a space.
  function SkipSpace(str: Bytes, i: nat): (j: nat)
    requires i <= |str|
    ensures i <= j <= |str|
    decreases |str| - i
  {
    if i < |str| && IsSpace(str[i]) then SkipSpace(str, i + 1) else i
  }

  // The first position from i on that is a delimiter.
  function FindDelim(str: Bytes, i: nat): (j: nat)
    requires i <= |str|
    ensures i <= j <= |str|
    decreases |str| - i
  {
    if i < |str| && !IsDelim(str[i]) then FindDelim(str, i + 1) else i
  }

  function UnescapeLetter(c: byte): Option<byte> {
    if c == BACKSLASH || c == SLASH || c == QUOTE then Some(c)
    else if c == LETTER_B then Some(8)
    else if c == LETTER_F then Some(12)
    else if c == LETTER_N then Some(10)
    else if c == LETTER_R then Some(13)
    else if c == LETTER_T then Some(9)
    else None
  }

  // The digits of a \u escape that start at i: of a pair if it looks like one, else of one.
  function HexAt(str: Bytes, i: nat): (hex: Option<Bytes>)
    ensures hex.Some? ==> i + |hex.value| <= |str| && (IsHex4(hex.value) || IsPairText(hex.value))
  {
    if i + 10 <= |str| && IsPairText(str[i..i + 10]) then Some(str[i..i + 10])
    else if i + 4 <= |str| && IsHex4(str[i..i + 4]) then Some(str[i..i + 4])
    else None
  }

  // One escape sequence: the bytes it stands for and the position behind it.
  function Unescape(str: Bytes, j: nat): (r: Parsed<Bytes>)
    requires j < |str|
    ensures r.Done? ==> j < r.next <= |str|
  {
    if j + 1 >= |str| then Fail
    else if str[j + 1] == LETTER_U then
      match HexAt(str, j + 2) {
        case None => Fail
        case Some(hex) =>
          match ParseUnicodeEscape(hex) {
            case None => Fail
            case Some(bytes) => Done(bytes, j + 2 + |hex|)
          }
      }
    else
      match UnescapeLetter(str[j + 1]) {
        case None => Fail
        case Some(c) => Done([c], j + 2)
      }
  }

  // The rest of a string from position j on, given what was read so far.
  function StringFrom(str: Bytes, j: nat, res: Bytes): (r: Parsed<Bytes>)
    requires j <= |str|
    ensures r.Done? ==> j < r.next <= |str|
    decreases |str| - j
  {
    if j >= |str| || str[j] < 32 then Fail
    else if str[j] == BACKSLASH then
      match Unescape(str, j) {
        case Fail => Fail
        case Done(bytes, next) => StringFrom(str, next, res + bytes)
      }
    else if str[j] == QUOTE then Done(res, j + 1)
    else StringFrom(str, j + 1, res + [str[j]])
  }

  function ParseString(str: Bytes, i: nat): (r: Parsed<Value>)
    requires i < |str|
    ensures r.Done? ==> i < r.next <= |str|
  {
    match StringFrom(str, i + 1, [])
    case Fail => Fail
    case Done(s, next) => Done(Str(s), next)
  }

  function ParseNumber(str: Bytes, i: nat): (r: Parsed<Value>)
    requires i < |str|
    ensures r.Done? ==> i < r.next <= |str|
  {
    var x := FindDelim(str, i);
    match ToNumber(str[i..x])
    case None => Fail
    case Some(n) => Done(Num(n), x)
  }

  function ParseLiteral(str: Bytes, i: nat): (r: Parsed<Value>)
    requires i < |str|
    ensures r.Done? ==> i < r.next <= |str|
  {
    var x := FindDelim(str, i);
    var word := str[i..x];
    if word == TRUE then Done(Bool(true), x)
    else if word == FALSE then Done(Bool(false), x)
    else if word == NULL then Done(Nil, x)
    else Fail
  }

  // Setting a key of a table: nil removes it, and a key already there keeps its place.
  function Put(entries: seq<Entry>, key: Bytes, value: Value): seq<Entry> {
    if entries == [] then if value.Nil? then [] else [Entry(key, value)]
    else if entries[0].key == key
    then (if value.Nil? then [] else [Entry(key, value)]) + entries[1..]
    else [entries[0]] + Put(entries[1..], key, value)
  }

  function Table(entries: seq<Entry>): Value {
    if entries == [] then Arr([]) else Obj(entries)
  }

  function Parse(str: Bytes, i: nat): (r: Parsed<Value>)
    requires i <= |str|
    ensures r.Done? ==> i < r.next <= |str|
    decreases |str| - i, 0
  {
    if i >= |str| then Fail
    else
      var c := str[i];
      if c == QUOTE then ParseString(str, i)
      else if IsDigit(c) || c == MINUS then ParseNumber(str, i)
      else if c == LETTER_T || c == LETTER_F || c == LETTER_N then ParseLiteral(str, i)
      else if c == LBRACKET then ItemsFrom(str, i + 1, [])
      else if c == LBRACE then EntriesFrom(str, i + 1, [])
      else Fail
  }

  // The rest of an array, at the head of the loop.
  function ItemsFrom(str: Bytes, i: nat, res: seq<Value>): (r: Parsed<Value>)
    requires i <= |str|
    ensures r.Done? ==> i < r.next <= |str|
    decreases |str| - i, 1
  {
    var i1 := SkipSpace(str, i);
    if i1 < |str| && str[i1] == RBRACKET then Done(Arr(res), i1 + 1)
    else
      match Parse(str, i1) {
        case Fail => Fail
        case Done(x, i2) =>
          var i3 := SkipSpace(str, i2);
          if i3 < |str| && str[i3] == RBRACKET then Done(Arr(res + [x]), i3 + 1)
          else if i3 < |str| && str[i3] == COMMA then ItemsFrom(str, i3 + 1, res + [x])
          else Fail
      }
  }

  // A key and the position of the value behind its colon.
  function KeyAt(str: Bytes, i: nat): (r: Parsed<Bytes>)
    requires i <= |str|
    ensures r.Done? ==> i < r.next <= |str|
  {
    if i >= |str| || str[i] != QUOTE then Fail
    else
      match StringFrom(str, i + 1, []) {
        case Fail => Fail
        case Done(key, next) =>
          var colon := SkipSpace(str, next);
          if colon < |str| && str[colon] == COLON then Done(key, SkipSpace(str, colon + 1)) else Fail
      }
  }

  // A key, its value, and the position behind them.
  function EntryAt(str: Bytes, i: nat): (r: Parsed<Entry>)
    requires i <= |str|
    ensures r.Done? ==> i < r.next <= |str|
    decreases |str| - i, 1
  {
    match KeyAt(str, i)
    case Fail => Fail
    case Done(key, next) =>
      match Parse(str, next)
      case Fail => Fail
      case Done(value, end) => Done(Entry(key, value), end)
  }

  // The rest of an object, at the head of the loop.
  function EntriesFrom(str: Bytes, i: nat, res: seq<Entry>): (r: Parsed<Value>)
    requires i <= |str|
    ensures r.Done? ==> i < r.next <= |str|
    decreases |str| - i, 2
  {
    var i1 := SkipSpace(str, i);
    if i1 < |str| && str[i1] == RBRACE then Done(Table(res), i1 + 1)
    else
      match EntryAt(str, i1) {
        case Fail => Fail
        case Done(e, i2) =>
          var i3 := SkipSpace(str, i2);
          var res' := Put(res, e.key, e.value);
          if i3 < |str| && str[i3] == RBRACE then Done(Table(res'), i3 + 1)
          else if i3 < |str| && str[i3] == COMMA then EntriesFrom(str, i3 + 1, res')
          else Fail
      }
  }

  function Decode(str: Bytes): Option<Value> {
    match Parse(str, SkipSpace(str, 0))
    case Fail => None
    case Done(v, i) => if SkipSpace(str, i) < |str| then None else Some(v)
  }
}
