/** Paths into JSON values, written as JSON pointers (sections 3 and 4 of RFC 6901). */
module JsonPointer {
  import opened Results
  import opened Decimals

  // ---------- writing a path ----------

  function Join(tokens: seq<string>): string {
    if tokens == [] then "" else "/" + tokens[0] + Join(tokens[1..])
  }

  lemma {:induction false} JoinSnoc(tokens: seq<string>, token: string)
    ensures Join(tokens + [token]) == Join(tokens) + "/" + token
  {
    if tokens == [] {
      assert [token][1..] == [];
    } else {
      assert (tokens + [token])[1..] == tokens[1..] + [token];
      JoinSnoc(tokens[1..], token);
    }
  }

  // ---------- reading a pointer ----------

  function Split(s: string): (r: seq<string>)
    ensures r != []
  {
    if s == [] then [""]
    else
      var rest := Split(s[1..]);
      if s[0] == '/' then [""] + rest else [[s[0]] + rest[0]] + rest[1..]
  }

  // Every tilde followed by the digit becomes the character.
  function Unescape(s: string, digit: char, c: char): string {
    if |s| >= 2 && s[0] == '~' && s[1] == digit then [c] + Unescape(s[2..], digit, c)
    else if s == [] then []
    else [s[0]] + Unescape(s[1..], digit, c)
  }

  function Decode(token: string): string {
    Unescape(Unescape(token, '1', '/'), '0', '~')
  }

  function DecodeAll(tokens: seq<string>): seq<string> {
    if tokens == [] then [] else [Decode(tokens[0])] + DecodeAll(tokens[1..])
  }

  function PointerTokens(path: string): Option<seq<string>> {
    if path == "" then Some([])
    else if path[0] != '/' then None
    else Some(DecodeAll(Split(path)[1..]))
  }

  // ---------- when a pointer reads back the path it was written for ----------

  predicate HasEscape(s: string, digit: char) {
    exists i :: 0 <= i < |s| - 1 && s[i] == '~' && s[i + 1] == digit
  }

  /** A key that is its own pointer token. */
  predicate Plain(token: string) {
    '/' !in token && !HasEscape(token, '1') && !HasEscape(token, '0')
  }

  predicate AllPlain(tokens: seq<string>) {
    forall i :: 0 <= i < |tokens| ==> Plain(tokens[i])
  }

  lemma EscapeInTail(s: string, digit: char)
    requires s != [] && !(|s| >= 2 && s[0] == '~' && s[1] == digit)
    ensures HasEscape(s, digit) <==> HasEscape(s[1..], digit)
  {
    if HasEscape(s, digit) {
      var i :| 0 <= i < |s| - 1 && s[i] == '~' && s[i + 1] == digit;
      assert i > 0 && s[1..][i - 1] == '~' && s[1..][i - 1 + 1] == digit;
    }
    if HasEscape(s[1..], digit) {
      var i :| 0 <= i < |s[1..]| - 1 && s[1..][i] == '~' && s[1..][i + 1] == digit;
      assert s[i + 1] == '~' && s[i + 1 + 1] == digit;
    }
  }

  lemma {:induction false} UnescapeShrinks(s: string, digit: char, c: char)
    ensures |Unescape(s, digit, c)| <= |s|
    ensures HasEscape(s, digit) ==> |Unescape(s, digit, c)| < |s|
    ensures !HasEscape(s, digit) ==> Unescape(s, digit, c) == s
  {
    if |s| >= 2 && s[0] == '~' && s[1] == digit {
      assert HasEscape(s, digit);
      hide HasEscape;
      UnescapeShrinks(s[2..], digit, c);
    } else if s != [] {
      EscapeInTail(s, digit);
      hide HasEscape;
      UnescapeShrinks(s[1..], digit, c);
      assert [s[0]] + s[1..] == s;
    }
  }

  lemma DecodeKeeps(token: string)
    ensures Decode(token) == token <==> !HasEscape(token, '1') && !HasEscape(token, '0')
  {
    UnescapeShrinks(token, '1', '/');
    UnescapeShrinks(Unescape(token, '1', '/'), '0', '~');
  }

  function Slashes(s: string): nat {
    if s == [] then 0 else (if s[0] == '/' then 1 else 0) + Slashes(s[1..])
  }

  lemma {:induction false} SlashesIn(s: string)
    ensures Slashes(s) == 0 <==> '/' !in s
  {
    if s != [] {
      SlashesIn(s[1..]);
      assert s == [s[0]] + s[1..];
    }
  }

  lemma {:induction false} SplitCounts(s: string)
    ensures |Split(s)| == 1 + Slashes(s)
  {
    if s != [] { SplitCounts(s[1..]); }
  }

  lemma {:induction false} SplitFirst(token: string, rest: string)
    requires '/' !in token
    ensures Split(token + "/" + rest) == [token] + Split(rest)
  {
    var s := token + "/" + rest;
    if token == [] {
      assert s[1..] == rest;
    } else {
      assert s[1..] == token[1..] + "/" + rest;
      SplitFirst(token[1..], rest);
      assert [token[0]] + token[1..] == token;
    }
  }

  lemma {:induction false} SplitWhole(token: string)
    requires '/' !in token
    ensures Split(token) == [token]
  {
    if token != [] {
      SplitWhole(token[1..]);
      assert [token[0]] + token[1..] == token;
    }
  }

  // The tokens of a path, read back before their escapes are decoded.
  lemma {:induction false} SplitJoin(tokens: seq<string>)
    requires forall i :: 0 <= i < |tokens| ==> '/' !in tokens[i]
    ensures Split(Join(tokens)) == [""] + tokens
  {
    if tokens != [] {
      var rest := tokens[1..];
      SplitJoin(rest);
      assert Join(tokens)[1..] == tokens[0] + Join(rest);
      if rest == [] {
        assert tokens[0] + "" == tokens[0];
        SplitWhole(tokens[0]);
      } else {
        var tail := Join(rest)[1..];
        assert Join(rest) == "/" + tail;
        assert tokens[0] + Join(rest) == tokens[0] + "/" + tail;
        SplitFirst(tokens[0], tail);
        assert Split(Join(rest)) == [""] + Split(tail);
        assert Split(tail) == ([""] + Split(tail))[1..] == ([""] + rest)[1..] == rest;
        assert [tokens[0]] + rest == tokens;
      }
      assert Join(tokens)[0] == '/';
    }
  }

  lemma {:induction false} SlashesConcat(a: string, b: string)
    ensures Slashes(a + b) == Slashes(a) + Slashes(b)
  {
    if a == [] {
      assert a + b == b;
    } else {
      assert (a + b)[1..] == a[1..] + b;
      SlashesConcat(a[1..], b);
    }
  }

  lemma {:induction false} SlashesOfJoin(tokens: seq<string>)
    ensures Slashes(Join(tokens)) >= |tokens|
    ensures Slashes(Join(tokens)) == |tokens| ==> forall i :: 0 <= i < |tokens| ==> '/' !in tokens[i]
  {
    if tokens != [] {
      SlashesOfJoin(tokens[1..]);
      var first := tokens[0];
      SlashesIn(first);
      assert Join(tokens)[1..] == first + Join(tokens[1..]);
      SlashesConcat(first, Join(tokens[1..]));
    }
  }

  lemma {:induction false} DecodeAllKeeps(tokens: seq<string>)
    ensures |DecodeAll(tokens)| == |tokens|
    ensures DecodeAll(tokens) == tokens <==> forall i :: 0 <= i < |tokens| ==> Decode(tokens[i]) == tokens[i]
  {
    if tokens != [] {
      DecodeAllKeeps(tokens[1..]);
      assert tokens == [tokens[0]] + tokens[1..];
    }
  }

  /** The pointer written for a path addresses that path exactly when no key on it
      contains a slash, a tilde before a zero, or a tilde before a one. */
  lemma PointerAddressesItsPath(tokens: seq<string>)
    ensures PointerTokens(Join(tokens)) == Some(tokens) <==> AllPlain(tokens)
  {
    if tokens == [] {
      return;
    }
    var path := Join(tokens);
    var split := Split(path)[1..];
    SplitCounts(path);
    SlashesOfJoin(tokens);
    DecodeAllKeeps(split);
    if Slashes(path) == |tokens| {
      SplitJoin(tokens);
      forall i | 0 <= i < |tokens| { DecodeKeeps(tokens[i]); }
    } else {
      assert |DecodeAll(split)| > |tokens|;
      if AllPlain(tokens) {
        SplitJoin(tokens);
        assert false;
      }
    }
  }

  lemma JoinIsInjective(a: seq<string>, b: seq<string>)
    requires AllPlain(a) && AllPlain(b) && Join(a) == Join(b)
    ensures a == b
  {
    PointerAddressesItsPath(a);
    PointerAddressesItsPath(b);
  }

  // ---------- escaped pointers ----------

  /** A key as a pointer token by section 3 of RFC 6901: ~ is written ~0 and / is written ~1. */
  function Escape(key: string): string {
    if key == [] then []
    else (if key[0] == '~' then "~0" else if key[0] == '/' then "~1" else [key[0]]) + Escape(key[1..])
  }

  // The same with only the tildes written as escapes.
  function EscapeTildes(key: string): string {
    if key == [] then [] else (if key[0] == '~' then "~0" else [key[0]]) + EscapeTildes(key[1..])
  }

  // What reading an escape or another character does to what stands behind it.
  lemma UnescapeFront(rest: string, digit: char, c: char, other: char)
    requires other != '~'
    ensures Unescape(['~', digit] + rest, digit, c) == [c] + Unescape(rest, digit, c)
    ensures Unescape([other] + rest, digit, c) == [other] + Unescape(rest, digit, c)
  {
    assert (['~', digit] + rest)[2..] == rest && ([other] + rest)[1..] == rest;
  }

  lemma UnescapeOtherEscape(rest: string)
    ensures Unescape("~0" + rest, '1', '/') == "~0" + Unescape(rest, '1', '/')
  {
    var t := "~0" + rest;
    assert t[1..] == ['0'] + rest;
    assert Unescape(t, '1', '/') == ['~'] + Unescape(['0'] + rest, '1', '/');
    hide Unescape;
    UnescapeFront(rest, '1', '/', '0');
    assert ['~'] + (['0'] + Unescape(rest, '1', '/')) == "~0" + Unescape(rest, '1', '/');
  }

  lemma {:induction false} SlashesComeBack(key: string)
    ensures Unescape(Escape(key), '1', '/') == EscapeTildes(key) && '/' !in Escape(key)
  {
    if key != [] {
      hide Unescape;
      var rest := Escape(key[1..]);
      SlashesComeBack(key[1..]);
      if key[0] == '~' {
        UnescapeOtherEscape(rest);
      } else if key[0] == '/' {
        UnescapeFront(rest, '1', '/', '/');
        assert Escape(key) == ['~', '1'] + rest;
      } else {
        UnescapeFront(rest, '1', '/', key[0]);
      }
    }
  }

  lemma {:induction false} TildesComeBack(key: string)
    ensures Unescape(EscapeTildes(key), '0', '~') == key
  {
    if key != [] {
      TildesComeBack(key[1..]);
      assert [key[0]] + key[1..] == key;
      if key[0] == '~' {
        assert EscapeTildes(key)[2..] == EscapeTildes(key[1..]);
      } else {
        assert EscapeTildes(key)[1..] == EscapeTildes(key[1..]);
      }
    }
  }

  function EscapeAll(keys: seq<string>): seq<string> {
    seq(|keys|, i requires 0 <= i < |keys| => Escape(keys[i]))
  }

  lemma {:induction false} DecodeEscaped(keys: seq<string>)
    ensures DecodeAll(EscapeAll(keys)) == keys
  {
    if keys != [] {
      SlashesComeBack(keys[0]);
      TildesComeBack(keys[0]);
      DecodeEscaped(keys[1..]);
      assert EscapeAll(keys)[1..] == EscapeAll(keys[1..]);
      assert [keys[0]] + keys[1..] == keys;
    }
  }

  /** A pointer whose keys are escaped addresses its path, whatever the keys. */
  lemma EscapedPointersAddressTheirPath(keys: seq<string>)
    ensures PointerTokens(Join(EscapeAll(keys))) == Some(keys)
  {
    var tokens := EscapeAll(keys);
    forall i | 0 <= i < |tokens| ensures '/' !in tokens[i] { SlashesComeBack(keys[i]); }
    SplitJoin(tokens);
    DecodeEscaped(keys);
    assert ([""] + tokens)[1..] == tokens;
  }

  // ---------- what other pointers address ----------

  // A pointer that does not read back its path reads one of smaller weight.
  function Weight(tokens: seq<string>): int { 2 * |Join(tokens)| - |tokens| }

  lemma {:induction false} JoinSplit(s: string)
    ensures s == Split(s)[0] + Join(Split(s)[1..])
  {
    if s != [] {
      JoinSplit(s[1..]);
      var rest := Split(s[1..]);
      assert s == [s[0]] + s[1..];
      assert Join(rest) == "/" + rest[0] + Join(rest[1..]);
    }
  }

  lemma DecodeShrinks(token: string)
    ensures |Decode(token)| <= |token|
    ensures Decode(token) != token ==> |Decode(token)| < |token|
  {
    UnescapeShrinks(token, '1', '/');
    UnescapeShrinks(Unescape(token, '1', '/'), '0', '~');
  }

  lemma {:induction false} DecodeAllShrinks(tokens: seq<string>)
    ensures |Join(DecodeAll(tokens))| <= |Join(tokens)|
    ensures DecodeAll(tokens) != tokens ==> |Join(DecodeAll(tokens))| < |Join(tokens)|
  {
    if tokens != [] {
      DecodeShrinks(tokens[0]);
      DecodeAllShrinks(tokens[1..]);
      assert tokens == [tokens[0]] + tokens[1..];
      assert DecodeAll(tokens)[1..] == DecodeAll(tokens[1..]);
    }
  }

  lemma OtherPointersAreLighter(tokens: seq<string>)
    requires !AllPlain(tokens)
    ensures var read := PointerTokens(Join(tokens)); read.Some? && Weight(read.value) < Weight(tokens)
  {
    var path := Join(tokens);
    var split := Split(path)[1..];
    SplitCounts(path);
    SlashesOfJoin(tokens);
    DecodeAllKeeps(split);
    DecodeAllShrinks(split);
    JoinSplit(path);
    PointerAddressesItsPath(tokens);
    if Slashes(path) == |tokens| {
      SplitJoin(tokens);
    }
  }

  // ---------- positions in an array ----------

  predicate IsDigit(c: char) { '0' <= c <= '9' }

  function DigitOf(c: char): Digit
    requires IsDigit(c)
  {
    c as int - '0' as int
  }

  function Decimal(n: nat): string {
    var ds := Digits(n);
    seq(|ds|, i requires 0 <= i < |ds| => ('0' as int + ds[i]) as char)
  }

  function DigitsOf(s: string): seq<Digit>
    requires forall i :: 0 <= i < |s| ==> IsDigit(s[i])
  {
    seq(|s|, i requires 0 <= i < |s| => DigitOf(s[i]))
  }

  // Positions too large for a machine word lie outside every array.
  function ParseIndex(s: string): Option<nat> {
    if s == [] || s[0] == '+' || (s[0] == '0' && |s| != 1) || (exists i :: 0 <= i < |s| && !IsDigit(s[i])) then None
    else Some(Value(DigitsOf(s)))
  }

  lemma DecimalIsPlain(n: nat)
    ensures Plain(Decimal(n))
  {
  }

  lemma IndexRoundTrip(n: nat)
    ensures ParseIndex(Decimal(n)) == Some(n)
  {
    DigitsRoundTrip(n);
    assert DigitsOf(Decimal(n)) == Digits(n);
  }

  lemma IndexIsCanonical(s: string)
    requires ParseIndex(s).Some?
    ensures s == Decimal(ParseIndex(s).value)
  {
    DigitsAreCanonical(DigitsOf(s));
  }
}
