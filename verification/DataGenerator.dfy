/** Random data for a parsed schema. Every random choice is an arbitrary value of the
    range it is drawn from, so the contracts hold for every outcome. */
module DataGenerator {
  import opened Results
  import opened JsonValue
  import opened Schemas
  import opened SchemaRoundTrip
  import opened SchemaCodec

  const USIZE: int := 0x1_0000_0000_0000_0000
  const BAD_CONSTANT := "Error: invalid constant constraint"

  function Default(n: Option<int>, default: int): int {
    if n.Some? then n.value else default
  }

  function MinLength(l: Limits): int { Default(l.minLength, 1) }

  function MaxLength(l: Limits): int { Default(l.maxLength, 20) }

  // A signed size used as a count of characters, and as the end of a range from zero.
  function AsUsize(n: int): int { if n < 0 then n + USIZE else n }

  function AsRange(n: int): nat { if n < 0 then 0 else n }

  // ---------- data that fits a schema ----------

  predicate IsLetter(c: char) { 'a' <= c <= 'z' || 'A' <= c <= 'Z' }

  ghost predicate TextLength(l: Limits, length: int) {
    exists n :: MinLength(l) <= n <= MaxLength(l) && length == AsUsize(n)
  }

  ghost predicate ArrayLength(l: Limits, length: int) {
    exists n :: MinLength(l) <= n <= MaxLength(l) && length == AsRange(n)
  }

  ghost predicate TextFits(l: Limits, s: string) {
    if l.constant.Some? then s == if l.constant.value.ConstantStr? then l.constant.value.s else BAD_CONSTANT
    else if l.pattern.Some? then true
    else TextLength(l, |s|) && forall c :: c in s ==> IsLetter(c)
  }

  predicate IntegerFits(l: Limits, n: int) {
    if l.constant.Some? then n == if l.constant.value.ConstantInt? then l.constant.value.n else I64_MIN
    else if l.pattern.Some? then IsI64(n)
    else Default(l.minimum, 0) <= n <= Default(l.maximum, 100)
  }

  ghost predicate Fits(s: Schema, v: Value) {
    match s
    case Empty => false
    case Text(_, l) => v.Str? && TextFits(l, v.s)
    case Integer(_, l) => v.Int? && IntegerFits(l, v.n)
    case Object(_, fields) =>
      && v.Obj? && |v.entries| == |fields|
      && forall i :: 0 <= i < |fields| ==> v.entries[i].key == Key(fields[i]) && Fits(fields[i], v.entries[i].value)
    case ConstantObject(_, l) => l.constant == Some(ConstantValue(v))
    case Array(_, items, l) =>
      && v.Arr? && ArrayLength(l, |v.items|)
      && (v.items != [] ==> |items| == 1 && forall i :: 0 <= i < |v.items| ==> Fits(items[0], v.items[i]))
  }

  /** Exactly the declared keys, each with a value that fits. */
  ghost predicate Conforms(ss: seq<Schema>, entries: seq<Entry>) {
    && |entries| == |ss|
    && forall i :: 0 <= i < |ss| ==> entries[i].key == Key(ss[i]) && Fits(ss[i], entries[i].value)
  }

  /** Every array that can have an element has a schema for it. */
  predicate Generable(s: Schema) {
    match s
    case Object(_, fields) => AllGenerable(fields)
    case Array(_, items, l) => MaxLength(l) <= 0 || (items != [] && AllGenerable(items))
    case _ => true
  }

  predicate AllGenerable(ss: seq<Schema>) {
    forall i :: 0 <= i < |ss| ==> Generable(ss[i])
  }

  lemma {:induction false} SupportedIsGenerable(s: Schema)
    requires Supported(s)
    ensures Generable(s)
  {
    match s
    case Object(_, fields) =>
      forall i | 0 <= i < |fields| ensures Generable(fields[i]) { SupportedIsGenerable(fields[i]); }
    case Array(_, items, _) =>
      forall i | 0 <= i < |items| ensures Generable(items[i]) { SupportedIsGenerable(items[i]); }
    case _ =>
  }

  /** Some outcome of the choices makes generation fail: an array gets an element and has
      no schema for it, or fails in one. */
  ghost predicate SomeChoiceFails(s: Schema)
    decreases s, 0
  {
    match s
    case Object(_, fields) => SomeFieldFails(fields)
    case Array(_, items, l) => SomeElementFails(items, l)
    case _ => false
  }

  ghost predicate SomeFieldFails(ss: seq<Schema>)
    decreases ss, 0
  {
    exists i :: 0 <= i < |ss| && SomeChoiceFails(ss[i])
  }

  ghost predicate SomeElementFails(items: seq<Schema>, l: Limits)
    decreases items, 1
  {
    && (exists length :: length > 0 && ArrayLength(l, length))
    && (items == [] || SomeFieldFails(items))
  }

  /** Generation fails for some choice if and only if the schema is not generable. */
  lemma {:induction false} FailsIffNotGenerable(regex: string -> bool, s: Schema)
    requires WellFormed(regex, s)
    ensures SomeChoiceFails(s) <==> !Generable(s)
  {
    match s
    case Object(_, fields) => FieldsFailIffNotGenerable(regex, fields);
    case Array(_, items, l) =>
      if items != [] {
        FieldsFailIffNotGenerable(regex, items);
      }
      if MaxLength(l) > 0 {
        assert ArrayLength(l, AsRange(MaxLength(l)));
      }
    case _ =>
  }

  lemma {:induction false} FieldsFailIffNotGenerable(regex: string -> bool, ss: seq<Schema>)
    requires AllWellFormed(regex, ss)
    ensures SomeFieldFails(ss) <==> !AllGenerable(ss)
  {
    forall i | 0 <= i < |ss| ensures SomeChoiceFails(ss[i]) <==> !Generable(ss[i]) {
      FailsIffNotGenerable(regex, ss[i]);
    }
  }

  /** The length of a text stays within its bounds for every choice exactly when the
      lower bound is not negative. */
  lemma TextLengthIsWithin(regex: string -> bool, l: Limits)
    requires ValidLimits(regex, l)
    ensures (forall n :: TextLength(l, n) ==> MinLength(l) <= n <= MaxLength(l)) <==> MinLength(l) >= 0
  {
    if MinLength(l) < 0 {
      assert TextLength(l, AsUsize(MinLength(l)));
    }
  }

  /** The length of an array stays within its bounds for every choice exactly when the
      upper bound is not negative. */
  lemma ArrayLengthIsWithin(regex: string -> bool, l: Limits)
    requires ValidLimits(regex, l)
    ensures (forall n :: ArrayLength(l, n) ==> MinLength(l) <= n <= MaxLength(l)) <==> MaxLength(l) >= 0
  {
    if MaxLength(l) < 0 {
      assert ArrayLength(l, AsRange(MaxLength(l)));
    }
  }

  // ---------- the generator ----------

  // Some integer of a range, which must not be empty.
  method RandomBetween(min: int, max: int) returns (n: int)
    requires min <= max
    ensures min <= n <= max
  {
    n := *;
    if n < min || n > max {
      n := min;
    }
  }

  method RandomText(length: nat) returns (s: string)
    ensures |s| == length && forall c :: c in s ==> IsLetter(c)
  {
    s := [];
    for i := 0 to length
      invariant |s| == i && forall c :: c in s ==> IsLetter(c)
    {
      var c: char := *;
      s := s + [if IsLetter(c) then c else 'a'];
    }
  }

  method GenerateInteger(ghost regex: string -> bool, l: Limits) returns (n: int)
    requires ValidLimits(regex, l)
    ensures IntegerFits(l, n)
    ensures IsI64(n)
  {
    if l.constant.Some? {
      n := if l.constant.value.ConstantInt? then l.constant.value.n else I64_MIN;
    } else if l.pattern.Some? {
      n := RandomBetween(I64_MIN, I64_MAX);
    } else {
      n := RandomBetween(Default(l.minimum, 0), Default(l.maximum, 100));
    }
  }

  method GenerateText(ghost regex: string -> bool, l: Limits) returns (s: string)
    requires ValidLimits(regex, l)
    ensures TextFits(l, s)
  {
    if l.constant.Some? {
      s := if l.constant.value.ConstantStr? then l.constant.value.s else BAD_CONSTANT;
    } else if l.pattern.Some? {
      s := *;
    } else {
      var size := RandomBetween(MinLength(l), MaxLength(l));
      s := RandomText(AsUsize(size));
    }
  }

  method GenerateArray(ghost regex: string -> bool, schema: seq<Schema>, l: Limits)
    returns (r: Option<seq<Value>>)
    requires ValidLimits(regex, l) && AllWellFormed(regex, schema)
    requires |schema| <= 1 && (|schema| == 1 ==> Key(schema[0]) == KEYLESS)
    ensures r.Some? ==> ArrayLength(l, |r.value|)
    ensures r.Some? && r.value != [] ==>
              |schema| == 1 && forall i :: 0 <= i < |r.value| ==> Fits(schema[0], r.value[i])
    ensures r.None? ==> SomeElementFails(schema, l)
    decreases schema, 1
  {
    var len := RandomBetween(MinLength(l), MaxLength(l));
    var values: seq<Value> := [];
    assert ArrayLength(l, AsRange(len));
    hide ArrayLength, Fits, WellFormed, SomeChoiceFails;
    for k := 0 to AsRange(len)
      invariant |values| == k
      invariant values != [] ==> |schema| == 1 && forall i :: 0 <= i < |values| ==> Fits(schema[0], values[i])
    {
      var element := GenerateObject(regex, schema);
      if element.None? {
        return None;
      }
      var value := Get(element.value, KEYLESS);
      if value.None? {
        return None;
      }
      values := values + [value.value];
    }
    r := Some(values);
  }

  method GenerateField(ghost regex: string -> bool, s: Schema) returns (r: Option<Value>)
    requires WellFormed(regex, s)
    ensures r.Some? ==> Fits(s, r.value)
    ensures r.None? ==> SomeChoiceFails(s)
    decreases s, 0
  {
    match s
    case Text(_, l) =>
      var text := GenerateText(regex, l);
      r := Some(Str(text));
    case Integer(_, l) =>
      var n := GenerateInteger(regex, l);
      r := Some(Int(n));
    case Object(_, fields) =>
      var entries := GenerateObject(regex, fields);
      r := if entries.None? then None else Some(Obj(entries.value));
    case Array(_, items, l) =>
      var values := GenerateArray(regex, items, l);
      r := if values.None? then None else Some(Arr(values.value));
    case ConstantObject(_, l) =>
      r := Some(if l.constant.Some? && l.constant.value.ConstantValue? then l.constant.value.v else Obj([]));
  }

  method GenerateObject(ghost regex: string -> bool, data: seq<Schema>) returns (r: Option<seq<Entry>>)
    requires AllWellFormed(regex, data)
    ensures r.Some? ==> Conforms(data, r.value)
    ensures r.None? ==> SomeFieldFails(data)
    decreases data, 0
  {
    hide Put, Fits, WellFormed, SomeChoiceFails, Before;
    var entries: seq<Entry> := [];
    for i := 0 to |data|
      invariant Conforms(data[..i], entries)
    {
      var v := GenerateField(regex, data[i]);
      if v.None? {
        return None;
      }
      PutLast(entries, Key(data[i]), v.value);
      entries := Put(entries, Key(data[i]), v.value);
    }
    r := Some(entries);
  }

  /** Data for a root schema: an object with exactly the declared keys, or null when the
      schema is not a root. Nothing but a schema that is not generable makes it fail. */
  method GenerateData(ghost regex: string -> bool, s: Schema) returns (r: Option<Value>)
    requires s.Object? && s.key.None? ==> AllWellFormed(regex, s.fields)
    ensures r.Some? ==> if s.Object? && s.key.None? then r.value.Obj? && Conforms(s.fields, r.value.entries)
                        else r.value == Null
    ensures r.None? ==> s.Object? && s.key.None? && SomeFieldFails(s.fields) && !AllGenerable(s.fields)
  {
    if s.Object? && s.key.None? {
      var entries := GenerateObject(regex, s.fields);
      FieldsFailIffNotGenerable(regex, s.fields);
      r := if entries.None? then None else Some(Obj(entries.value));
    } else {
      r := Some(Null);
    }
  }

  lemma AcceptedIsGenerable(regex: string -> bool, v: Value)
    requires Valid(v) && Parse(regex, v).Ok?
    ensures var s := Parse(regex, v).value;
      && s.Object? && s.key.None? && AllWellFormed(regex, s.fields)
      && (Supported(s) ==> AllGenerable(s.fields)) && (SomeFieldFails(s.fields) <==> !AllGenerable(s.fields))
  {
    var s := Parse(regex, v).value;
    FoundIsShallower(v.entries, "properties");
    FieldsAreWellFormed(regex, Get(v.entries, "properties").value.entries);
    FieldsFailIffNotGenerable(regex, s.fields);
    if Supported(s) {
      SupportedIsGenerable(s);
    }
  }
}
