/** What a schema means, said of its JSON text without the parsed form: which schemas are
    accepted, and which data they describe. */
module SchemaMeaning {
  import opened Results
  import opened JsonValue
  import opened Schemas
  import opened SchemaRoundTrip
  import opened SchemaCodec
  import opened DataGenerator

  // ---------- accepted schemas ----------

  predicate IsInteger(v: Value) { v.Int? && -0x8000_0000_0000_0000 <= v.n <= 0x7fff_ffff_ffff_ffff }

  // An integer or nothing stands under the keyword.
  predicate IntegerOrNone(entries: seq<Entry>, keyword: string) {
    Get(entries, keyword).Some? ==> IsInteger(Get(entries, keyword).value)
  }

  /** A lower and an upper bound, in order, or neither of them. */
  predicate Bounds(entries: seq<Entry>, low: string, high: string) {
    && IntegerOrNone(entries, low) && IntegerOrNone(entries, high)
    && (Get(entries, low).Some? <==> Get(entries, high).Some?)
    && (Get(entries, low).Some? && Get(entries, high).Some? ==>
          Get(entries, low).value.n <= Get(entries, high).value.n)
  }

  predicate Constrains(regex: string -> bool, entries: seq<Entry>) {
    && Bounds(entries, "minimum", "maximum") && Bounds(entries, "minLength", "maxLength")
    && (Get(entries, "pattern").Some? ==>
          Get(entries, "pattern").value.Str? && regex(Get(entries, "pattern").value.s))
  }

  predicate HasType(p: Value, kind: string) { p.Obj? && Get(p.entries, "type") == Some(Str(kind)) }

  /** A property the parser accepts. One of a type that is not known is accepted too, and
      ignored. */
  predicate Acceptable(regex: string -> bool, p: Value)
    decreases Depth(p), 0
  {
    && p.Obj? && Get(p.entries, "type").Some? && Get(p.entries, "type").value.Str?
    && (HasType(p, "string") || HasType(p, "integer") ==> Constrains(regex, p.entries))
    && (HasType(p, "object") ==>
          var fields := Get(p.entries, "properties");
          if fields.None? then Get(p.entries, "constant").Some?
          else FoundIsShallower(p.entries, "properties");
               fields.value.Obj? && AllAcceptable(regex, fields.value.entries))
    && (HasType(p, "array") ==>
          && Constrains(regex, p.entries) && Get(p.entries, "items").Some?
          && (FoundIsShallower(p.entries, "items"); Acceptable(regex, Get(p.entries, "items").value)))
  }

  predicate AllAcceptable(regex: string -> bool, fields: seq<Entry>)
    decreases DepthOf(fields), 1
  {
    forall i :: 0 <= i < |fields| ==> (EntryIsShallower(fields, i); Acceptable(regex, fields[i].value))
  }

  lemma LimitsAreReadIff(regex: string -> bool, entries: seq<Entry>)
    ensures GetLimits(regex, Obj(entries)).Ok? <==> Constrains(regex, entries)
  {
    hide Get;
  }

  lemma {:induction false} FieldParsesIff(regex: string -> bool, key: string, p: Value)
    ensures ParseField(regex, key, p).Ok? <==> Acceptable(regex, p)
    decreases Depth(p), 0, 0
  {
    if TypeOf(p).Ok? {
      LimitsAreReadIff(regex, p.entries);
      hide Get, GetLimits, Constrains;
      if HasType(p, "object") {
        var fields := Get(p.entries, "properties");
        if fields.Some? && fields.value.Obj? {
          FoundIsShallower(p.entries, "properties");
          FieldsParseIff(regex, fields.value.entries);
        }
      } else if HasType(p, "array") {
        var item := Get(p.entries, "items");
        if item.Some? {
          FoundIsShallower(p.entries, "items");
          FieldParsesIff(regex, KEYLESS, item.value);
        }
      }
    }
  }

  lemma {:induction false} FieldsParseIff(regex: string -> bool, fields: seq<Entry>)
    ensures ParseFields(regex, fields).Ok? <==> AllAcceptable(regex, fields)
    decreases DepthOf(fields), 1, |fields|
  {
    if fields != [] {
      var n := |fields| - 1;
      FieldsParseIff(regex, fields[..n]);
      EntryIsShallower(fields, n);
      FieldParsesIff(regex, fields[n].key, fields[n].value);
      hide ParseField, Acceptable;
      assert forall i :: 0 <= i < n ==> fields[..n][i] == fields[i];
    }
  }

  /** A schema is accepted if and only if it has properties and all of them are acceptable. */
  lemma AcceptedIff(regex: string -> bool, v: Value)
    ensures Parse(regex, v).Ok? <==>
      v.Obj? && (var fields := Get(v.entries, "properties");
                 fields.Some? && fields.value.Obj? && AllAcceptable(regex, fields.value.entries))
  {
    if v.Obj? && Get(v.entries, "properties").Some? && Get(v.entries, "properties").value.Obj? {
      FieldsParseIff(regex, Get(v.entries, "properties").value.entries);
    }
  }

  // ---------- described data ----------

  function NumberAt(entries: seq<Entry>, keyword: string, default: int): int {
    match Get(entries, keyword)
    case Some(v) => if v.Int? then v.n else default
    case None => default
  }

  /** A text: the constant, anything for a pattern, or letters of a length in the bounds. */
  ghost predicate TextDescribed(entries: seq<Entry>, s: string) {
    match Get(entries, "constant")
    case Some(v) => s == if v.Str? then v.s else "Error: invalid constant constraint"
    case None =>
      Get(entries, "pattern").Some?
      || (&& (exists n :: NumberAt(entries, "minLength", 1) <= n <= NumberAt(entries, "maxLength", 20)
                          && |s| == AsUsize(n))
          && forall k :: 0 <= k < |s| ==> 'a' <= s[k] <= 'z' || 'A' <= s[k] <= 'Z')
  }

  /** An integer: the constant, anything for a pattern, or one in the bounds. */
  predicate IntegerDescribed(entries: seq<Entry>, n: int) {
    match Get(entries, "constant")
    case Some(v) => n == if IsInteger(v) then v.n else -0x8000_0000_0000_0000
    case None =>
      if Get(entries, "pattern").Some? then IsInteger(Int(n))
      else NumberAt(entries, "minimum", 0) <= n <= NumberAt(entries, "maximum", 100)
  }

  predicate Known(p: Value) {
    HasType(p, "string") || HasType(p, "integer") || HasType(p, "object") || HasType(p, "array")
  }

  /** Data a property describes. */
  ghost predicate Described(p: Value, d: Value)
    decreases Depth(p), 0
  {
    if HasType(p, "string") then d.Str? && TextDescribed(p.entries, d.s)
    else if HasType(p, "integer") then d.Int? && IntegerDescribed(p.entries, d.n)
    else if HasType(p, "object") then
      var fields := Get(p.entries, "properties");
      if fields.None? then Get(p.entries, "constant") == Some(d)
      else
        FoundIsShallower(p.entries, "properties");
        fields.value.Obj? && d.Obj? && FieldsDescribed(fields.value.entries, d.entries)
    else
      && HasType(p, "array") && d.Arr?
      && (exists n :: NumberAt(p.entries, "minLength", 1) <= n <= NumberAt(p.entries, "maxLength", 20)
                      && |d.items| == AsRange(n))
      && forall i :: 0 <= i < |d.items| ==>
           Get(p.entries, "items").Some?
           && (FoundIsShallower(p.entries, "items"); Described(Get(p.entries, "items").value, d.items[i]))
  }

  /** An object with the properties of a known type, in order, and described data. */
  ghost predicate FieldsDescribed(fields: seq<Entry>, data: seq<Entry>)
    decreases DepthOf(fields), 1, |fields|
  {
    if fields == [] then data == []
    else
      var n, m := |fields| - 1, |data| - 1;
      EntryIsShallower(fields, n);
      if Known(fields[n].value) then
        && data != [] && data[m].key == fields[n].key && Described(fields[n].value, data[m].value)
        && FieldsDescribed(fields[..n], data[..m])
      else FieldsDescribed(fields[..n], data)
  }

  // ---------- the parsed form says the same ----------

  /** What stands under `constant` is read by its kind: an integer of 64 bits, a text, or
      any other value. */
  lemma ConstantsAreRead(regex: string -> bool, entries: seq<Entry>)
    requires GetLimits(regex, Obj(entries)).Ok?
    ensures GetLimits(regex, Obj(entries)).value.constant ==
      match Get(entries, "constant")
      case None => None
      case Some(v) =>
        Some(if IsInteger(v) then ConstantInt(v.n) else if v.Str? then ConstantStr(v.s) else ConstantValue(v))
  {
    hide Get;
  }

  lemma BoundsAreRead(regex: string -> bool, entries: seq<Entry>)
    requires GetLimits(regex, Obj(entries)).Ok?
    ensures var l := GetLimits(regex, Obj(entries)).value;
      && Default(l.minimum, 0) == NumberAt(entries, "minimum", 0)
      && Default(l.maximum, 100) == NumberAt(entries, "maximum", 100)
      && MinLength(l) == NumberAt(entries, "minLength", 1) && MaxLength(l) == NumberAt(entries, "maxLength", 20)
      && (l.pattern.Some? <==> Get(entries, "pattern").Some?)
  {
    hide Get;
  }

  lemma TextFitsIff(regex: string -> bool, entries: seq<Entry>, s: string)
    requires GetLimits(regex, Obj(entries)).Ok?
    ensures TextFits(GetLimits(regex, Obj(entries)).value, s) <==> TextDescribed(entries, s)
  {
    ConstantsAreRead(regex, entries);
    BoundsAreRead(regex, entries);
    hide Get, GetLimits, NumberAt, AsUsize;
    assert (forall c :: c in s ==> IsLetter(c)) <==> forall k :: 0 <= k < |s| ==> IsLetter(s[k]);
  }

  lemma IntegerFitsIff(regex: string -> bool, entries: seq<Entry>, n: int)
    requires GetLimits(regex, Obj(entries)).Ok?
    ensures IntegerFits(GetLimits(regex, Obj(entries)).value, n) <==> IntegerDescribed(entries, n)
  {
    ConstantsAreRead(regex, entries);
    BoundsAreRead(regex, entries);
    hide Get, GetLimits, NumberAt;
  }

  lemma UnknownIsIgnored(regex: string -> bool, key: string, p: Value)
    requires ParseField(regex, key, p).Ok?
    ensures |ParseField(regex, key, p).value| == if Known(p) then 1 else 0
  {
    hide Get, GetLimits;
  }

  /** The parsed form of a property fits exactly the data the property describes. */
  lemma {:induction false} FitsIffDescribed(regex: string -> bool, key: string, p: Value, d: Value)
    requires ParseField(regex, key, p).Ok? && Known(p)
    ensures |ParseField(regex, key, p).value| == 1
    ensures Fits(ParseField(regex, key, p).value[0], d) <==> Described(p, d)
    decreases Depth(p), 0, 0
  {
    UnknownIsIgnored(regex, key, p);
    if HasType(p, "string") {
      if d.Str? { TextFitsIff(regex, p.entries, d.s); }
      hide Get, GetLimits, TextFits, TextDescribed;
    } else if HasType(p, "integer") {
      if d.Int? { IntegerFitsIff(regex, p.entries, d.n); }
      hide Get, GetLimits, IntegerFits, IntegerDescribed;
    } else if HasType(p, "object") {
      ObjectFitsIff(regex, key, p, d);
    } else {
      ArrayFitsIff(regex, key, p, d);
    }
  }

  lemma {:induction false} ObjectFitsIff(regex: string -> bool, key: string, p: Value, d: Value)
    requires ParseField(regex, key, p).Ok? && HasType(p, "object")
    ensures |ParseField(regex, key, p).value| == 1
    ensures Fits(ParseField(regex, key, p).value[0], d) <==> Described(p, d)
    decreases Depth(p), 0, 0, 0
  {
    hide Get, GetLimits;
    var fields := Get(p.entries, "properties");
    if fields.Some? && d.Obj? {
      FoundIsShallower(p.entries, "properties");
      ConformsIffDescribed(regex, fields.value.entries, d.entries);
    }
  }

  lemma {:induction false} ArrayFitsIff(regex: string -> bool, key: string, p: Value, d: Value)
    requires ParseField(regex, key, p).Ok? && HasType(p, "array")
    ensures |ParseField(regex, key, p).value| == 1
    ensures Fits(ParseField(regex, key, p).value[0], d) <==> Described(p, d)
    decreases Depth(p), 0, 0, 0
  {
    BoundsAreRead(regex, p.entries);
    hide Get, GetLimits, NumberAt, MinLength, MaxLength, AsRange;
    var item := Get(p.entries, "items").value;
    var parsed := ParseField(regex, KEYLESS, item).value;
    FoundIsShallower(p.entries, "items");
    UnknownIsIgnored(regex, KEYLESS, item);
    if d.Arr? {
      forall i | 0 <= i < |d.items|
        ensures parsed != [] && Fits(parsed[0], d.items[i]) <==> Described(item, d.items[i])
      {
        if Known(item) {
          FitsIffDescribed(regex, KEYLESS, item, d.items[i]);
        }
      }
      ItemsFitIff(p, d, parsed);
      assert ParseField(regex, key, p).value == [Array(Some(key), parsed, GetLimits(regex, p).value)];
    }
  }

  // The elements of an array fit together when each of them does.
  lemma ItemsFitIff(p: Value, d: Value, parsed: seq<Schema>)
    requires HasType(p, "array") && d.Arr? && Get(p.entries, "items").Some? && |parsed| <= 1
    requires forall i :: 0 <= i < |d.items| ==>
      (parsed != [] && Fits(parsed[0], d.items[i]) <==> Described(Get(p.entries, "items").value, d.items[i]))
    ensures Described(p, d) <==>
      && (exists n :: NumberAt(p.entries, "minLength", 1) <= n <= NumberAt(p.entries, "maxLength", 20)
                      && |d.items| == AsRange(n))
      && (d.items != [] ==> |parsed| == 1 && forall i :: 0 <= i < |d.items| ==> Fits(parsed[0], d.items[i]))
  {
    hide Get, NumberAt, AsRange, Fits;
    assert !HasType(p, "string") && !HasType(p, "integer") && !HasType(p, "object");
    if d.items != [] && parsed == [] {
      assert !Described(Get(p.entries, "items").value, d.items[0]);
    }
  }

  lemma ConformsSnoc(ss: seq<Schema>, s: Schema, data: seq<Entry>)
    ensures Conforms(ss + [s], data) <==>
      data != [] && (var last := data[|data| - 1];
                     last.key == Key(s) && Fits(s, last.value) && Conforms(ss, data[..|data| - 1]))
  {
    hide Fits, Key;
    assert (ss + [s])[|ss|] == s && forall i :: 0 <= i < |ss| ==> (ss + [s])[i] == ss[i];
  }

  lemma NameIsKept(regex: string -> bool, key: string, p: Value)
    requires ParseField(regex, key, p).Ok? && ParseField(regex, key, p).value != []
    ensures Key(ParseField(regex, key, p).value[0]) == key
  {
    hide Get, GetLimits, ParseFields;
  }

  lemma {:induction false} ConformsIffDescribed(regex: string -> bool, fields: seq<Entry>, data: seq<Entry>)
    requires ParseFields(regex, fields).Ok?
    ensures Conforms(ParseFields(regex, fields).value, data) <==> FieldsDescribed(fields, data)
    decreases DepthOf(fields), 1, |fields|
  {
    if fields != [] {
      hide Conforms, Fits, Described, Known, ParseField, Key;
      var n, m := |fields| - 1, |data| - 1;
      var last := ParseField(regex, fields[n].key, fields[n].value);
      var before := ParseFields(regex, fields[..n]).value;
      EntryIsShallower(fields, n);
      UnknownIsIgnored(regex, fields[n].key, fields[n].value);
      if Known(fields[n].value) {
        assert last.value == [last.value[0]];
        ConformsSnoc(before, last.value[0], data);
        NameIsKept(regex, fields[n].key, fields[n].value);
        if data != [] {
          ConformsIffDescribed(regex, fields[..n], data[..m]);
          FitsIffDescribed(regex, fields[n].key, fields[n].value, data[m].value);
        }
      } else {
        assert before + last.value == before;
        ConformsIffDescribed(regex, fields[..n], data);
      }
    }
  }

  // ---------- from the text to the data ----------

  lemma KeyIsKept(fields: seq<Entry>, data: seq<Entry>)
    requires FieldsDescribed(fields, data) && fields != [] && Known(fields[|fields| - 1].value)
    ensures data != [] && data[|data| - 1].key == fields[|fields| - 1].key
    ensures Described(fields[|fields| - 1].value, data[|data| - 1].value)
    ensures FieldsDescribed(fields[..|fields| - 1], data[..|data| - 1])
  {
  }

  lemma {:induction false} DataIsInOrder(fields: seq<Entry>, data: seq<Entry>)
    requires FieldsDescribed(fields, data) && Sorted(fields)
    ensures Sorted(data) && forall key :: AllBefore(fields, key) ==> AllBefore(data, key)
    decreases |fields|
  {
    if fields != [] {
      hide Described, Known, Before;
      var n := |fields| - 1;
      if Known(fields[n].value) {
        KeyIsKept(fields, data);
        var m := |data| - 1;
        DataIsInOrder(fields[..n], data[..m]);
        assert AllBefore(fields[..n], fields[n].key);
        forall key | AllBefore(fields, key) ensures AllBefore(data, key) { assert AllBefore(fields[..n], key); }
      } else {
        DataIsInOrder(fields[..n], data);
        forall key | AllBefore(fields, key) ensures AllBefore(data, key) { assert AllBefore(fields[..n], key); }
      }
    }
  }

  lemma {:induction false} NotAmongEarlier(entries: seq<Entry>, key: string)
    requires AllBefore(entries, key)
    ensures Get(entries, key).None?
  {
    if entries != [] {
      BeforeIsStrict(entries[0].key, key);
      NotAmongEarlier(entries[1..], key);
    }
  }

  /** The data has exactly the declared properties of a known type, each with described
      data. */
  lemma {:induction false} EveryPropertyIsGiven(fields: seq<Entry>, data: seq<Entry>, key: string)
    requires FieldsDescribed(fields, data) && Sorted(fields)
    ensures Get(data, key).Some? <==> Get(fields, key).Some? && Known(Get(fields, key).value)
    ensures Get(data, key).Some? ==> Described(Get(fields, key).value, Get(data, key).value)
    decreases |fields|
  {
    if fields != [] {
      hide Described, Known, Before;
      var n := |fields| - 1;
      DataIsInOrder(fields, data);
      GetOfLast(fields, key);
      if Known(fields[n].value) {
        KeyIsKept(fields, data);
        GetOfLast(data, key);
        EveryPropertyIsGiven(fields[..n], data[..|data| - 1], key);
      } else {
        EveryPropertyIsGiven(fields[..n], data, key);
        if key == fields[n].key { NotAmongEarlier(fields[..n], key); }
      }
    }
  }

  /** A text under `constant` is what a property of type string gives, an integer what one
      of type integer gives, and any value what an object without properties gives. */
  lemma ConstantsAreGiven(fields: seq<Entry>, data: seq<Entry>, key: string, c: Value)
    requires FieldsDescribed(fields, data) && Sorted(fields)
    requires Get(fields, key).Some? && Known(Get(fields, key).value)
    requires Get(Get(fields, key).value.entries, "constant") == Some(c)
    ensures var p := Get(fields, key).value;
      && (HasType(p, "string") && c.Str? ==> Get(data, key) == Some(c))
      && (HasType(p, "integer") && IsInteger(c) ==> Get(data, key) == Some(c))
      && (HasType(p, "object") && Get(p.entries, "properties").None? ==> Get(data, key) == Some(c))
  {
    EveryPropertyIsGiven(fields, data, key);
    hide Get;
  }

  /** Every accepted schema gives, whatever the choices, an object with exactly the declared
      keys and the data its text describes, unless an array that can have an element has
      items of no known type. */
  method GenerateFor(regex: string -> bool, v: Value) returns (data: Option<Value>)
    requires Valid(v) && Parse(regex, v).Ok?
    ensures AllGenerable(Parse(regex, v).value.fields) ==> data.Some?
    ensures Supported(Parse(regex, v).value) ==> data.Some?
    ensures data.Some? ==> data.value.Obj? && Conforms(Parse(regex, v).value.fields, data.value.entries)
    ensures data.Some? ==>
      FieldsDescribed(Get(v.entries, "properties").value.entries, data.value.entries)
  {
    AcceptedIsGenerable(regex, v);
    var schema := ParseSchema(regex, v);
    data := GenerateData(regex, schema.value);
    if data.Some? {
      ConformsIffDescribed(regex, Get(v.entries, "properties").value.entries, data.value.entries);
    }
  }
}
