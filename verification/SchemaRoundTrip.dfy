/** Printing a parsed schema and parsing it again. */
module SchemaRoundTrip {
  import opened Results
  import opened JsonValue
  import opened Schemas

  // ---------- what the parser gives ----------

  predicate IsNumber(n: Option<int>) { n.Some? ==> IsI64(n.value) }

  /** A constant of the kind its value calls for: an integer of 64 bits, a text, or any
      other value. */
  predicate ValidConstant(c: Constant) {
    match c
    case ConstantInt(n) => IsI64(n)
    case ConstantStr(_) => true
    case ConstantValue(v) => !v.Str? && !(v.Int? && IsI64(v.n))
  }

  predicate ValidLimits(regex: string -> bool, l: Limits) {
    && Consistent(l)
    && IsNumber(l.minimum) && IsNumber(l.maximum) && IsNumber(l.minLength) && IsNumber(l.maxLength)
    && (l.constant.Some? ==> ValidConstant(l.constant.value))
    && (l.pattern.Some? ==> regex(l.pattern.value))
  }

  predicate WellFormed(regex: string -> bool, s: Schema) {
    match s
    case Empty => false
    case Text(_, l) => ValidLimits(regex, l)
    case Integer(_, l) => ValidLimits(regex, l)
    case Object(key, fields) => key.Some? && AllWellFormed(regex, fields)
    case ConstantObject(key, l) =>
      && key.Some? && l.constant.Some? && l.constant.value.ConstantValue?
      && l == NO_LIMITS.(constant := l.constant)
    case Array(key, items, l) =>
      && key.Some? && ValidLimits(regex, l)
      && |items| <= 1 && (|items| == 1 ==> WellFormed(regex, items[0]) && Key(items[0]) == KEYLESS)
  }

  /** Well-formed schemas in the order of their names, each name once. */
  predicate AllWellFormed(regex: string -> bool, ss: seq<Schema>) {
    && (forall i :: 0 <= i < |ss| ==> WellFormed(regex, ss[i]))
    && forall i, j :: 0 <= i < j < |ss| ==> Before(Key(ss[i]), Key(ss[j]))
  }

  predicate NamedBefore(ss: seq<Schema>, key: string) {
    forall i :: 0 <= i < |ss| ==> Before(Key(ss[i]), key)
  }

  lemma {:induction false} FieldIsWellFormed(regex: string -> bool, key: string, v: Value)
    requires Valid(v) && ParseField(regex, key, v).Ok?
    ensures var ss := ParseField(regex, key, v).value;
      |ss| <= 1 && (|ss| == 1 ==> WellFormed(regex, ss[0]) && Key(ss[0]) == key)
    decreases Depth(v), 0
  {
    hide Get;
    var kind := TypeOf(v).value;
    if kind == "object" {
      if Get(v.entries, "properties").Some? {
        FoundIsShallower(v.entries, "properties");
        FieldsAreWellFormed(regex, Get(v.entries, "properties").value.entries);
      }
    } else if kind == "array" {
      FoundIsShallower(v.entries, "items");
      FieldIsWellFormed(regex, KEYLESS, Get(v.entries, "items").value);
    }
  }

  lemma {:induction false} FieldsAreWellFormed(regex: string -> bool, entries: seq<Entry>)
    requires ValidEntries(entries) && ParseFields(regex, entries).Ok?
    ensures AllWellFormed(regex, ParseFields(regex, entries).value)
    ensures forall key :: AllBefore(entries, key) ==> NamedBefore(ParseFields(regex, entries).value, key)
    decreases DepthOf(entries), 1, |entries|
  {
    if entries != [] {
      var n := |entries| - 1;
      FieldsAreWellFormed(regex, entries[..n]);
      FieldIsWellFormed(regex, entries[n].key, entries[n].value);
      assert AllBefore(entries[..n], entries[n].key);
      forall key | AllBefore(entries, key) ensures NamedBefore(ParseFields(regex, entries).value, key) {
        assert AllBefore(entries[..n], key);
      }
    }
  }

  // ---------- reading back what was printed ----------

  function NumberValue(n: Option<int>): Option<Value> {
    if n.None? then None else Some(Int(n.value))
  }

  // The value a keyword has in the printed constraints.
  function Stated(l: Limits, key: string): Option<Value> {
    if key == "minimum" then NumberValue(l.minimum)
    else if key == "maximum" then NumberValue(l.maximum)
    else if key == "minLength" then NumberValue(l.minLength)
    else if key == "maxLength" then NumberValue(l.maxLength)
    else if key == "constant" && l.constant.Some? then Some(FromConstant(l.constant.value))
    else if key == "pattern" && l.pattern.Some? then Some(Str(l.pattern.value))
    else None
  }

  lemma GetPutNumber(entries: seq<Entry>, key: string, n: Option<int>, other: string)
    ensures Get(PutNumber(entries, key, n), other) ==
      if other == key && n.Some? then Some(Int(n.value)) else Get(entries, other)
  {
    if n.Some? { GetPut(entries, key, Int(n.value), other); }
  }

  lemma GetPutLimits(entries: seq<Entry>, l: Limits, key: string)
    ensures Get(PutLimits(entries, l), key) == if Stated(l, key).Some? then Stated(l, key) else Get(entries, key)
  {
    hide Get, Put;
    var a := PutNumber(entries, "minimum", l.minimum);
    GetPutNumber(entries, "minimum", l.minimum, key);
    var b := PutNumber(a, "maximum", l.maximum);
    GetPutNumber(a, "maximum", l.maximum, key);
    var c := PutNumber(b, "minLength", l.minLength);
    GetPutNumber(b, "minLength", l.minLength, key);
    var d := PutNumber(c, "maxLength", l.maxLength);
    GetPutNumber(c, "maxLength", l.maxLength, key);
    if l.constant.Some? { GetPut(d, "constant", FromConstant(l.constant.value), key); }
    var e := PutConstant(d, l.constant);
    if l.pattern.Some? { GetPut(e, "pattern", Str(l.pattern.value), key); }
  }

  // Entries that say of the six keywords exactly what the constraints say.
  predicate States(entries: seq<Entry>, l: Limits) {
    && Get(entries, "minimum") == Stated(l, "minimum") && Get(entries, "maximum") == Stated(l, "maximum")
    && Get(entries, "minLength") == Stated(l, "minLength") && Get(entries, "maxLength") == Stated(l, "maxLength")
    && Get(entries, "constant") == Stated(l, "constant") && Get(entries, "pattern") == Stated(l, "pattern")
  }

  lemma StatedLimitsAreRead(regex: string -> bool, entries: seq<Entry>, l: Limits)
    requires ValidLimits(regex, l) && States(entries, l)
    ensures GetLimits(regex, Obj(entries)) == Ok(l)
  {
    hide Get;
  }

  lemma GetScalar(l: Limits, kind: string, key: string)
    ensures Get(Typed(PutLimits([], l), kind), key) == if key == "type" then Some(Str(kind)) else Stated(l, key)
  {
    hide Put, PutLimits, Stated;
    GetPutLimits([], l, key);
    GetPut(PutLimits([], l), "type", Str(kind), key);
  }

  lemma ScalarIsRead(l: Limits, kind: string)
    ensures var entries := Typed(PutLimits([], l), kind);
      States(entries, l) && TypeOf(Obj(entries)) == Ok(kind) && Get(entries, "properties").None?
  {
    assert Stated(l, "properties") == None;
    hide Get, Put, PutLimits, Typed, Stated;
    GetScalar(l, kind, "type");
    GetScalar(l, kind, "properties");
    GetScalar(l, kind, "minimum");
    GetScalar(l, kind, "maximum");
    GetScalar(l, kind, "minLength");
    GetScalar(l, kind, "maxLength");
    GetScalar(l, kind, "constant");
    GetScalar(l, kind, "pattern");
  }

  function ArrayEntries(l: Limits, items: Value): seq<Entry> {
    PutLimits(Put(Typed([], "array"), "items", items), l)
  }

  lemma GetArray(l: Limits, items: Value, key: string)
    ensures Get(ArrayEntries(l, items), key) ==
      if Stated(l, key).Some? then Stated(l, key)
      else if key == "items" then Some(items)
      else if key == "type" then Some(Str("array"))
      else None
  {
    hide Put, PutLimits, Stated;
    GetPut([], "type", Str("array"), key);
    GetPut(Typed([], "array"), "items", items, key);
    GetPutLimits(Put(Typed([], "array"), "items", items), l, key);
  }

  lemma ArrayIsRead(l: Limits, items: Value)
    ensures var entries := ArrayEntries(l, items);
      States(entries, l) && TypeOf(Obj(entries)) == Ok("array") && Get(entries, "items") == Some(items)
  {
    assert Stated(l, "type") == None && Stated(l, "items") == None;
    hide Get, Stated, ArrayEntries;
    GetArray(l, items, "type");
    GetArray(l, items, "items");
    GetArray(l, items, "minimum");
    GetArray(l, items, "maximum");
    GetArray(l, items, "minLength");
    GetArray(l, items, "maxLength");
    GetArray(l, items, "constant");
    GetArray(l, items, "pattern");
  }

  lemma ObjectIsRead(fields: Value)
    ensures var entries := Put(Typed([], "object"), "properties", fields);
      TypeOf(Obj(entries)) == Ok("object") && Get(entries, "properties") == Some(fields)
  {
    hide Put;
    GetPut([], "type", Str("object"), "type");
    GetPut(Typed([], "object"), "properties", fields, "type");
    GetPut(Typed([], "object"), "properties", fields, "properties");
  }

  // ---------- the round trip ----------

  /** Every array has items of a type the parser knows. */
  predicate Supported(s: Schema) {
    match s
    case Object(_, fields) => AllSupported(fields)
    case Array(_, items, _) => items != [] && AllSupported(items)
    case _ => true
  }

  predicate AllSupported(ss: seq<Schema>) {
    forall i :: 0 <= i < |ss| ==> Supported(ss[i])
  }

  lemma {:induction false} WellFormedIsPrintable(regex: string -> bool, s: Schema)
    requires WellFormed(regex, s)
    ensures Printable(s)
  {
    match s
    case Object(_, fields) =>
      forall i | 0 <= i < |fields| ensures Printable(fields[i]) { WellFormedIsPrintable(regex, fields[i]); }
    case Array(_, items, _) =>
      if items != [] { WellFormedIsPrintable(regex, items[0]); }
    case _ =>
  }

  lemma AllArePrintable(regex: string -> bool, ss: seq<Schema>)
    requires AllWellFormed(regex, ss)
    ensures AllPrintable(ss)
  {
    forall i | 0 <= i < |ss| ensures Printable(ss[i]) { WellFormedIsPrintable(regex, ss[i]); }
  }

  // The outcome of parsing a printed schema again.
  function Reparsed(ss: seq<Schema>): Result<seq<Schema>> {
    if AllSupported(ss) then Ok(ss) else Err
  }

  lemma SingletonIsPrinted(item: Schema)
    requires Printable(item) && !item.Empty? && Key(item) == KEYLESS
    ensures PrintItems([item]) == PrintField(item)
  {
    hide PrintField;
    assert [item][..0] == [];
    assert PrintFields([item]) == Put([], KEYLESS, PrintField(item));
    GetPut([], KEYLESS, PrintField(item), KEYLESS);
  }

  lemma {:induction false} ArrayRoundTrip(regex: string -> bool, s: Schema)
    requires WellFormed(regex, s) && Printable(s) && s.Array?
    ensures ParseField(regex, Key(s), PrintField(s)) == Reparsed([s])
    decreases s, 0
  {
    var items := PrintItems(s.items);
    var entries := ArrayEntries(s.limits, items);
    assert PrintField(s) == Obj(entries);
    ArrayIsRead(s.limits, items);
    StatedLimitsAreRead(regex, entries, s.limits);
    assert ParseField(regex, KEYLESS, items) == if s.items == [] then Err else Reparsed(s.items) by {
      if s.items != [] {
        assert s.items == [s.items[0]];
        SingletonIsPrinted(s.items[0]);
        FieldRoundTrip(regex, s.items[0]);
      }
    }
    hide Get, GetLimits, PrintItems, PrintField, ArrayEntries;
    assert ParseField(regex, Key(s), Obj(entries)) == ParseArray(regex, Key(s), entries) by {
      assert "array" != "object";
    }
    assert [s][0] == s;
    assert AllSupported([s]) == (s.items != [] && AllSupported(s.items));
  }

  lemma ScalarRoundTrip(regex: string -> bool, s: Schema)
    requires (s.Text? || s.Integer?) && ValidLimits(regex, s.limits)
    ensures ParseField(regex, Key(s), PrintField(s)) == Ok([s])
  {
    var kind := if s.Text? then "string" else "integer";
    var entries := Typed(PutLimits([], s.limits), kind);
    assert PrintField(s) == Obj(entries);
    ScalarIsRead(s.limits, kind);
    StatedLimitsAreRead(regex, entries, s.limits);
    hide Get, GetLimits, PrintField, PutLimits;
  }

  lemma {:induction false} FieldRoundTrip(regex: string -> bool, s: Schema)
    requires WellFormed(regex, s) && Printable(s)
    ensures ParseField(regex, Key(s), PrintField(s)) == Reparsed([s])
    decreases s, 1
  {
    hide Get, Put, PutLimits;
    assert [s][0] == s;
    assert AllSupported([s]) == Supported(s);
    match s
    case Text(_, _) =>
      ScalarRoundTrip(regex, s);
    case Integer(_, _) =>
      ScalarRoundTrip(regex, s);
    case Object(_, fields) =>
      ObjectIsRead(Obj(PrintFields(fields)));
      FieldsRoundTrip(regex, fields);
    case ConstantObject(_, l) =>
      ScalarIsRead(l, "object");
    case Array(_, _, _) =>
      ArrayRoundTrip(regex, s);
  }

  lemma ParseSnoc(regex: string -> bool, entries: seq<Entry>, key: string, value: Value)
    ensures ParseFields(regex, entries + [Entry(key, value)]) ==
      (var a, b := ParseFields(regex, entries), ParseField(regex, key, value);
       if a.Ok? && b.Ok? then Ok(a.value + b.value) else Err)
  {
    hide ParseField;
    assert (entries + [Entry(key, value)])[..|entries|] == entries;
  }

  lemma PrefixIsWellFormed(regex: string -> bool, ss: seq<Schema>)
    requires ss != [] && AllWellFormed(regex, ss) && AllPrintable(ss)
    ensures AllWellFormed(regex, ss[..|ss| - 1]) && AllPrintable(ss[..|ss| - 1])
    ensures NamedBefore(ss[..|ss| - 1], Key(ss[|ss| - 1]))
  {
    hide WellFormed, Printable, Key, Before;
  }

  // Schemas in the order of their names are printed in that order.
  lemma {:induction false} PrintedInOrder(regex: string -> bool, ss: seq<Schema>, key: string)
    requires AllWellFormed(regex, ss) && AllPrintable(ss) && NamedBefore(ss, key)
    ensures AllBefore(PrintFields(ss), key)
    decreases |ss|
  {
    if ss != [] {
      hide WellFormed, Printable, PrintField, Put, Before;
      var n := |ss| - 1;
      PrefixIsWellFormed(regex, ss);
      PrintedInOrder(regex, ss[..n], key);
      PrintedInOrder(regex, ss[..n], Key(ss[n]));
      PutLast(PrintFields(ss[..n]), Key(ss[n]), PrintField(ss[n]));
    }
  }

  lemma PrintSnoc(regex: string -> bool, ss: seq<Schema>)
    requires ss != [] && AllWellFormed(regex, ss) && AllPrintable(ss)
    ensures var n := |ss| - 1;
      && Printable(ss[n]) && AllPrintable(ss[..n])
      && PrintFields(ss) == PrintFields(ss[..n]) + [Entry(Key(ss[n]), PrintField(ss[n]))]
  {
    var n := |ss| - 1;
    assert WellFormed(regex, ss[n]) && !ss[n].Empty?;
    hide WellFormed, PrintField, Put, Before;
    PrefixIsWellFormed(regex, ss);
    PrintedInOrder(regex, ss[..n], Key(ss[n]));
    PutLast(PrintFields(ss[..n]), Key(ss[n]), PrintField(ss[n]));
  }

  lemma NothingRoundTrips(regex: string -> bool)
    ensures ParseFields(regex, PrintFields([])) == Reparsed([])
  {
    assert AllSupported([]);
  }

  lemma LastIsWellFormed(regex: string -> bool, ss: seq<Schema>)
    requires ss != [] && AllWellFormed(regex, ss)
    ensures WellFormed(regex, ss[|ss| - 1])
  {
  }

  lemma {:induction false} FieldsRoundTrip(regex: string -> bool, ss: seq<Schema>)
    requires AllWellFormed(regex, ss) && AllPrintable(ss)
    ensures ParseFields(regex, PrintFields(ss)) == Reparsed(ss)
    decreases ss, 0
  {
    hide *;
    if ss == [] {
      NothingRoundTrips(regex);
    } else {
      var n := |ss| - 1;
      var last := ss[n];
      LastIsWellFormed(regex, ss);
      PrefixIsWellFormed(regex, ss);
      PrintSnoc(regex, ss);
      FieldsRoundTrip(regex, ss[..n]);
      FieldRoundTrip(regex, last);
      ParseSnoc(regex, PrintFields(ss[..n]), Key(last), PrintField(last));
      SupportedSnoc(ss[..n], last);
      assert ss == ss[..n] + [last];
    }
  }

  lemma SupportedSnoc(ss: seq<Schema>, s: Schema)
    ensures Reparsed(ss + [s]) ==
      if Reparsed(ss).Ok? && Reparsed([s]).Ok? then Ok(Reparsed(ss).value + Reparsed([s]).value) else Err
  {
    hide Supported;
    assert [s][0] == s && (ss + [s])[|ss|] == s;
    assert forall i :: 0 <= i < |ss| ==> (ss + [s])[i] == ss[i];
  }

  /** Parsing gives a schema that, printed and parsed again, comes back unchanged
      exactly when every array in it has items of a known type; otherwise the second
      parse fails. */
  lemma SchemaRoundTrips(regex: string -> bool, v: Value)
    requires Valid(v) && Parse(regex, v).Ok?
    ensures var s := Parse(regex, v).value;
      && AllPrintable(s.fields)
      && Parse(regex, Print(s)) == if Supported(s) then Ok(s) else Err
  {
    var fields := Get(v.entries, "properties").value.entries;
    FoundIsShallower(v.entries, "properties");
    FieldsAreWellFormed(regex, fields);
    var s := Parse(regex, v).value;
    AllArePrintable(regex, s.fields);
    FieldsRoundTrip(regex, s.fields);
    GetPut([], "properties", Obj(PrintFields(s.fields)), "properties");
  }

  lemma SingleIsValid(key: string, v: Value)
    requires Valid(v)
    ensures ValidEntries([Entry(key, v)])
  {
  }

  function UnknownArray(kind: string): seq<Entry> {
    [Entry("items", Obj([Entry("type", Str(kind))])), Entry("type", Str("array"))]
  }

  lemma UnknownArrayIsValid(kind: string)
    ensures ValidEntries(UnknownArray(kind))
  {
    SingleIsValid("type", Str(kind));
    assert "items"[0] == 'i' && "type"[0] == 't' && Before("items", "type");
  }

  lemma UnknownItemsAreAccepted(regex: string -> bool, name: string, kind: string)
    requires kind !in ["object", "array", "string", "integer"]
    ensures ParseField(regex, name, Obj(UnknownArray(kind))) == Ok([Array(Some(name), [], NO_LIMITS)])
  {
    var entries := UnknownArray(kind);
    var items := entries[0].value;
    assert ParseField(regex, KEYLESS, items) == Ok([]);
    forall key ensures Get(entries, key) ==
                       (if key == "items" then Some(items) else Get([Entry("type", Str("array"))], key)) {
      assert entries[1..] == [Entry("type", Str("array"))];
    }
    forall key ensures Get([Entry("type", Str("array"))], key) ==
                       (if key == "type" then Some(Str("array")) else None) {
    }
    hide Get;
    assert GetLimits(regex, Obj(entries)) == Ok(NO_LIMITS);
  }

  /** A schema with an array of items of an unknown type is accepted, but what is
      printed for it is not. */
  lemma UnknownItemsDoNotTravel(regex: string -> bool, name: string, kind: string)
    requires kind !in ["object", "array", "string", "integer"]
    ensures var v := Obj([Entry("properties", Obj([Entry(name, Obj(UnknownArray(kind)))]))]);
      && Parse(regex, v) == Ok(Object(None, [Array(Some(name), [], NO_LIMITS)]))
      && Parse(regex, Print(Parse(regex, v).value)) == Err
  {
    var entries := UnknownArray(kind);
    var property := [Entry(name, Obj(entries))];
    var v := Obj([Entry("properties", Obj(property))]);
    UnknownItemsAreAccepted(regex, name, kind);
    ParseSnoc(regex, [], name, Obj(entries));
    assert [] + property == property;
    assert Get(v.entries, "properties") == Some(Obj(property));
    UnknownArrayIsValid(kind);
    SingleIsValid(name, Obj(entries));
    SingleIsValid("properties", Obj(property));
    hide ParseField, UnknownArray;
    SchemaRoundTrips(regex, v);
    var s := Parse(regex, v).value;
    assert !Supported(s.fields[0]);
  }
}
