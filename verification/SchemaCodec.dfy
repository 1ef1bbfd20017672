/** The parser and the printer of schemas as the loops that fill maps and lists. */
module SchemaCodec {
  import opened Results
  import opened JsonValue
  import opened Schemas

  // ---------- constraints ----------

  // One entry of a property added to the constraints read so far.
  function Apply(regex: string -> bool, l: Limits, e: Entry): Result<Limits> {
    var n := AsI64(e.value);
    if e.key == "minimum" then if n.None? then Err else Ok(l.(minimum := n))
    else if e.key == "maximum" then if n.None? then Err else Ok(l.(maximum := n))
    else if e.key == "minLength" then if n.None? then Err else Ok(l.(minLength := n))
    else if e.key == "maxLength" then if n.None? then Err else Ok(l.(maxLength := n))
    else if e.key == "constant" then Ok(l.(constant := Some(ToConstant(e.value))))
    else if e.key == "pattern" then
      if e.value.Str? && regex(e.value.s) then Ok(l.(pattern := Some(e.value.s))) else Err
    else Ok(l)
  }

  lemma ApplyReadsOn(regex: string -> bool, entries: seq<Entry>, i: nat)
    requires Sorted(entries) && i < |entries| && ReadLimits(regex, entries[..i]).Ok?
    ensures ReadLimits(regex, entries[..i + 1]) == Apply(regex, ReadLimits(regex, entries[..i]).value, entries[i])
  {
    var es := entries[..i + 1];
    assert es[..i] == entries[..i];
    hide Get;
    GetOfLast(es, "minimum");
    GetOfLast(es, "maximum");
    GetOfLast(es, "minLength");
    GetOfLast(es, "maxLength");
    GetOfLast(es, "constant");
    GetOfLast(es, "pattern");
  }

  lemma BadLimitsStayBad(regex: string -> bool, entries: seq<Entry>, i: nat)
    requires i <= |entries| && ReadLimits(regex, entries[..i]).Err?
    ensures ReadLimits(regex, entries).Err?
  {
    hide Get;
    GetOfPrefix(entries, i, "minimum");
    GetOfPrefix(entries, i, "maximum");
    GetOfPrefix(entries, i, "minLength");
    GetOfPrefix(entries, i, "maxLength");
    GetOfPrefix(entries, i, "pattern");
  }

  method ParseConstraints(regex: string -> bool, property: Value) returns (r: Result<Limits>)
    requires Valid(property)
    ensures r == if property.Obj? then ReadLimits(regex, property.entries) else Err
  {
    if !property.Obj? {
      return Err;
    }
    var constraints := NO_LIMITS;
    var entries := property.entries;
    for i := 0 to |entries|
      invariant ReadLimits(regex, entries[..i]) == Ok(constraints)
    {
      ApplyReadsOn(regex, entries, i);
      var next := Apply(regex, constraints, entries[i]);
      if next.Err? {
        BadLimitsStayBad(regex, entries, i + 1);
        return Err;
      }
      constraints := next.value;
    }
    assert entries[..|entries|] == entries;
    r := Ok(constraints);
  }

  method GetConstraints(regex: string -> bool, property: Value) returns (r: Result<Limits>)
    requires Valid(property)
    ensures r == GetLimits(regex, property)
  {
    r := ParseConstraints(regex, property);
    if r.Ok? {
      var c := r.value;
      if c.minimum.Some? != c.maximum.Some? {
        return Err;
      }
      if c.minimum.Some? && c.maximum.Some? && c.maximum.value < c.minimum.value {
        return Err;
      }
      if c.minLength.Some? != c.maxLength.Some? {
        return Err;
      }
      if c.minLength.Some? && c.maxLength.Some? && c.maxLength.value < c.minLength.value {
        return Err;
      }
    }
  }

  // ---------- properties ----------

  lemma {:induction false} BadFieldsStayBad(regex: string -> bool, entries: seq<Entry>, i: nat)
    requires i <= |entries| && ParseFields(regex, entries[..i]).Err?
    ensures ParseFields(regex, entries).Err?
    decreases |entries|
  {
    if i == |entries| {
      assert entries[..i] == entries;
    } else {
      var n := |entries| - 1;
      assert entries[..n][..i] == entries[..i];
      BadFieldsStayBad(regex, entries[..n], i);
    }
  }

  lemma ItemsAlone(regex: string -> bool, item: Value)
    ensures ParseFields(regex, [Entry(KEYLESS, item)]) == ParseField(regex, KEYLESS, item)
    ensures DepthOf([Entry(KEYLESS, item)]) == Depth(item)
  {
    hide ParseField;
    assert [Entry(KEYLESS, item)][..0] == [];
    var field := ParseField(regex, KEYLESS, item);
    if field.Ok? { assert [] + field.value == field.value; }
  }

  method ParseProperty(regex: string -> bool, k: string, v: Value) returns (r: Result<seq<Schema>>)
    requires Valid(v)
    ensures r == ParseField(regex, k, v)
    decreases Depth(v), 0, 0
  {
    if !v.Obj? || Get(v.entries, "type").None? || !Get(v.entries, "type").value.Str? {
      return Err;
    }
    var kind := Get(v.entries, "type").value.s;
    if kind == "object" {
      var properties := Get(v.entries, "properties");
      if properties.Some? {
        FoundIsShallower(v.entries, "properties");
        if !properties.value.Obj? {
          return Err;
        }
        var fields := ParseProperties(regex, properties.value.entries);
        r := if fields.Err? then Err else Ok([Object(Some(k), fields.value)]);
      } else if Get(v.entries, "constant").Some? {
        var constant := ConstantValue(Get(v.entries, "constant").value);
        r := Ok([ConstantObject(Some(k), NO_LIMITS.(constant := Some(constant)))]);
      } else {
        r := Err;
      }
    } else if kind == "string" {
      var limits := GetConstraints(regex, v);
      r := if limits.Err? then Err else Ok([Text(k, limits.value)]);
    } else if kind == "integer" {
      var limits := GetConstraints(regex, v);
      r := if limits.Err? then Err else Ok([Integer(k, limits.value)]);
    } else if kind == "array" {
      r := ParseArrayProperty(regex, k, v.entries);
    } else {
      r := Ok([]);
    }
  }

  method ParseArrayProperty(regex: string -> bool, k: string, entries: seq<Entry>) returns (r: Result<seq<Schema>>)
    requires ValidEntries(entries)
    ensures r == ParseArray(regex, k, entries)
    decreases DepthOf(entries), 1, 0
  {
    var item := Get(entries, "items");
    if item.None? {
      return Err;
    }
    FoundIsShallower(entries, "items");
    ItemsAlone(regex, item.value);
    var items := ParseProperties(regex, [Entry(KEYLESS, item.value)]);
    if items.Err? {
      return Err;
    }
    var limits := GetConstraints(regex, Obj(entries));
    r := if limits.Err? then Err else Ok([Array(Some(k), items.value, limits.value)]);
  }

  method ParseProperties(regex: string -> bool, entries: seq<Entry>) returns (r: Result<seq<Schema>>)
    requires ValidEntries(entries)
    ensures r == ParseFields(regex, entries)
    decreases DepthOf(entries), 0, 1
  {
    var data := [];
    for i := 0 to |entries|
      invariant ParseFields(regex, entries[..i]) == Ok(data)
    {
      assert entries[..i + 1][..i] == entries[..i];
      EntryIsShallower(entries, i);
      var field := ParseProperty(regex, entries[i].key, entries[i].value);
      if field.Err? {
        BadFieldsStayBad(regex, entries, i + 1);
        return Err;
      }
      data := data + field.value;
    }
    assert entries[..|entries|] == entries;
    r := Ok(data);
  }

  method ParseSchema(regex: string -> bool, v: Value) returns (r: Result<Schema>)
    requires Valid(v)
    ensures r == Parse(regex, v)
  {
    if !v.Obj? || Get(v.entries, "properties").None? || !Get(v.entries, "properties").value.Obj? {
      return Err;
    }
    FoundIsShallower(v.entries, "properties");
    var fields := ParseProperties(regex, Get(v.entries, "properties").value.entries);
    r := if fields.Err? then Err else Ok(Object(None, fields.value));
  }

  // ---------- the printer ----------

  method ConvertField(s: Schema) returns (v: Value)
    requires Printable(s) && !s.Empty?
    ensures v == PrintField(s)
    decreases s, 0
  {
    match s
    case Text(_, constraints) =>
      v := Obj(Typed(PutLimits([], constraints), "string"));
    case Integer(_, constraints) =>
      v := Obj(Typed(PutLimits([], constraints), "integer"));
    case Object(_, fields) =>
      var serialized := ConvertToMap(fields);
      v := Obj(Put(Typed([], "object"), "properties", Obj(serialized)));
    case Array(_, schema, constraints) =>
      var items := ConvertToMap(schema);
      var item := Get(items, KEYLESS);
      v := if item.Some? then item.value else Str("{}");
      v := Obj(PutLimits(Put(Typed([], "array"), "items", v), constraints));
    case ConstantObject(_, constraints) =>
      v := Obj(Typed(PutLimits([], constraints), "object"));
  }

  method ConvertToMap(ss: seq<Schema>) returns (properties: seq<Entry>)
    requires AllPrintable(ss)
    ensures properties == PrintFields(ss)
    decreases ss, 0
  {
    hide PrintField, Put;
    properties := [];
    for i := 0 to |ss|
      invariant properties == PrintFields(ss[..i])
    {
      assert ss[..i + 1][..i] == ss[..i];
      if !ss[i].Empty? {
        var v := ConvertField(ss[i]);
        properties := Put(properties, Key(ss[i]), v);
      }
    }
    assert ss[..|ss|] == ss;
  }

  method PrintSchema(s: Schema) returns (v: Value)
    requires s.Object? ==> AllPrintable(s.fields)
    ensures v == Print(s)
  {
    if s.Object? {
      var fields := ConvertToMap(s.fields);
      v := Obj(Put([], "properties", Obj(fields)));
    } else {
      v := Str("{}");
    }
  }
}
