/** Schemas of generated data, their parser and their printer.

    Which patterns are regular expressions is left to the caller: `regex` says of
    every text whether it parses. */
module Schemas {
  import opened Results
  import opened JsonValue

  const I64_MIN: int := -0x8000_0000_0000_0000
  const I64_MAX: int := 0x7fff_ffff_ffff_ffff

  // The name under which the items of an array are parsed and printed.
  const KEYLESS := "__"

  datatype Constant = ConstantInt(n: int) | ConstantStr(s: string) | ConstantValue(v: Value)

  /** The constraints of a property, at most one for each keyword. */
  datatype Limits = Limits(
    minimum: Option<int>,
    maximum: Option<int>,
    minLength: Option<int>,
    maxLength: Option<int>,
    constant: Option<Constant>,
    pattern: Option<string>)

  const NO_LIMITS := Limits(None, None, None, None, None, None)

  datatype Schema =
    | Empty
    | Text(name: string, limits: Limits)
    | Integer(name: string, limits: Limits)
    | Object(key: Option<string>, fields: seq<Schema>)
    | ConstantObject(key: Option<string>, limits: Limits)
    | Array(key: Option<string>, items: seq<Schema>, limits: Limits)

  // ---------- constraints ----------

  predicate IsI64(n: int) { I64_MIN <= n <= I64_MAX }

  function AsI64(v: Value): Option<int> {
    if v.Int? && IsI64(v.n) then Some(v.n) else None
  }

  function Number(entries: seq<Entry>, key: string): Result<Option<int>> {
    match Get(entries, key)
    case None => Ok(None)
    case Some(v) => if AsI64(v).Some? then Ok(AsI64(v)) else Err
  }

  function ToConstant(v: Value): Constant {
    if AsI64(v).Some? then ConstantInt(AsI64(v).value)
    else if v.Str? then ConstantStr(v.s)
    else ConstantValue(v)
  }

  function ConstantOf(entries: seq<Entry>): Option<Constant> {
    match Get(entries, "constant")
    case None => None
    case Some(v) => Some(ToConstant(v))
  }

  function PatternOf(regex: string -> bool, entries: seq<Entry>): Result<Option<string>> {
    match Get(entries, "pattern")
    case None => Ok(None)
    case Some(v) => if v.Str? && regex(v.s) then Ok(Some(v.s)) else Err
  }

  /** The constraints a property states, keyword by keyword. */
  function ReadLimits(regex: string -> bool, entries: seq<Entry>): Result<Limits> {
    var minimum, maximum := Number(entries, "minimum"), Number(entries, "maximum");
    var minLength, maxLength := Number(entries, "minLength"), Number(entries, "maxLength");
    var pattern := PatternOf(regex, entries);
    if minimum.Err? || maximum.Err? || minLength.Err? || maxLength.Err? || pattern.Err? then Err
    else Ok(Limits(minimum.value, maximum.value, minLength.value, maxLength.value, ConstantOf(entries), pattern.value))
  }

  predicate Paired(low: Option<int>, high: Option<int>) {
    low.Some? == high.Some? && (low.Some? && high.Some? ==> low.value <= high.value)
  }

  predicate Consistent(l: Limits) {
    Paired(l.minimum, l.maximum) && Paired(l.minLength, l.maxLength)
  }

  function GetLimits(regex: string -> bool, property: Value): Result<Limits> {
    if !property.Obj? then Err
    else
      var l := ReadLimits(regex, property.entries);
      if l.Ok? && Consistent(l.value) then l else Err
  }

  // ---------- the parser ----------

  function TypeOf(v: Value): Result<string> {
    if v.Obj? && Get(v.entries, "type").Some? && Get(v.entries, "type").value.Str?
    then Ok(Get(v.entries, "type").value.s)
    else Err
  }

  function ParseObject(regex: string -> bool, key: string, entries: seq<Entry>): Result<seq<Schema>>
    decreases DepthOf(entries), 1, 0
  {
    var properties := Get(entries, "properties");
    if properties.Some? then
      FoundIsShallower(entries, "properties");
      if !properties.value.Obj? then Err
      else
        var fields := ParseFields(regex, properties.value.entries);
        if fields.Err? then Err else Ok([Object(Some(key), fields.value)])
    else
      var constant := Get(entries, "constant");
      if constant.None? then Err
      else Ok([ConstantObject(Some(key), NO_LIMITS.(constant := Some(ConstantValue(constant.value))))])
  }

  function ParseArray(regex: string -> bool, key: string, entries: seq<Entry>): Result<seq<Schema>>
    decreases DepthOf(entries), 1, 0
  {
    var item := Get(entries, "items");
    if item.None? then Err
    else
      FoundIsShallower(entries, "items");
      var items := ParseField(regex, KEYLESS, item.value);
      var limits := GetLimits(regex, Obj(entries));
      if items.Err? || limits.Err? then Err else Ok([Array(Some(key), items.value, limits.value)])
  }

  /** The schema of one property; nothing for a type that is not known. */
  function ParseField(regex: string -> bool, key: string, v: Value): Result<seq<Schema>>
    decreases Depth(v), 0, 0
  {
    var kind := TypeOf(v);
    if kind.Err? then Err
    else if kind.value == "object" then ParseObject(regex, key, v.entries)
    else if kind.value == "array" then ParseArray(regex, key, v.entries)
    else if kind.value == "string" then
      var limits := GetLimits(regex, v);
      if limits.Err? then Err else Ok([Text(key, limits.value)])
    else if kind.value == "integer" then
      var limits := GetLimits(regex, v);
      if limits.Err? then Err else Ok([Integer(key, limits.value)])
    else Ok([])
  }

  function ParseFields(regex: string -> bool, entries: seq<Entry>): Result<seq<Schema>>
    decreases DepthOf(entries), 0, |entries|
  {
    if entries == [] then Ok([])
    else
      var n := |entries| - 1;
      var before := ParseFields(regex, entries[..n]);
      if before.Err? then Err
      else
        var last := ParseField(regex, entries[n].key, entries[n].value);
        if last.Err? then Err else Ok(before.value + last.value)
  }

  function Parse(regex: string -> bool, v: Value): Result<Schema> {
    if !v.Obj? || Get(v.entries, "properties").None? || !Get(v.entries, "properties").value.Obj? then Err
    else
      var fields := ParseFields(regex, Get(v.entries, "properties").value.entries);
      if fields.Err? then Err else Ok(Object(None, fields.value))
  }

  // ---------- the printer ----------

  /** Every schema below the root has the name it is printed under. */
  predicate Printable(s: Schema) {
    match s
    case Object(key, fields) => key.Some? && forall i :: 0 <= i < |fields| ==> Printable(fields[i])
    case Array(key, items, _) => key.Some? && forall i :: 0 <= i < |items| ==> Printable(items[i])
    case ConstantObject(key, _) => key.Some?
    case _ => true
  }

  predicate AllPrintable(ss: seq<Schema>) {
    forall i :: 0 <= i < |ss| ==> Printable(ss[i])
  }

  function Key(s: Schema): string {
    match s
    case Empty => ""
    case Text(name, _) => name
    case Integer(name, _) => name
    case _ => if s.key.Some? then s.key.value else ""
  }

  function PutNumber(entries: seq<Entry>, key: string, n: Option<int>): seq<Entry> {
    if n.None? then entries else Put(entries, key, Int(n.value))
  }

  function PutPattern(entries: seq<Entry>, pattern: Option<string>): seq<Entry> {
    if pattern.None? then entries else Put(entries, "pattern", Str(pattern.value))
  }

  function FromConstant(c: Constant): Value {
    match c
    case ConstantInt(n) => Int(n)
    case ConstantStr(s) => Str(s)
    case ConstantValue(v) => v
  }

  function PutConstant(entries: seq<Entry>, c: Option<Constant>): seq<Entry> {
    if c.None? then entries else Put(entries, "constant", FromConstant(c.value))
  }

  /** Entries with the constraints added. */
  function PutLimits(entries: seq<Entry>, l: Limits): seq<Entry> {
    PutPattern(PutConstant(PutNumber(PutNumber(PutNumber(PutNumber(entries,
      "minimum", l.minimum), "maximum", l.maximum), "minLength", l.minLength), "maxLength", l.maxLength),
      l.constant), l.pattern)
  }

  function Typed(entries: seq<Entry>, kind: string): seq<Entry> {
    Put(entries, "type", Str(kind))
  }

  // What is printed for the items of an array: their schema, or an empty text.
  function PrintItems(items: seq<Schema>): Value
    requires AllPrintable(items)
    decreases items, 1
  {
    var printed := Get(PrintFields(items), KEYLESS);
    if printed.Some? then printed.value else Str("{}")
  }

  function PrintField(s: Schema): Value
    requires Printable(s)
    decreases s, 0
  {
    match s
    case Empty => Null
    case Text(_, l) => Obj(Typed(PutLimits([], l), "string"))
    case Integer(_, l) => Obj(Typed(PutLimits([], l), "integer"))
    case Object(_, fields) => Obj(Put(Typed([], "object"), "properties", Obj(PrintFields(fields))))
    case ConstantObject(_, l) => Obj(Typed(PutLimits([], l), "object"))
    case Array(_, items, l) => Obj(PutLimits(Put(Typed([], "array"), "items", PrintItems(items)), l))
  }

  function PrintFields(ss: seq<Schema>): seq<Entry>
    requires AllPrintable(ss)
    decreases ss, 0
  {
    if ss == [] then []
    else
      var n := |ss| - 1;
      var before := PrintFields(ss[..n]);
      if ss[n].Empty? then before else Put(before, Key(ss[n]), PrintField(ss[n]))
  }

  function Print(s: Schema): Value
    requires s.Object? ==> AllPrintable(s.fields)
  {
    if s.Object? then Obj(Put([], "properties", Obj(PrintFields(s.fields)))) else Str("{}")
  }
}
