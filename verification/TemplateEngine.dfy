/** Collecting the templates of a request body and filling it, as loops over the body
    and over the map of templates. */
module TemplateEngine {
  import opened Results
  import opened JsonValue
  import opened JsonPointer
  import opened Templates
  import opened TemplateFilling

  /** Add the templates of a value to the map; `at` are the keys and positions that
      `path` is written from. */
  method ParseTemplatesInner(template: string -> bool, json: Value, path: string, ghost at: seq<string>,
                             templates: map<string, string>) returns (result: map<string, string>)
    requires path == Join(at)
    ensures result == Record(templates, Leaves(template, json, at))
    decreases json
  {
    result := templates;
    match json
    case Str(text) =>
      if template(text) {
        assert [Leaf(at, text)][..0] == [];
        result := result[path := text];
      }
    case Arr(items) =>
      for pos := 0 to |items|
        invariant result == Record(templates, ItemLeaves(template, items[..pos], at))
      {
        JoinSnoc(at, Decimal(pos));
        ghost var found := Leaves(template, items[pos], at + [Decimal(pos)]);
        RecordConcat(templates, ItemLeaves(template, items[..pos], at), found);
        assert items[..pos + 1][..pos] == items[..pos];
        result := ParseTemplatesInner(template, items[pos], path + "/" + Decimal(pos), at + [Decimal(pos)], result);
      }
      assert items[..|items|] == items;
    case Obj(entries) =>
      for i := 0 to |entries|
        invariant result == Record(templates, EntryLeaves(template, entries[..i], at))
      {
        var key, value := entries[i].key, entries[i].value;
        JoinSnoc(at, key);
        RecordConcat(templates, EntryLeaves(template, entries[..i], at), Leaves(template, value, at + [key]));
        assert entries[..i + 1][..i] == entries[..i];
        result := ParseTemplatesInner(template, value, path + "/" + key, at + [key], result);
      }
      assert entries[..|entries|] == entries;
    case _ =>
  }

  method ParseTemplates(template: string -> bool, json: Value) returns (templates: map<string, string>)
    ensures templates == Record(map[], Leaves(template, json, []))
  {
    templates := ParseTemplatesInner(template, json, "", [], map[]);
  }

  /** Fill a body. The map is visited in some order of its own. */
  method PopulateData(eval: (string, string) -> Value, json: Value, templates: map<string, string>)
    returns (filled: Value)
    ensures exists order :: Covers(templates, order) && filled == Populate(eval, json, templates, order)
  {
    filled := json;
    ghost var order: seq<string> := [];
    var remaining := templates.Keys;
    while remaining != {}
      invariant remaining <= templates.Keys
      invariant forall i :: 0 <= i < |order| ==> order[i] in templates
      invariant forall path :: path in templates ==> path in order || path in remaining
      invariant filled == Populate(eval, json, templates, order)
      decreases |remaining|
    {
      var path :| path in remaining;
      var tokens := PointerTokens(path);
      if tokens.Some? {
        filled := Set(filled, tokens.value, eval(path, templates[path]));
      }
      assert (order + [path])[..|order|] == order;
      order := order + [path];
      remaining := remaining - {path};
    }
    assert Covers(templates, order);
  }

  /** A body whose keys are plain on the way to its templates comes back with exactly
      its templates replaced. */
  method FillBody(template: string -> bool, eval: (string, string) -> Value, json: Value) returns (filled: Value)
    requires Valid(json)
    ensures PlainPaths(Leaves(template, json, [])) ==> filled == Filled(template, eval, json, [])
  {
    var templates := ParseTemplates(template, json);
    filled := PopulateData(eval, json, templates);
    ghost var order :| Covers(templates, order) && filled == Populate(eval, json, templates, order);
    if PlainPaths(Leaves(template, json, [])) {
      PlainPathsAreFilled(template, eval, json, order);
    }
  }
}
