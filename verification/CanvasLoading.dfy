/** From a document to the canvas it describes, and the proof that the migrated document describes the same canvas
    under new names: the two run alike. */
module CanvasLoading {
  import opened Common
  import opened CanvasModel
  import opened Migration
  import opened Regex
  import opened References
  import opened MigrationText
  import opened MigrationMeaning
  import opened MigrationLaws
  import Names = CanvasRenaming

  // ---------- Reading a document ----------

  function FieldsOf(v: Json): seq<Field> {
    if v.Obj? then v.fields else []
  }

  function At(v: Json, key: string): Json {
    Get(FieldsOf(v), key).GetOr(Null)
  }

  function TextOf(v: Json): string {
    if v.Str? then v.s else ""
  }

  /** The ids in a list. */
  function IdsOf(v: Json): seq<Id> {
    if v.Arr? then Texts(v.items) else []
  }

  function Texts(items: seq<Json>): (r: seq<string>)
    ensures |r| == |items|
  {
    if items == [] then [] else [TextOf(items[0])] + Texts(items[1..])
  }

  function KindOf(name: string): Kind {
    var low := Lower(name);
    if low == "begin" then Begin
    else if low == "userfillup" then UserFillUp
    else if low == "message" then Message
    else if low == "categorize" then Categorize
    else if low == "switch" then Switch
    else if low == "iteration" then Iteration
    else if low == "iterationitem" then IterationItem
    else if low == "loop" then Loop
    else if low == "loopitem" then LoopItem
    else if low == "exitloop" then ExitLoop
    else Kind.Plain
  }

  /** The texts a component's input elements are found in; which of its parameters these are depends on its class. */
  type Reads = Json -> seq<string>

  /** The component ids among the keys. */
  function RefsIn(keys: seq<string>): set<Id> {
    if keys == [] then {}
    else (var i := IndexOf('@', keys[0]); if 0 < i < |keys[0]| then {keys[0][..i]} else {}) + RefsIn(keys[1..])
  }

  function RefsOf(texts: seq<string>): set<Id> {
    if texts == [] then {} else RefsIn(KeysRead(texts[0])) + RefsOf(texts[1..])
  }

  /** `exception_handler`. */
  function HandlerOf(params: Json): CanvasModel.Handler {
    if TextOf(At(params, "exception_method")) == "" then NoHandler
    else Handler(IdsOf(At(params, "exception_goto")), TextOf(At(params, "exception_default_value")) != "")
  }

  /** The loop compares its whole-numbered cursor with the maximum, so a fraction counts as the next whole number. */
  function MaximumOf(v: Json): int {
    if v.Num? then -((-v.n).Floor) else 0
  }

  function LoadComponent(reader: Reads, c: Json): Component {
    var obj := At(c, "obj");
    var params := At(obj, "params");
    var parent := TextOf(At(c, "parent_id"));
    Component(KindOf(TextOf(At(obj, "component_name"))), IdsOf(At(c, "downstream")),
              if parent == "" then None else Some(parent),
              RefsOf(reader(params)), HandlerOf(params), MaximumOf(At(params, "maximum_loop_count")))
  }

  function ComponentsOf(dsl: Json): seq<Field> {
    FieldsOf(At(dsl, "components"))
  }

  function TableOf(reader: Reads, components: seq<Field>): map<Id, Component>
    decreases |components|
  {
    if components == [] then map[]
    else TableOf(reader, components[1..])[components[0].key := LoadComponent(reader, components[0].value)]
  }

  /** `Canvas.load`. */
  function Load(reader: Reads, dsl: Json): Canvas {
    Canvas(Keys(ComponentsOf(dsl)), TableOf(reader, ComponentsOf(dsl)))
  }

  lemma {:induction false} TableAt(reader: Reads, components: seq<Field>, i: nat)
    requires Distinct(Keys(components)) && i < |components|
    ensures var k := components[i].key;
      && k in TableOf(reader, components)
        && TableOf(reader, components)[k] == LoadComponent(reader, components[i].value)
    decreases |components|
  {
    hide LoadComponent;
    if i > 0 {
      KeysStart(components);
      KeyAt(components, 0);
      KeyAt(components, i);
      DistinctTail(components);
      TableAt(reader, components[1..], i - 1);
    }
  }

  lemma DistinctTail(components: seq<Field>)
    requires Distinct(Keys(components)) && components != []
    ensures Distinct(Keys(components[1..]))
  {
    var ids, rest := Keys(components), Keys(components[1..]);
    KeysStart(components);
    assert rest == ids[1..];
    hide Keys;
    forall i, j | 0 <= i < j < |rest| ensures rest[i] != rest[j] {
      assert ids[i + 1] != ids[j + 1];
    }
  }

  lemma {:induction false} TableKeys(reader: Reads, components: seq<Field>)
    ensures forall k :: k in TableOf(reader, components) <==> k in Keys(components)
    decreases |components|
  {
    hide LoadComponent;
    if components != [] {
      KeysStart(components);
      TableKeys(reader, components[1..]);
    }
  }

  // ---------- Documents ----------

  /** The class name is a word, so nothing in it is taken for an id or a reference. */
  predicate IsClassName(v: Json) {
    v.Str? && '{' !in v.s && ':' !in v.s
  }

  predicate AllStrings(v: Json) {
    v.Arr? && forall x <- v.items :: x.Str?
  }

  /** What `load` and `run` take for granted of a component. */
  predicate WellFormed(c: Json) {
    && c.Obj? && At(c, "obj").Obj? && IsClassName(At(At(c, "obj"), "component_name"))
    && AllStrings(At(c, "downstream"))
    && (At(c, "parent_id").Str? || Get(FieldsOf(c), "parent_id").None?)
    && var params := At(At(c, "obj"), "params");
    && params.Obj?
    && (At(params, "exception_goto").Arr? ==> AllStrings(At(params, "exception_goto")))
    && !At(params, "maximum_loop_count").Str?
  }

  /** The texts that are read from the migrated parameters are the migrated texts. */
  ghost predicate Natural(reader: Reads, ids: seq<string>) {
    forall p {:trigger reader(RewriteValue(ids, p))} :: reader(RewriteValue(ids, p)) == RewrittenTexts(ids, reader(p))
  }

  function RewrittenTexts(ids: seq<string>, texts: seq<string>): seq<string> {
    if texts == [] then [] else [RewriteText(ids, texts[0])] + RewrittenTexts(ids, texts[1..])
  }

  /** Reading a text parameter is natural, as an LLM does with its prompt. */
  lemma TextParameterIsNatural(ids: seq<string>, key: string)
    ensures Natural(p => [TextOf(At(p, key))], ids)
  {
    hide RewriteText, At, RewrittenTexts;
    var reader: Reads := p => [TextOf(At(p, key))];
    forall p {:trigger reader(RewriteValue(ids, p))}
      ensures reader(RewriteValue(ids, p)) == RewrittenTexts(ids, reader(p))
    {
      AtRewritten(ids, p, key);
      TextStaysEmpty(ids, "");
      OneText(ids, TextOf(At(p, key)));
    }
  }

  lemma OneText(ids: seq<string>, t: string)
    ensures RewrittenTexts(ids, [t]) == [RewriteText(ids, t)]
  {
  }

  // ---------- References ----------

  /** Only plain ids are in the document, so a reference never names a renamed id the migration cannot see. */
  ghost predicate PlainIds(ids: seq<string>) {
    forall id <- ids :: MigrationText.Plain(id)
  }

  lemma RenamedRef(ids: seq<string>, key: string)
    requires PlainIds(ids)
    ensures var i, j := IndexOf('@', key), IndexOf('@', RenamedKey(IdMap(ids), key));
      var renamed := RenamedKey(IdMap(ids), key);
      && (0 < i < |key| <==> 0 < j < |renamed|)
      && (0 < i < |key| ==> renamed[..j] == IdMap(ids)(key[..i]))
  {
    var f := IdMap(ids);
    var i := IndexOf('@', key);
    IndexOfFinds('@', key);
    hide IndexOf, RenameId;
    if i < |key| && MigrationText.Plain(key[..i]) {
      PlainStaysPlain(key[..i]);
      assert MigrationText.Plain(f(key[..i]));
      PlainIsDotted(f(key[..i]));
      hide Span;
      RenamedKeyIndex(f(key[..i]), key, i);
    } else {
      assert RenamedKey(f, key) == key;
    }
  }

  lemma {:induction false} RefsRenamed(ids: seq<string>, keys: seq<string>)
    requires PlainIds(ids)
    ensures RefsIn(RenamedKeys(IdMap(ids), keys)) == set r <- RefsIn(keys) :: IdMap(ids)(r)
    decreases |keys|
  {
    hide RenameId, IndexOf, RenamedKey, PlainIds;
    if keys != [] {
      RenamedRef(ids, keys[0]);
      RefsRenamed(ids, keys[1..]);
      RenamedKeysCons(IdMap(ids), keys[0], keys[1..]);
      assert [keys[0]] + keys[1..] == keys;
    }
  }

  lemma TextRefsRenamed(ids: seq<string>, t: string)
    requires PlainIds(ids)
    ensures RefsIn(KeysRead(RewriteText(ids, t))) == set r <- RefsIn(KeysRead(t)) :: IdMap(ids)(r)
  {
    hide RefsIn, KeysRead, Rewrite, RenameId;
    if t in ids {
      PlainStaysPlain(t);
      NoKeysInPlain(t);
      NoKeysInPlain(RenameId(t));
      NoRefs();
    } else {
      IdMapKeepsPlain(ids);
      ReferencesAreRenamed(IdMap(ids), t);
      RefsRenamed(ids, KeysRead(t));
    }
  }

  lemma NoRefs()
    ensures RefsIn([]) == {}
  {
  }

  lemma IdMapKeepsPlain(ids: seq<string>)
    ensures KeepsPlain(IdMap(ids))
  {
    hide MigrationText.Plain, RenameId;
    forall id | MigrationText.Plain(id) ensures MigrationText.Plain(IdMap(ids)(id)) {
      PlainStaysPlain(id);
    }
  }

  /** A plain id contains no reference. */
  lemma NoKeysInPlain(t: string)
    requires MigrationText.Plain(t)
    ensures KeysRead(t) == []
  {
    SpanIsInClass(IdChar, t);
    forall k | 0 <= k < |t| ensures t[k] != '{' && t[k] != ' ' {
    }
    hide Span;
    NoKeysInWord(t);
  }

  lemma {:induction false} NoKeysInWord(t: string)
    requires forall k :: 0 <= k < |t| ==> t[k] != '{' && t[k] != ' '
    ensures KeysRead(t) == []
    decreases |t|
  {
    if t != [] {
      NoOpenBrace(t);
      NoSpaces(t);
      assert t[0..] == t;
      OpeningCases(t);
      NoReferenceNoKey(t);
      hide Reference, Opening, Span, Key;
      NoKeysInWord(t[1..]);
    }
  }

  lemma {:induction false} RefsOfRewritten(ids: seq<string>, texts: seq<string>)
    requires PlainIds(ids)
    ensures RefsOf(RewrittenTexts(ids, texts)) == set r <- RefsOf(texts) :: IdMap(ids)(r)
    decreases |texts|
  {
    hide RefsIn, KeysRead, RewriteText, RenameId, PlainIds;
    if texts != [] {
      TextRefsRenamed(ids, texts[0]);
      RefsOfRewritten(ids, texts[1..]);
    }
  }

  // ---------- The fields of a component ----------

  lemma AtRewritten(ids: seq<string>, v: Json, key: string)
    ensures At(RewriteValue(ids, v), key) == RewriteValue(ids, At(v, key))
  {
    GetRewritten(ids, FieldsOf(v), key);
    hide Get;
  }

  lemma ClassNameStays(ids: seq<string>, v: Json)
    requires IsClassName(v)
    ensures RewriteText(ids, v.s) == v.s && KindOf(RenameClass(v.s)) == KindOf(v.s)
  {
    ClassKinds();
    NotRenamed(v.s);
    assert v.s[..|v.s|] == v.s && v.s[|v.s|..] == [];
    RewriteSkipsPlainText(IdMap(ids), v.s, |v.s|);
    RewriteOfNothing(IdMap(ids));
    hide Rewrite, KindOf, RenameId;
  }

  lemma NotRenamed(s: string)
    requires ':' !in s
    ensures RenameId(s) == s
  {
    var a, b := |SPLITTER| - 1, |HIERARCHICAL_MERGER| - 1;
    assert SPLITTER[a] == ':' && HIERARCHICAL_MERGER[b] == ':';
    assert |s| > a ==> s[a] in s;
    assert |s| > b ==> s[b] in s;
  }

  lemma ClassKinds()
    ensures KindOf("Splitter") == KindOf("TokenChunker") == KindOf("HierarchicalMerger") == KindOf("TitleChunker")
        == Kind.Plain
  {
    var a, b, c, d := Lower("Splitter"), Lower("TokenChunker"), Lower("HierarchicalMerger"), Lower("TitleChunker");
    assert |a| == 8 && a[0] == 's' && a[1] == 'p';
    assert |b| == 12 && b[0] == 't';
    assert |c| == 18;
    assert |d| == 12 && d[0] == 't';
  }

  lemma TextStaysEmpty(ids: seq<string>, t: string)
    ensures RewriteText(ids, t) == "" <==> t == ""
  {
    RewriteOfNothing(IdMap(ids));
    if t != "" {
      HeadKept(IdMap(ids), t);
    }
    hide Rewrite;
  }

  lemma {:induction false} IdsRewritten(ids: seq<string>, items: seq<Json>)
    requires forall x <- items :: x.Str? && x.s in ids
    ensures Texts(RewriteItems(ids, items)) == Names.Ren(IdMap(ids), Texts(items))
    decreases |items|
  {
    hide RenameId, Rewrite;
    if items != [] {
      assert items[0] in items && forall x <- items[1..] :: x in items;
      IdsRewritten(ids, items[1..]);
    }
  }

  lemma {:induction false} TextsAt(items: seq<Json>, k: nat)
    requires k < |items|
    ensures Texts(items)[k] == TextOf(items[k])
  {
    if k > 0 {
      TextsAt(items[1..], k - 1);
    }
  }

  /** All entries of the list are component ids. */
  ghost predicate NamesComponents(ids: seq<string>, v: Json) {
    forall x <- IdsOf(v) :: x in ids
  }

  lemma ItemsAreIds(ids: seq<string>, v: Json)
    requires AllStrings(v) && NamesComponents(ids, v)
    ensures forall x <- v.items :: x.Str? && x.s in ids
  {
    forall k | 0 <= k < |v.items| ensures v.items[k].s in ids {
      TextsAt(v.items, k);
      assert v.items[k] in v.items && Texts(v.items)[k] in Texts(v.items);
    }
  }

  /** The links of a migrated component, loaded. */
  lemma LinksLoaded(ids: seq<string>, a: Json, b: Json)
    requires AllStrings(a) && NamesComponents(ids, a) && SameLinks(ids, Some(a), Some(b))
    ensures IdsOf(b) == Names.Ren(IdMap(ids), IdsOf(a))
  {
    ItemsAreIds(ids, a);
    hide RenameId;
    var r := Names.Ren(IdMap(ids), IdsOf(a));
    forall k | 0 <= k < |a.items| ensures IdsOf(b)[k] == r[k] {
      TextsAt(a.items, k);
      TextsAt(b.items, k);
      Names.RenAt(IdMap(ids), IdsOf(a), k);
      assert a.items[k] in a.items && SameLink(ids, a.items[k], b.items[k]);
    }
  }

  /** What the migration leaves of a component's object: its parameters rewritten, its class renamed. */
  lemma ObjectIsRewritten(ids: seq<string>, c: Json)
    requires c.Obj? && At(c, "obj").Obj? && At(At(c, "obj"), "component_name").Str?
    requires NormalizeComponent(ids, c).Ok?
    ensures var r := NormalizeComponent(ids, c).value;
      && At(At(r, "obj"), "params") == RewriteValue(ids, At(At(c, "obj"), "params"))
      && At(At(r, "obj"), "component_name") == Str(RenameClass(RewriteText(ids, At(At(c, "obj"), "component_name").s)))
  {
    var f0 := RewriteFields(ids, c.fields);
    assert RewriteValue(ids, c) == Obj(f0);
    AtRewritten(ids, c, "obj");
    AtRewritten(ids, At(c, "obj"), "params");
    AtRewritten(ids, At(c, "obj"), "component_name");
    var obj := At(Obj(f0), "obj");
    assert obj == RewriteValue(ids, At(c, "obj")) && obj.Obj?;
    hide RewriteValue, RewriteFields, Get, Set, RewriteText, MapListAt, MapIdAt, RenameClass;
    ClassIsRenamed(f0);
    var f1 := RenameObj(f0).value;
    MapListFixes(ids, f1, "downstream");
    var f2 := MapListAt(ids, f1, "downstream").value;
    MapListFixes(ids, f2, "upstream");
    var f3 := MapListAt(ids, f2, "upstream").value;
    MapIdFrame(ids, f3, "parent_id");
    assert NormalizeComponent(ids, c) == Ok(Obj(MapIdAt(ids, f3, "parent_id")));
  }

  lemma ClassIsRenamed(fields: seq<Field>)
    requires At(Obj(fields), "obj").Obj? && At(At(Obj(fields), "obj"), "component_name").Str?
    ensures RenameObj(fields).Ok?
    ensures var obj, r := At(Obj(fields), "obj"), At(Obj(RenameObj(fields).value), "obj");
      && At(r, "params") == At(obj, "params")
      && At(r, "component_name") == Str(RenameClass(At(obj, "component_name").s))
  {
    var obj := At(Obj(fields), "obj").fields;
    var name := At(Obj(obj), "component_name");
    var renamed := Set(obj, "component_name", Str(RenameClass(name.s)));
    GetSet(obj, "component_name", Str(RenameClass(name.s)), "params");
    GetSet(obj, "component_name", Str(RenameClass(name.s)), "component_name");
    GetSet(fields, "obj", Obj(renamed), "obj");
    hide Get, Set, RenameClass;
  }

  /** What a component names is in the document. */
  ghost predicate Resolves(ids: seq<string>, c: Json) {
    var params := At(At(c, "obj"), "params");
    && NamesComponents(ids, At(c, "downstream"))
    && NamesComponents(ids, At(params, "exception_goto"))
    && (TextOf(At(c, "parent_id")) != "" ==> TextOf(At(c, "parent_id")) in ids)
  }

  lemma HandlerIsRewritten(ids: seq<string>, params: Json)
    requires params.Obj? && NamesComponents(ids, At(params, "exception_goto"))
    requires At(params, "exception_goto").Arr? ==> AllStrings(At(params, "exception_goto"))
    ensures Names.SameHandler(IdMap(ids), HandlerOf(params), HandlerOf(RewriteValue(ids, params)))
  {
    var goto := At(params, "exception_goto");
    AtRewritten(ids, params, "exception_method");
    AtRewritten(ids, params, "exception_goto");
    AtRewritten(ids, params, "exception_default_value");
    TextStaysEmpty(ids, TextOf(At(params, "exception_method")));
    TextStaysEmpty(ids, TextOf(At(params, "exception_default_value")));
    if goto.Arr? {
      ItemsAreIds(ids, goto);
      IdsRewritten(ids, goto.items);
    }
    NamesNothing(IdMap(ids));
    hide At, RewriteText, Texts, Names.Ren, RewriteItems, RewriteFields;
  }

  lemma NamesNothing(f: string -> string)
    ensures Names.Ren(f, []) == []
  {
  }

  lemma ParentIsRewritten(ids: seq<string>, c: Json)
    requires WellFormed(c) && NormalizeComponent(ids, c).Ok?
    ensures var r, p := NormalizeComponent(ids, c).value, Get(c.fields, "parent_id");
      At(r, "parent_id") == if p.None? then Null else Str(IdMap(ids)(RewriteText(ids, p.value.s)))
  {
    var f0 := RewriteFields(ids, c.fields);
    assert RewriteValue(ids, c) == Obj(f0);
    GetRewritten(ids, c.fields, "parent_id");
    hide RewriteFields, Get, Set, RewriteText, RenameObj, MapListAt, MapIdAt, RenameId;
    RenameObjFixes(f0);
    var f1 := RenameObj(f0).value;
    MapListFixes(ids, f1, "downstream");
    var f2 := MapListAt(ids, f1, "downstream").value;
    MapListFixes(ids, f2, "upstream");
    var f3 := MapListAt(ids, f2, "upstream").value;
    assert NormalizeComponent(ids, c) == Ok(Obj(MapIdAt(ids, f3, "parent_id")));
    IdIsMapped(ids, f3, "parent_id");
  }

  lemma IdIsMapped(ids: seq<string>, fields: seq<Field>, key: string)
    ensures Get(fields, key) == None ==> Get(MapIdAt(ids, fields, key), key) == None
    ensures var v := At(Obj(fields), key);
      v.Str? ==> At(Obj(MapIdAt(ids, fields, key)), key) == Str(IdMap(ids)(v.s))
  {
    match Get(fields, key)
    case Some(Str(s)) => GetSet(fields, key, Str(IdMap(ids)(s)), key);
    case _ =>
  }

  lemma ParentIsLoaded(ids: seq<string>, c: Json)
    requires WellFormed(c) && Resolves(ids, c) && NormalizeComponent(ids, c).Ok?
    ensures var a, b := TextOf(At(c, "parent_id")), TextOf(At(NormalizeComponent(ids, c).value, "parent_id"));
      b == if a == "" then "" else IdMap(ids)(a)
  {
    ParentIsRewritten(ids, c);
    TextStaysEmpty(ids, "");
    EmptyIdStays();
    RenamedIsNew(TextOf(At(c, "parent_id")));
    hide NormalizeComponent, RenameId, Get, Rewrite;
  }

  lemma EmptyIdStays()
    ensures RenameId("") == ""
  {
  }

  // ---------- The same canvas ----------

  /** A migrated component is loaded as the original one under the new names. */
  lemma ComponentIsSame(reader: Reads, ids: seq<string>, c: Json)
    requires WellFormed(c) && Resolves(ids, c) && PlainIds(ids) && Natural(reader, ids)
    requires NormalizeComponent(ids, c).Ok?
    ensures Names.SameComponent(IdMap(ids), LoadComponent(reader, c),
        LoadComponent(reader, NormalizeComponent(ids, c).value))
  {
    hide *;
    var r := NormalizeComponent(ids, c).value;
    var obj := At(c, "obj");
    var params := At(obj, "params");
    FormFacts(ids, c);
    ObjectIsRewritten(ids, c);
    ComponentKeepsLinks(ids, c);
    ParentIsLoaded(ids, c);
    DownstreamIsLoaded(ids, c, r);
    KindStays(ids, At(obj, "component_name"), At(At(r, "obj"), "component_name"));
    NotEmptied(ids, TextOf(At(c, "parent_id")));
    HandlerIsRewritten(ids, params);
    AtRewritten(ids, params, "maximum_loop_count");
    MaximumStays(ids, At(params, "maximum_loop_count"));
    NaturalAt(reader, ids, params);
    RefsOfRewritten(ids, reader(params));
    SameParts(reader, IdMap(ids), c, r);
  }

  lemma FormFacts(ids: seq<string>, c: Json)
    requires WellFormed(c) && Resolves(ids, c)
    ensures var obj := At(c, "obj");
      var params := At(obj, "params");
      && c.Obj? && obj.Obj? && IsClassName(At(obj, "component_name")) && At(obj, "component_name").Str?
      && params.Obj? && NamesComponents(ids, At(params, "exception_goto"))
      && (At(params, "exception_goto").Arr? ==> AllStrings(At(params, "exception_goto")))
      && !At(params, "maximum_loop_count").Str?
  {
    hide At, NamesComponents, AllStrings;
  }

  lemma KindStays(ids: seq<string>, a: Json, b: Json)
    requires IsClassName(a) && b == Str(RenameClass(RewriteText(ids, a.s)))
    ensures KindOf(TextOf(b)) == KindOf(TextOf(a))
  {
    ClassNameStays(ids, a);
    hide KindOf, RenameClass, RewriteText;
  }

  lemma NotEmptied(ids: seq<string>, id: string)
    ensures id != "" ==> IdMap(ids)(id) != ""
  {
  }

  lemma MaximumStays(ids: seq<string>, v: Json)
    ensures MaximumOf(RewriteValue(ids, v)) == MaximumOf(v)
  {
  }

  lemma NaturalAt(reader: Reads, ids: seq<string>, p: Json)
    requires Natural(reader, ids)
    ensures reader(RewriteValue(ids, p)) == RewrittenTexts(ids, reader(p))
  {
  }

  lemma DownstreamIsLoaded(ids: seq<string>, c: Json, r: Json)
    requires WellFormed(c) && Resolves(ids, c) && SameStructure(ids, c, r)
    ensures IdsOf(At(r, "downstream")) == Names.Ren(IdMap(ids), IdsOf(At(c, "downstream")))
  {
    hide RenameId, Get, Names.Ren, NamesComponents, Texts;
    LinksLoaded(ids, At(c, "downstream"), At(r, "downstream"));
  }

  lemma SameParts(reader: Reads, f: string -> string, c: Json, r: Json)
    requires var a, b := At(c, "obj"), At(r, "obj");
      && KindOf(TextOf(At(b, "component_name"))) == KindOf(TextOf(At(a, "component_name")))
      && Names.SameHandler(f, HandlerOf(At(a, "params")), HandlerOf(At(b, "params")))
      && MaximumOf(At(At(b, "params"), "maximum_loop_count")) == MaximumOf(At(At(a, "params"), "maximum_loop_count"))
      && RefsOf(reader(At(b, "params"))) == (set x <- RefsOf(reader(At(a, "params"))) :: f(x))
    requires IdsOf(At(r, "downstream")) == Names.Ren(f, IdsOf(At(c, "downstream")))
    requires TextOf(At(r, "parent_id"))
        == (if TextOf(At(c, "parent_id")) == "" then "" else f(TextOf(At(c, "parent_id"))))
    requires TextOf(At(c, "parent_id")) != "" ==> f(TextOf(At(c, "parent_id"))) != ""
    ensures Names.SameComponent(f, LoadComponent(reader, c), LoadComponent(reader, r))
  {
    hide At, KindOf, HandlerOf, MaximumOf, RefsOf, IdsOf, Names.Ren, Names.SameHandler;
  }

  lemma {:induction false} TableIsPointwise(ids: seq<string>, all: seq<Field>, done: seq<Field>, k: nat)
    requires ids == Keys(all) && Distinct(ids) && NoCollision(ids)
    requires k <= |all| == |done| + (|all| - k)
    requires forall i :: 0 <= i < k ==> Migrated(ids, all[i], done[i])
    requires NormalizeComponents(ids, done, all[k..]).Ok?
    ensures var r := NormalizeComponents(ids, done, all[k..]).value;
      |r| == |all| && forall i :: 0 <= i < |all| ==> Migrated(ids, all[i], r[i])
    decreases |all| - k
  {
    hide NormalizeComponent, RenameId, NormalizeComponents, Set, Keys;
    var rest := all[k..];
    if k < |all| {
      var f := all[k];
      KeyAt(all, k);
      assert f.key in ids && rest[0] == f && rest[1..] == all[k + 1..];
      TableStep(ids, done, rest);
      var c := NormalizeComponent(ids, f.value).value;
      forall i | 0 <= i < |done| ensures done[i].key != RenameId(f.key) {
        KeyAt(all, i);
        assert Migrated(ids, all[i], done[i]) && ids[i] != ids[k] && ids[i] in ids;
      }
      NewKey(done, RenameId(f.key));
      SetFresh(done, RenameId(f.key), c);
      TableIsPointwise(ids, all, done + [Field(RenameId(f.key), c)], k + 1);
    } else {
      TableStep(ids, done, rest);
    }
  }

  ghost predicate Migrated(ids: seq<string>, a: Field, b: Field) {
    b.key == RenameId(a.key) && NormalizeComponent(ids, a.value) == Ok(b.value)
  }

  /** A document whose components are well formed, name components only, and have plain ids that do not collide. */
  ghost predicate Sound(dsl: Json) {
    var components := ComponentsOf(dsl);
    var ids := Keys(components);
    && dsl.Obj? && At(dsl, "components").Obj? && Distinct(ids) && NoCollision(ids) && PlainIds(ids)
    && forall f <- components :: WellFormed(f.value) && Resolves(ids, f.value)
  }

  lemma ComponentRenames(reader: Reads, dsl: Json, i: nat)
    requires Sound(dsl) && Normalize(dsl).Ok? && Natural(reader, Keys(ComponentsOf(dsl)))
    requires i < |ComponentsOf(dsl)|
    ensures var f, id := IdMap(Keys(ComponentsOf(dsl))), ComponentsOf(dsl)[i].key;
      var g, h := Load(reader, dsl), Load(reader, Normalize(dsl).value);
      && id in g.cpns && f(id) in h.cpns && Names.SameComponent(f, g.cpns[id], h.cpns[f(id)])
  {
    var components, table := ComponentsOf(dsl), ComponentsOf(Normalize(dsl).value);
    var ids := Keys(components);
    TableIsMigrated(dsl);
    assert components[i] in components;
    hide NormalizeComponent, Normalize, RenameId, TableOf, Keys, WellFormed, Resolves, Natural, LoadComponent,
      PlainIds, NoCollision;
    hide Names.SameComponent;
    KeysAreRenamed(ids, components, table);
    KeyAt(components, i);
    assert Migrated(ids, components[i], table[i]);
    assert ids[i] in ids;
    TableAt(reader, components, i);
    TableAt(reader, table, i);
    ComponentIsSame(reader, ids, components[i].value);
  }

  lemma OrderRenames(dsl: Json)
    requires Sound(dsl) && Normalize(dsl).Ok?
    ensures var ids := Keys(ComponentsOf(dsl));
      Keys(ComponentsOf(Normalize(dsl).value)) == Names.Ren(IdMap(ids), ids)
  {
    TableIsMigrated(dsl);
    hide Normalize, Migrated, RenameId, WellFormed, Resolves, PlainIds;
    KeysAreRenamed(Keys(ComponentsOf(dsl)), ComponentsOf(dsl), ComponentsOf(Normalize(dsl).value));
  }

  lemma KeyIsAt(fields: seq<Field>, id: string) returns (i: nat)
    requires id in Keys(fields)
    ensures i < |fields| && fields[i].key == id
  {
    i :| 0 <= i < |Keys(fields)| && Keys(fields)[i] == id;
    KeyAt(fields, i);
  }

  lemma NoCollisionIsInjective(reader: Reads, dsl: Json)
    requires Sound(dsl)
    ensures Names.Injective(IdMap(Keys(ComponentsOf(dsl))), Load(reader, dsl))
  {
    TableKeys(reader, ComponentsOf(dsl));
    hide RenameId, TableOf, Keys, WellFormed, Resolves, PlainIds;
  }

  /** The migrated document describes the canvas of the original one, with every id renamed. */
  lemma MigrationRenamesTheCanvas(reader: Reads, dsl: Json)
    requires Sound(dsl) && Normalize(dsl).Ok? && Natural(reader, Keys(ComponentsOf(dsl))) && Closed(Load(reader, dsl))
    ensures Names.Renames(IdMap(Keys(ComponentsOf(dsl))), Load(reader, dsl), Load(reader, Normalize(dsl).value))
  {
    hide Normalize, NamedFillUp, TableOf, Keys, Sound, Natural, Closed, RenameId, Names.Injective,
      Names.SameComponent, ComponentsOf;
    var ids := Keys(ComponentsOf(dsl));
    var f, g, h := IdMap(ids), Load(reader, dsl), Load(reader, Normalize(dsl).value);
    OrderRenames(dsl);
    TableKeys(reader, ComponentsOf(dsl));
    NoCollisionIsInjective(reader, dsl);
    forall id <- g.cpns ensures f(id) in h.cpns && Names.SameComponent(f, g.cpns[id], h.cpns[f(id)]) {
      var i := KeyIsAt(ComponentsOf(dsl), id);
      ComponentRenames(reader, dsl, i);
    }
    forall id <- g.cpns ensures NamedFillUp(f(id)) == NamedFillUp(id) {
      FormNamesAreKept(id);
    }
  }

  lemma TableIsMigrated(dsl: Json)
    requires Normalize(dsl).Ok? && dsl.Obj? && At(dsl, "components").Obj?
    requires Distinct(Keys(ComponentsOf(dsl))) && NoCollision(Keys(ComponentsOf(dsl)))
    ensures var a, b := ComponentsOf(dsl), ComponentsOf(Normalize(dsl).value);
      |b| == |a| && forall i :: 0 <= i < |a| ==> Migrated(Keys(a), a[i], b[i])
  {
    var components := ComponentsOf(dsl);
    var ids := Keys(components);
    hide NormalizeComponents, NormalizeRest, RenameId, WellFormed, Resolves, Migrated, SameLinks;
    assert Get(dsl.fields, "components") == Some(Obj(components));
    assert components[0..] == components;
    TableIsPointwise(ids, components, [], 0);
    var table := NormalizeComponents(ids, [], components).value;
    var fields := Set(dsl.fields, "components", Obj(table));
    GetSet(dsl.fields, "components", Obj(table), "components");
    RestKeepsPath(ids, fields);
  }

  lemma KeysAreRenamed(ids: seq<string>, a: seq<Field>, b: seq<Field>)
    requires ids == Keys(a) && Distinct(ids) && NoCollision(ids)
    requires |b| == |a| && forall i :: 0 <= i < |a| ==> Migrated(ids, a[i], b[i])
    ensures Keys(b) == Names.Ren(IdMap(ids), ids) && Distinct(Keys(b))
  {
    hide RenameId, NormalizeComponent, Keys;
    var r := Names.Ren(IdMap(ids), ids);
    forall i | 0 <= i < |a| ensures Keys(b)[i] == r[i] && ids[i] == a[i].key && r[i] == RenameId(ids[i])
        && ids[i] in ids {
      KeyAt(a, i);
      KeyAt(b, i);
      Names.RenAt(IdMap(ids), ids, i);
      assert Migrated(ids, a[i], b[i]);
    }
  }

  /** The path a document stores. */
  function StoredPath(dsl: Json): seq<Id> {
    IdsOf(At(dsl, "path"))
  }

  /** The migrated document stores the same path under the new ids. */
  lemma StoredPathIsRenamed(dsl: Json)
    requires Sound(dsl) && Normalize(dsl).Ok?
    requires var path := At(dsl, "path"); AllStrings(path) && NamesComponents(Keys(ComponentsOf(dsl)), path)
    ensures StoredPath(Normalize(dsl).value) == Names.Ren(IdMap(Keys(ComponentsOf(dsl))), StoredPath(dsl))
  {
    var components := ComponentsOf(dsl);
    var ids := Keys(components);
    hide Normalize, WellFormed, Resolves, PlainIds, RenameId, NamesComponents, Names.Ren, Texts, SameTable, NoCollision;
    assert Get(dsl.fields, "components") == Some(Obj(components));
    MigrationKeepsTheGraph(dsl, components);
    LinksLoaded(ids, At(dsl, "path"), At(Normalize(dsl).value, "path"));
  }

  /** Migrating a document does not change how its canvas runs: each from the path it stores, with the same cursors,
      path, launches, events, queue and outcome of the migrated canvas are those of the original one under the new ids,
      after every number of batches and whatever the components do. */
  lemma MigratedCanvasRunsAlike(
      reader: Reads, dsl: Json, o: Oracle, q: Oracle, a: map<Id, int>, b: map<Id, int>, n: nat)
    requires Sound(dsl) && Normalize(dsl).Ok? && Natural(reader, Keys(ComponentsOf(dsl))) && Closed(Load(reader, dsl))
    requires var f, g := IdMap(Keys(ComponentsOf(dsl))), Load(reader, dsl);
      && Names.SameOracle(f, g, o, q) && Names.SameCursors(f, g, a, b)
      && "begin" in g.cpns
    requires var path := At(dsl, "path"); AllStrings(path) && NamesComponents(Keys(ComponentsOf(dsl)), path)
    ensures var f, g, h := IdMap(Keys(ComponentsOf(dsl))), Load(reader, dsl), Load(reader, Normalize(dsl).value);
      Names.SameState(f, g, Steps(g, o, Begun(StoredPath(dsl), a), n),
                      Steps(h, q, Begun(StoredPath(Normalize(dsl).value), b), n))
  {
    MigrationRenamesTheCanvas(reader, dsl);
    BeginStays(Keys(ComponentsOf(dsl)));
    StoredPathIsRenamed(dsl);
    PathIsInCanvas(reader, dsl);
    hide *;
    var g, h := Load(reader, dsl), Load(reader, Normalize(dsl).value);
    Names.RenamedRun(IdMap(Keys(ComponentsOf(dsl))), g, h, o, q, StoredPath(dsl), a, b, n);
  }

  lemma PathIsInCanvas(reader: Reads, dsl: Json)
    requires NamesComponents(Keys(ComponentsOf(dsl)), At(dsl, "path"))
    ensures InCanvas(Load(reader, dsl), StoredPath(dsl))
  {
    TableKeys(reader, ComponentsOf(dsl));
    hide TableOf, Keys, ComponentsOf;
  }

  lemma BeginStays(ids: seq<string>)
    ensures IdMap(ids)("begin") == "begin"
  {
    NotRenamed("begin");
    hide RenameId;
  }
}
