/** Writing a component down as it stands in a document, and loading it back. */
module CanvasDocuments {
  import opened Common
  import opened CanvasModel
  import opened Migration
  import opened MigrationText
  import opened MigrationMeaning
  import opened CanvasLoading

  /** The class name of a component as the editor writes it; `LLM` stands for all other classes. */
  function ClassName(k: Kind): string {
    match k
    case Begin => "Begin"
    case UserFillUp => "UserFillUp"
    case Message => "Message"
    case Categorize => "Categorize"
    case Switch => "Switch"
    case Iteration => "Iteration"
    case IterationItem => "IterationItem"
    case Loop => "Loop"
    case LoopItem => "LoopItem"
    case ExitLoop => "ExitLoop"
    case Plain => "LLM"
  }

  lemma LowerNames()
    ensures Lower("Begin") == "begin" && Lower("UserFillUp") == "userfillup" && Lower("Message") == "message"
    ensures Lower("Categorize") == "categorize" && Lower("Switch") == "switch" && Lower("Iteration") == "iteration"
    ensures Lower("IterationItem") == "iterationitem" && Lower("Loop") == "loop" && Lower("LoopItem") == "loopitem"
    ensures Lower("ExitLoop") == "exitloop" && Lower("LLM") == "llm"
  {
  }

  /** A class is told by its name in any case, and every name that is none of these is an ordinary class. */
  lemma KindIsClass(k: Kind, name: string)
    ensures k != Kind.Plain ==> (KindOf(name) == k <==> Lower(name) == Lower(ClassName(k)))
    ensures KindOf(ClassName(k)) == k
  {
    LowerNames();
    hide Lower;
  }

  /** An integer cursor has reached the maximum exactly if it is not below the number that was configured. */
  lemma MaximumIsReached(v: Json, cursor: int)
    requires v.Num?
    ensures cursor >= MaximumOf(v) <==> cursor as real >= v.n
  {
  }

  // ---------- References ----------

  /** The key names the component `id`: a non-empty text in front of the first `@`. */
  ghost predicate Names(key: string, id: Id) {
    id != "" && '@' !in id && exists rest :: Leads(key, id, rest)
  }

  ghost predicate Leads(key: string, id: Id, rest: string) {
    key == id + "@" + rest
  }

  lemma LeadingId(key: string, id: Id, rest: string)
    requires Leads(key, id, rest) && '@' !in id
    ensures |id| < |key| && IndexOf('@', key) == |id| && key[..|id|] == id
  {
    assert key[|id|] == '@' && forall j :: 0 <= j < |id| ==> key[j] == id[j];
    IndexOfIn('@', key, |id|);
    hide IndexOf;
  }

  lemma LedAt(key: string, i: nat)
    requires i < |key| && key[i] == '@'
    ensures Leads(key, key[..i], key[i + 1..])
  {
    assert key == key[..i] + ([key[i]] + key[i + 1..]);
    assert key[..i] + "@" + key[i + 1..] == key[..i] + ([key[i]] + key[i + 1..]);
  }

  lemma LedByIndex(key: string)
    requires IndexOf('@', key) < |key|
    ensures var i := IndexOf('@', key); Leads(key, key[..i], key[i + 1..]) && '@' !in key[..i]
  {
    hide IndexOf, Leads;
    IndexOfFirst('@', key);
    LedAt(key, IndexOf('@', key));
  }

  lemma {:induction false} IndexOfFirst(c: char, s: string)
    ensures var i := IndexOf(c, s);
      (i < |s| ==> s[i] == c) && c !in s[..i]
  {
    if s != [] && s[0] != c {
      IndexOfFirst(c, s[1..]);
      assert s[..IndexOf(c, s)] == [s[0]] + s[1..][..IndexOf(c, s[1..])];
    }
  }

  lemma NamesByIndex(key: string, id: Id)
    ensures Names(key, id) <==> 0 < IndexOf('@', key) < |key| && key[..IndexOf('@', key)] == id
  {
    hide IndexOf, Leads;
    var i := IndexOf('@', key);
    if Names(key, id) {
      var rest :| Leads(key, id, rest);
      LeadingId(key, id, rest);
    }
    if 0 < i < |key| && key[..i] == id {
      LedByIndex(key);
      assert Leads(key, id, key[i + 1..]);
    }
  }

  lemma {:induction false} RefsInKeys(keys: seq<string>, id: Id)
    ensures id in RefsIn(keys) <==> exists key <- keys :: Names(key, id)
  {
    if keys != [] {
      NamesByIndex(keys[0], id);
      RefsInKeys(keys[1..], id);
      hide Names, IndexOf;
      assert keys == [keys[0]] + keys[1..];
    }
  }

  /** Some reference in the text names the component. */
  ghost predicate TextNames(t: string, id: Id) {
    exists key <- KeysRead(t) :: Names(key, id)
  }

  lemma TextNamesRefs(t: string, id: Id)
    ensures TextNames(t, id) <==> id in RefsIn(KeysRead(t))
  {
    hide Names, KeysRead, RefsIn;
    RefsInKeys(KeysRead(t), id);
  }

  lemma RefsStart(texts: seq<string>)
    requires texts != []
    ensures RefsOf(texts) == RefsIn(KeysRead(texts[0])) + RefsOf(texts[1..])
  {
    hide KeysRead, RefsIn;
  }

  /** A component waits for exactly the components that a reference in one of its texts names. */
  lemma {:induction false} RefsAreNamed(texts: seq<string>, id: Id)
    ensures id in RefsOf(texts) <==> exists t <- texts :: TextNames(t, id)
    decreases |texts|
  {
    hide TextNames, RefsIn, KeysRead;
    if texts != [] {
      RefsStart(texts);
      TextNamesRefs(texts[0], id);
      RefsAreNamed(texts[1..], id);
      hide RefsOf;
      assert texts == [texts[0]] + texts[1..];
    }
  }

  // ---------- A component, written and loaded ----------

  function Strs(ids: seq<Id>): (r: seq<Json>)
    ensures |r| == |ids|
  {
    if ids == [] then [] else [Str(ids[0])] + Strs(ids[1..])
  }

  function ParamsFor(c: Component): Json {
    Obj([Field("exception_method", Str(if c.handler.Handler? then "goto" else ""))]
        + [Field("exception_goto", Arr(Strs(if c.handler.Handler? then c.handler.goto else [])))]
        + [Field("exception_default_value", Str(if c.handler.Handler? && c.handler.hasDefault then "sorry" else ""))]
        + [Field("maximum_loop_count", Num(c.maxCount as real))])
  }

  function Written(c: Component): Json {
    Obj([Field("obj", Obj([Field("component_name", Str(ClassName(c.kind))), Field("params", ParamsFor(c))]))]
        + [Field("downstream", Arr(Strs(c.downstream)))]
        + [Field("parent_id", Str(c.parent.GetOr("")))])
  }

  lemma {:induction false} StrsRead(ids: seq<Id>)
    ensures Texts(Strs(ids)) == ids
  {
    if ids != [] {
      StrsRead(ids[1..]);
      assert Strs(ids)[0] == Str(ids[0]) && Strs(ids)[1..] == Strs(ids[1..]);
      assert ids == [ids[0]] + ids[1..];
    }
  }

  lemma GetHead(key: string, v: Json, rest: seq<Field>, other: string)
    ensures Get([Field(key, v)] + rest, other) == if other == key then Some(v) else Get(rest, other)
  {
    assert ([Field(key, v)] + rest)[1..] == rest;
  }

  lemma ParamsAt(c: Component)
    ensures var p := ParamsFor(c);
      && At(p, "exception_method") == Str(if c.handler.Handler? then "goto" else "")
      && At(p, "exception_goto") == Arr(Strs(if c.handler.Handler? then c.handler.goto else []))
      && At(p, "exception_default_value")
         == Str(if c.handler.Handler? && c.handler.hasDefault then "sorry" else "")
      && At(p, "maximum_loop_count") == Num(c.maxCount as real)
  {
    var f := ParamsFor(c).fields;
    assert |f| == 4;
    assert f == [f[0]] + ([f[1]] + ([f[2]] + ([f[3]] + [])));
    FourFields(f[0].key, f[0].value, f[1].key, f[1].value, f[2].key, f[2].value, f[3].key, f[3].value);
    hide Get, Strs;
  }

  lemma FourFields(a: string, x: Json, b: string, y: Json, c: string, z: Json, d: string, w: Json)
    requires a != b && a != c && a != d && b != c && b != d && c != d
    ensures var f := [Field(a, x)] + ([Field(b, y)] + ([Field(c, z)] + ([Field(d, w)] + [])));
      Get(f, a) == Some(x) && Get(f, b) == Some(y) && Get(f, c) == Some(z) && Get(f, d) == Some(w)
  {
    var f3 := [Field(d, w)] + [];
    var f2 := [Field(c, z)] + f3;
    var f1 := [Field(b, y)] + f2;
    hide Get;
    GetHead(a, x, f1, a);
    forall k | k == b || k == c || k == d ensures Get([Field(a, x)] + f1, k) == Get(f1, k) {
      GetHead(a, x, f1, k);
    }
    GetHead(b, y, f2, b);
    GetHead(b, y, f2, c);
    GetHead(b, y, f2, d);
    GetHead(c, z, f3, c);
    GetHead(c, z, f3, d);
    GetHead(d, w, [], d);
  }

  lemma WrittenAt(c: Component)
    ensures var w := Written(c);
      && At(At(w, "obj"), "component_name") == Str(ClassName(c.kind))
      && At(At(w, "obj"), "params") == ParamsFor(c)
      && At(w, "downstream") == Arr(Strs(c.downstream)) && At(w, "parent_id") == Str(c.parent.GetOr(""))
  {
    var f := Written(c).fields;
    hide Get, Strs, ClassName, ParamsFor;
    assert |f| == 3;
    assert f == [f[0]] + ([f[1]] + ([f[2]] + []));
    GetHead("obj", f[0].value, [f[1]] + ([f[2]] + []), "obj");
    GetHead("obj", f[0].value, [f[1]] + ([f[2]] + []), "downstream");
    GetHead("obj", f[0].value, [f[1]] + ([f[2]] + []), "parent_id");
    GetHead("downstream", f[1].value, [f[2]] + [], "downstream");
    GetHead("downstream", f[1].value, [f[2]] + [], "parent_id");
    GetHead("parent_id", f[2].value, [], "parent_id");
    var o := f[0].value.fields;
    assert o == [o[0]] + ([o[1]] + []);
    GetHead("component_name", o[0].value, [o[1]] + [], "component_name");
    GetHead("component_name", o[0].value, [o[1]] + [], "params");
    GetHead("params", o[1].value, [], "params");
  }

  /** Loading gives back every component that was written down: its class, links, container, error handler and maximum
      from the document, and its references from its texts.  An empty parent id is read as none. */
  lemma WrittenThenLoaded(reader: Reads, c: Component)
    requires c.parent != Some("")
    ensures LoadComponent(reader, Written(c)) == c.(refs := RefsOf(reader(ParamsFor(c))))
  {
    WrittenAt(c);
    ParamsAt(c);
    StrsRead(c.downstream);
    if c.handler.Handler? {
      StrsRead(c.handler.goto);
    }
    KindIsClass(c.kind, "");
    hide Written, ParamsFor, At, Texts, Strs, RefsOf, KindOf, ClassName;
  }
}
