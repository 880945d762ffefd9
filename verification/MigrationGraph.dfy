/** What the migration makes of a document, field by field: the classes and ids of its components, the values in them,
    the drawn graph and the conversation; and which documents it refuses. */
module MigrationGraph {
  import opened Common
  import opened Migration
  import opened MigrationLaws
  import MigrationText
  import Loading = CanvasLoading

  // ---------- Names ----------

  /** A legacy class in front of the first colon is replaced by its successor; any other id stays. */
  ghost predicate NewId(id: string, migrated: string) {
    && (forall rest :: id == "Splitter:" + rest ==> migrated == "TokenChunker:" + rest)
    && (forall rest :: id == "HierarchicalMerger:" + rest ==> migrated == "TitleChunker:" + rest)
    && ((forall rest :: id != "Splitter:" + rest && id != "HierarchicalMerger:" + rest) ==> migrated == id)
  }

  /** The two successors, and nothing else, come from more than one class. */
  ghost predicate NewClass(name: string, migrated: string) {
    && (migrated == "TokenChunker" <==> name == "Splitter" || name == "TokenChunker")
    && (migrated == "TitleChunker" <==> name == "HierarchicalMerger" || name == "TitleChunker")
    && (migrated != "TokenChunker" && migrated != "TitleChunker" ==> migrated == name)
  }

  /** What becomes of a text that may name a component. */
  ghost predicate MappedId(ids: seq<string>, id: string, mapped: string) {
    if id in ids then NewId(id, mapped) else mapped == id
  }

  lemma Suffix(prefix: string, id: string)
    ensures forall rest :: id == prefix + rest ==> prefix <= id && id[|prefix|..] == rest
    ensures prefix <= id ==> id == prefix + id[|prefix|..]
  {
  }

  lemma IdIsNew(id: string)
    ensures NewId(id, RenameId(id))
  {
    Suffix("Splitter:", id);
    Suffix("HierarchicalMerger:", id);
    assert "Splitter:"[0] != "HierarchicalMerger:"[0];
  }

  lemma IdIsMapped(ids: seq<string>, id: string)
    ensures MappedId(ids, id, IdMap(ids)(id))
  {
    IdIsNew(id);
    hide RenameId, NewId;
  }

  /** A component that is named after its class is named after its new class. */
  ghost predicate NamedByClass(name: string, id: string, newName: string, newId: string) {
    forall rest :: id == name + ":" + rest ==> newId == newName + ":" + rest
  }

  lemma FirstColon(a: string, x: string)
    requires ':' !in a
    ensures var t := a + ":" + x;
      t[|a|] == ':' && t[..|a|] == a && t[|a| + 1..] == x && forall k :: 0 <= k < |a| ==> t[k] != ':'
  {
    var t := a + ":" + x;
    forall k | 0 <= k < |a| ensures t[k] != ':' {
      assert t[k] == a[k];
    }
  }

  lemma PrefixUpToColon(a: string, b: string, x: string, y: string)
    requires ':' !in a && ':' !in b && a + ":" + x == b + ":" + y
    ensures a == b && x == y
  {
    FirstColon(a, x);
    FirstColon(b, y);
  }

  lemma ClassPrefixIsReplaced(name: string, id: string)
    requires ':' !in name
    ensures NamedByClass(name, id, RenameClass(name), RenameId(id))
  {
    forall rest | id == name + ":" + rest ensures RenameId(id) == RenameClass(name) + ":" + rest {
      OneClassPrefix(name, rest);
    }
  }

  lemma OneClassPrefix(name: string, rest: string)
    requires ':' !in name
    ensures RenameId(name + ":" + rest) == RenameClass(name) + ":" + rest
  {
    var id := name + ":" + rest;
    if name == "Splitter" {
      assert id == SPLITTER + rest;
    } else if name == "HierarchicalMerger" {
      assert id == HIERARCHICAL_MERGER + rest;
      assert id[0] != SPLITTER[0];
    } else if SPLITTER <= id {
      assert id == "Splitter" + ":" + id[9..];
      PrefixUpToColon("Splitter", name, id[9..], rest);
    } else if HIERARCHICAL_MERGER <= id {
      assert id == "HierarchicalMerger" + ":" + id[19..];
      PrefixUpToColon("HierarchicalMerger", name, id[19..], rest);
    }
  }

  /** A component's class is a legacy class's successor exactly if it was that class or the successor already, every
      other class stays, and an id that is the class, a colon and a rest keeps the rest behind the new class. */
  lemma ClassesAndIds(dsl: Json, i: nat)
    requires Normalize(dsl).Ok? && dsl.Obj? && Loading.At(dsl, "components").Obj?
    requires var components := Loading.ComponentsOf(dsl);
      && Distinct(Keys(components)) && NoCollision(Keys(components)) && i < |components|
      && components[i].value.Obj? && Loading.At(components[i].value, "obj").Obj?
      && Loading.IsClassName(Loading.At(Loading.At(components[i].value, "obj"), "component_name"))
    ensures var a, table := Loading.ComponentsOf(dsl)[i], Loading.ComponentsOf(Normalize(dsl).value);
      && i < |table| && NewId(a.key, table[i].key)
      && var old_, new_ := Loading.At(Loading.At(a.value, "obj"), "component_name"),
                           Loading.At(Loading.At(table[i].value, "obj"), "component_name");
      && new_.Str? && NewClass(old_.s, new_.s) && NamedByClass(old_.s, a.key, new_.s, table[i].key)
  {
    var a, table := Loading.ComponentsOf(dsl)[i], Loading.ComponentsOf(Normalize(dsl).value);
    var ids := Keys(Loading.ComponentsOf(dsl));
    hide Normalize, Keys, NormalizeComponent, RenameId, RenameClass, NewId, NewClass, NamedByClass, RewriteText,
      Loading.KindOf;
    Loading.TableIsMigrated(dsl);
    assert Loading.Migrated(ids, a, table[i]);
    var name := Loading.At(Loading.At(a.value, "obj"), "component_name");
    Loading.ObjectIsRewritten(ids, a.value);
    Loading.ClassNameStays(ids, name);
    IdIsNew(a.key);
    ClassPrefixIsReplaced(name.s, a.key);
    ClassIsNew(name.s);
  }

  lemma ClassIsNew(name: string)
    ensures NewClass(name, RenameClass(name))
  {
  }

  // ---------- Values ----------

  /** A rewritten value has the shape of the original: only texts change. A text that is an id becomes the new id,
      and in any other text the references are renamed. */
  ghost predicate ValueImage(ids: seq<string>, a: Json, b: Json)
    decreases a
  {
    match a
    case Str(t) => b.Str? && if t in ids then NewId(t, b.s) else b.s == MigrationText.Rewrite(IdMap(ids), t)
    case Arr(items) =>
      b.Arr? && |b.items| == |items| && forall k | 0 <= k < |items| :: ValueImage(ids, items[k], b.items[k])
    case Obj(fields) =>
      && b.Obj? && |b.fields| == |fields|
      && forall k | 0 <= k < |fields| ::
           b.fields[k].key == fields[k].key && ValueImage(ids, fields[k].value, b.fields[k].value)
    case _ => b == a
  }

  lemma {:induction false} RewrittenField(ids: seq<string>, fields: seq<Field>, j: nat)
    requires j < |fields|
    ensures RewriteFields(ids, fields)[j] == Field(fields[j].key, RewriteValue(ids, fields[j].value))
  {
    hide RewriteValue;
    if j > 0 {
      RewrittenField(ids, fields[1..], j - 1);
    }
  }

  lemma {:induction false} ValueKeepsItsShape(ids: seq<string>, v: Json)
    ensures ValueImage(ids, v, RewriteValue(ids, v))
    decreases v
  {
    hide NewId, RenameId, MigrationText.Rewrite;
    match v {
      case Str(t) => IdIsNew(t);
      case Arr(items) =>
        forall k | 0 <= k < |items| ensures ValueImage(ids, items[k], RewriteItems(ids, items)[k]) {
          RewrittenItem(ids, items, k);
          ValueKeepsItsShape(ids, items[k]);
        }
      case Obj(fields) =>
        forall k | 0 <= k < |fields| ensures RewriteFields(ids, fields)[k].key == fields[k].key
            && ValueImage(ids, fields[k].value, RewriteFields(ids, fields)[k].value)
        {
          RewrittenField(ids, fields, k);
          ValueKeepsItsShape(ids, fields[k].value);
        }
      case _ =>
    }
  }

  /** `b` is there exactly if `a` is, and is its rewritten value. */
  ghost predicate Rewritten(ids: seq<string>, a: Option<Json>, b: Option<Json>) {
    a.Some? == b.Some? && (a.Some? ==> ValueImage(ids, a.value, b.value))
  }

  // ---------- Components ----------

  /** The object of a component: a missing class is stored as null. */
  ghost predicate ObjectImage(ids: seq<string>, a: seq<Field>, b: seq<Field>) {
    && (forall k :: k != "component_name" ==> Rewritten(ids, Get(a, k), Get(b, k)))
    && Get(b, "component_name").Some?
    && (Get(a, "component_name").None? ==> Get(b, "component_name") == Some(Null))
  }

  /** A migrated component apart from its links and its class: every value rewritten, nothing lost and nothing new. */
  ghost predicate ComponentImage(ids: seq<string>, a: Json, b: Json) {
    if !a.Obj? then ValueImage(ids, a, b)
    else b.Obj? && PartsImage(ids, a.fields, b.fields)
  }

  ghost predicate PartsImage(ids: seq<string>, a: seq<Field>, b: seq<Field>) {
    && (forall k :: !IsRelinked(k) ==> Rewritten(ids, Get(a, k), Get(b, k)))
    && ObjectField(ids, Get(a, "obj"), Get(b, "obj"))
  }

  ghost predicate ObjectField(ids: seq<string>, a: Option<Json>, b: Option<Json>) {
    if a.Some? && a.value.Obj?
    then b.Some? && b.value.Obj? && ObjectImage(ids, a.value.fields, b.value.fields)
    else Rewritten(ids, a, b)
  }

  predicate IsRelinked(key: string) {
    key in ["obj", "downstream", "upstream", "parent_id"]
  }

  lemma FieldsAreRewritten(ids: seq<string>, fields: seq<Field>)
    ensures forall k :: Rewritten(ids, Get(fields, k), Get(RewriteFields(ids, fields), k))
    ensures forall k :: Get(fields, k).Some? ==>
                          Get(RewriteFields(ids, fields), k) == Some(RewriteValue(ids, Get(fields, k).value))
  {
    hide Get, RewriteFields, RewriteValue, ValueImage;
    forall k ensures Rewritten(ids, Get(fields, k), Get(RewriteFields(ids, fields), k))
        && (Get(fields, k).Some? ==>
              Get(RewriteFields(ids, fields), k) == Some(RewriteValue(ids, Get(fields, k).value)))
    {
      GetRewritten(ids, fields, k);
      if Get(fields, k).Some? {
        ValueKeepsItsShape(ids, Get(fields, k).value);
      }
    }
  }

  lemma ObjectIsMigrated(ids: seq<string>, fields: seq<Field>, f0: seq<Field>)
    requires f0 == RewriteFields(ids, fields) && RenameObj(f0).Ok?
    ensures ObjectField(ids, Get(fields, "obj"), Get(RenameObj(f0).value, "obj"))
  {
    FieldsAreRewritten(ids, fields);
    if Get(fields, "obj").Some? && Get(fields, "obj").value.Obj? {
      var obj := Get(fields, "obj").value.fields;
      var o := RewriteFields(ids, obj);
      assert Get(f0, "obj") == Some(Obj(o)) by {
        hide Get, RewriteFields;
      }
      FieldsAreRewritten(ids, obj);
      var name := Get(o, "component_name").GetOr(Null);
      var renamed := if name.Str? then Str(RenameClass(name.s)) else name;
      hide Get, Set, Rewritten, RenameClass, RewriteFields;
      GetSetAll(o, "component_name", renamed);
      GetSetAll(f0, "obj", Obj(Set(o, "component_name", renamed)));
      MissingStaysMissing(ids, Get(obj, "component_name"), Get(o, "component_name"));
    } else {
      hide RewriteFields, ValueImage;
      NotAnObject(ids, Get(fields, "obj"), Get(f0, "obj"));
    }
  }

  lemma MissingStaysMissing(ids: seq<string>, a: Option<Json>, b: Option<Json>)
    requires Rewritten(ids, a, b)
    ensures a.None? ==> b.None?
  {
  }

  lemma NotAnObject(ids: seq<string>, a: Option<Json>, b: Option<Json>)
    requires Rewritten(ids, a, b) && !(a.Some? && a.value.Obj?)
    ensures !(b.Some? && b.value.Obj?)
  {
  }

  lemma RelinkIsMigrated(ids: seq<string>, fields: seq<Field>, f0: seq<Field>)
    requires f0 == RewriteFields(ids, fields) && Relink(ids, f0).Ok?
    ensures ComponentImage(ids, Obj(fields), Relink(ids, f0).value)
  {
    hide RewriteFields, RewriteValue, RenameObj, MapListAt, MapIdAt, Get, FixedClass, Hashable, Rewritten, ObjectField;
    FieldsAreRewritten(ids, fields);
    ObjectIsMigrated(ids, fields, f0);
    RenameObjFixes(f0);
    var f1 := RenameObj(f0).value;
    MapListFixes(ids, f1, "downstream");
    var f2 := MapListAt(ids, f1, "downstream").value;
    MapListFixes(ids, f2, "upstream");
    var f3 := MapListAt(ids, f2, "upstream").value;
    MapIdFrame(ids, f3, "parent_id");
  }

  lemma ComponentIsMigrated(ids: seq<string>, c: Json)
    requires NormalizeComponent(ids, c).Ok?
    ensures ComponentImage(ids, c, NormalizeComponent(ids, c).value)
  {
    if c.Obj? {
      var f0 := RewriteFields(ids, c.fields);
      assert RewriteValue(ids, c) == Obj(f0);
      hide RewriteFields, RewriteValue, Relink, ComponentImage;
      RelinkIsMigrated(ids, c.fields, f0);
    } else {
      ValueKeepsItsShape(ids, c);
    }
  }

  // ---------- The drawn graph ----------

  ghost predicate MappedField(ids: seq<string>, a: Option<Json>, b: Option<Json>) {
    match a
    case Some(Str(s)) => b.Some? && b.value.Str? && MappedId(ids, s, b.value.s)
    case _ => b == a
  }

  ghost predicate ClassField(a: Option<Json>, b: Option<Json>) {
    match a
    case Some(Str(s)) => b.Some? && b.value.Str? && NewClass(s, b.value.s)
    case _ => b == a
  }

  /** The label and the name of a drawn node are class names, its form holds the parameters. */
  ghost predicate DataImage(ids: seq<string>, a: seq<Field>, b: seq<Field>) {
    && ClassField(Get(a, "label"), Get(b, "label"))
    && ClassField(Get(a, "name"), Get(b, "name"))
    && Rewritten(ids, Get(a, "form"), Get(b, "form"))
    && forall k :: k != "label" && k != "name" && k != "form" ==> Get(b, k) == Get(a, k)
  }

  ghost predicate NodeImage(ids: seq<string>, a: Json, b: Json) {
    if !a.Obj? then b == a
    else b.Obj? && NodeFields(ids, a.fields, b.fields)
  }

  ghost predicate NodeFields(ids: seq<string>, a: seq<Field>, b: seq<Field>) {
    && MappedField(ids, Get(a, "id"), Get(b, "id"))
    && MappedField(ids, Get(a, "parentId"), Get(b, "parentId"))
    && Get(b, "type")
       == (if Get(a, "type") == Some(Str("splitterNode")) then Some(Str("chunkerNode")) else Get(a, "type"))
    && DataField(ids, Get(a, "data"), Get(b, "data"))
    && forall k :: k != "id" && k != "parentId" && k != "type" && k != "data" ==> Get(b, k) == Get(a, k)
  }

  ghost predicate DataField(ids: seq<string>, a: Option<Json>, b: Option<Json>) {
    match a
    case Some(Obj(data)) => b.Some? && b.value.Obj? && DataImage(ids, data, b.value.fields)
    case _ => b == a
  }

  /** An edge is drawn between the images of its ends. */
  ghost predicate EdgeImage(ids: seq<string>, a: Json, b: Json) {
    if !a.Obj? then b == a
    else b.Obj? && EdgeFields(ids, a.fields, b.fields)
  }

  ghost predicate EdgeFields(ids: seq<string>, a: seq<Field>, b: seq<Field>) {
    && MappedField(ids, Get(a, "source"), Get(b, "source"))
    && MappedField(ids, Get(a, "target"), Get(b, "target"))
    && (match Get(a, "id")
        case Some(Str(s)) => Get(b, "id") == Some(Str(ReplaceAll(s, LongestFirst(ids))))
        case _ => Get(b, "id") == Get(a, "id"))
    && forall k :: k != "source" && k != "target" && k != "id" ==> Get(b, k) == Get(a, k)
  }

  ghost predicate GraphImage(ids: seq<string>, a: seq<Field>, b: seq<Field>) {
    && NodesField(ids, Get(a, "nodes"), Get(b, "nodes"))
    && EdgesField(ids, Get(a, "edges"), Get(b, "edges"))
    && forall k :: k != "nodes" && k != "edges" ==> Get(b, k) == Get(a, k)
  }

  ghost predicate NodesField(ids: seq<string>, a: Option<Json>, b: Option<Json>) {
    match a
    case Some(Arr(nodes)) =>
      && b.Some? && b.value.Arr? && |b.value.items| == |nodes|
      && forall i :: 0 <= i < |nodes| ==> NodeImage(ids, nodes[i], b.value.items[i])
    case _ => b == a
  }

  ghost predicate EdgesField(ids: seq<string>, a: Option<Json>, b: Option<Json>) {
    match a
    case Some(Arr(edges)) =>
      && b.Some? && b.value.Arr? && |b.value.items| == |edges|
      && forall i :: 0 <= i < |edges| ==> EdgeImage(ids, edges[i], b.value.items[i])
    case _ => b == a
  }

  lemma MappedAt(ids: seq<string>, fields: seq<Field>, key: string)
    ensures var r := RenameAt(fields, key, IdMap(ids));
      && MappedField(ids, Get(fields, key), Get(r, key))
      && forall k :: k != key ==> Get(r, k) == Get(fields, k)
  {
    RenameAtFrame(fields, key, IdMap(ids));
    hide Get, RenameAt, MappedId, RenameId;
    match Get(fields, key)
    case Some(Str(s)) => IdIsMapped(ids, s);
    case _ =>
  }

  lemma ClassAt(fields: seq<Field>, key: string)
    ensures var r := RenameAt(fields, key, RenameClass);
      && ClassField(Get(fields, key), Get(r, key))
      && forall k :: k != key ==> Get(r, k) == Get(fields, k)
  {
    RenameAtFrame(fields, key, RenameClass);
    hide Get, RenameAt, NewClass, RenameClass;
    match Get(fields, key)
    case Some(Str(s)) => ClassIsNew(s);
    case _ =>
  }

  lemma GetSetAll(fields: seq<Field>, key: string, value: Json)
    ensures forall k :: Get(Set(fields, key, value), k) == if k == key then Some(value) else Get(fields, k)
  {
    forall k ensures Get(Set(fields, key, value), k) == if k == key then Some(value) else Get(fields, k) {
      GetSet(fields, key, value, k);
    }
  }

  lemma DataIsMigrated(ids: seq<string>, data: seq<Field>)
    ensures DataImage(ids, data, NormalizeData(ids, data))
  {
    hide Get, Set, RenameAt, ClassField, ValueImage, RewriteValue, RenameClass;
    var d1 := RenameAt(data, "label", RenameClass);
    var d2 := RenameAt(d1, "name", RenameClass);
    ClassAt(data, "label");
    ClassAt(d1, "name");
    match Get(d2, "form")
    case Some(form) =>
      GetSetAll(d2, "form", RewriteValue(ids, form));
      ValueKeepsItsShape(ids, form);
    case None =>
  }

  lemma NodeIsMigrated(ids: seq<string>, node: Json)
    ensures NodeImage(ids, node, NormalizeNode(ids, node))
  {
    hide Get, Set, RenameAt, MappedField, DataImage, NormalizeData, RenameId;
    if node.Obj? {
      var n1 := RenameAt(node.fields, "id", IdMap(ids));
      var n2 := RenameAt(n1, "parentId", IdMap(ids));
      var n3 := RenameAt(n2, "type", RenameNodeType);
      MappedAt(ids, node.fields, "id");
      MappedAt(ids, n1, "parentId");
      RenameAtFrame(n2, "type", RenameNodeType);
      match Get(n3, "data")
      case Some(Obj(data)) =>
        DataIsMigrated(ids, data);
        GetSetAll(n3, "data", Obj(NormalizeData(ids, data)));
      case _ =>
    }
  }

  lemma EdgeIsMigrated(ids: seq<string>, edge: Json)
    ensures EdgeImage(ids, edge, NormalizeEdge(ids, edge))
  {
    hide Get, Set, RenameAt, MappedField, RenameId, ReplaceAll, LongestFirst;
    if edge.Obj? {
      var e1 := RenameAt(edge.fields, "source", IdMap(ids));
      var e2 := RenameAt(e1, "target", IdMap(ids));
      MappedAt(ids, edge.fields, "source");
      MappedAt(ids, e1, "target");
      RenameAtFrame(e2, "id", s => ReplaceAll(s, LongestFirst(ids)));
    }
  }

  lemma {:induction false} NodesAreMigrated(ids: seq<string>, nodes: seq<Json>)
    ensures NodesField(ids, Some(Arr(nodes)), Some(Arr(NormalizeNodes(ids, nodes))))
  {
    hide NodeImage, NormalizeNode;
    if nodes != [] {
      NodeIsMigrated(ids, nodes[0]);
      NodesAreMigrated(ids, nodes[1..]);
    }
  }

  lemma {:induction false} EdgesAreMigrated(ids: seq<string>, edges: seq<Json>)
    ensures EdgesField(ids, Some(Arr(edges)), Some(Arr(NormalizeEdges(ids, edges))))
  {
    hide EdgeImage, NormalizeEdge;
    if edges != [] {
      EdgeIsMigrated(ids, edges[0]);
      EdgesAreMigrated(ids, edges[1..]);
    }
  }

  lemma GraphIsMigrated(ids: seq<string>, graph: seq<Field>)
    ensures GraphImage(ids, graph, NormalizeGraph(ids, graph))
  {
    hide Get, Set, NormalizeNodes, NormalizeEdges, NodesField, EdgesField;
    NodesFieldOther(ids, Get(graph, "nodes"));
    EdgesFieldOther(ids, Get(graph, "edges"));
    var g := NodesAt(ids, graph);
    match Get(graph, "nodes") {
      case Some(Arr(nodes)) =>
        NodesAreMigrated(ids, nodes);
        GetSetAll(graph, "nodes", Arr(NormalizeNodes(ids, nodes)));
      case _ =>
    }
    match Get(g, "edges") {
      case Some(Arr(edges)) =>
        EdgesAreMigrated(ids, edges);
        GetSetAll(g, "edges", Arr(NormalizeEdges(ids, edges)));
      case _ =>
    }
  }

  lemma NodesFieldOther(ids: seq<string>, a: Option<Json>)
    ensures !(a.Some? && a.value.Arr?) ==> NodesField(ids, a, a)
  {
  }

  lemma EdgesFieldOther(ids: seq<string>, a: Option<Json>)
    ensures !(a.Some? && a.value.Arr?) ==> EdgesField(ids, a, a)
  {
  }

  // ---------- The ids of edges ----------

  /** `sep.join(pieces)`. */
  function Join(pieces: seq<string>, sep: string): string {
    if pieces == [] then ""
    else if |pieces| == 1 then pieces[0]
    else pieces[0] + sep + Join(pieces[1..], sep)
  }

  predicate OccursAt(part: string, s: string, i: nat) {
    i + |part| <= |s| && s[i..i + |part|] == part
  }

  /** The pieces between the occurrences of `part`, read from the left: in front of the last piece, no occurrence
      begins before the separator does, and the last piece has none. */
  ghost predicate Splits(pieces: seq<string>, part: string) {
    && pieces != []
    && (forall k :: 0 <= k < |pieces| - 1 ==> FirstIsBehind(pieces[k], part))
    && Nowhere(pieces[|pieces| - 1], part)
  }

  ghost predicate FirstIsBehind(piece: string, part: string) {
    forall i :: 0 <= i < |piece| ==> !OccursAt(part, piece + part, i)
  }

  ghost predicate Nowhere(piece: string, part: string) {
    forall i :: 0 <= i <= |piece| ==> !OccursAt(part, piece, i)
  }

  function Split(s: string, part: string): seq<string>
    requires part != ""
    decreases |s|
  {
    if s == "" then [""]
    else if part <= s then [""] + Split(s[|part|..], part)
    else
      var rest := Split(s[1..], part);
      if rest == [] then [s] else [[s[0]] + rest[0]] + rest[1..]
  }

  lemma {:induction false} SplitJoins(s: string, part: string, sep: string)
    requires part != ""
    ensures Split(s, part) != [] && Join(Split(s, part), sep) == Replace(s, part, sep)
    decreases |s|
  {
    if s == "" {
    } else if part <= s {
      SplitJoins(s[|part|..], part, sep);
      var rest := Split(s[|part|..], part);
      assert ([""] + rest)[1..] == rest;
      assert "" + sep + Join(rest, sep) == sep + Join(rest, sep);
    } else {
      SplitJoins(s[1..], part, sep);
      HeadJoins(s[0], Split(s[1..], part), sep);
    }
  }

  lemma HeadJoins(c: char, rest: seq<string>, sep: string)
    requires rest != []
    ensures Join([[c] + rest[0]] + rest[1..], sep) == [c] + Join(rest, sep)
  {
    var all := [[c] + rest[0]] + rest[1..];
    assert all[1..] == rest[1..];
    if |rest| > 1 {
      assert [c] + rest[0] + sep + Join(rest[1..], sep) == [c] + (rest[0] + sep + Join(rest[1..], sep));
    }
  }

  /** Where the head of `s` is no occurrence, an occurrence in `s` is one in its tail. */
  lemma OccursLater(part: string, s: string, i: nat)
    requires s != "" && i > 0
    ensures OccursAt(part, s, i) <==> OccursAt(part, s[1..], i - 1)
  {
    if i + |part| <= |s| {
      assert s[1..][i - 1..i - 1 + |part|] == s[i..i + |part|];
    }
  }

  lemma PrefixBehind(c: char, piece: string, part: string, rest: string)
    requires piece + part <= rest
    ensures [c] + piece + part <= [c] + rest
  {
    assert [c] + piece + part == [c] + (piece + part);
  }

  /** The pieces begin as the text does, up to the end of the first occurrence. */
  lemma {:induction false} SplitStarts(s: string, part: string)
    requires part != ""
    ensures var r := Split(s, part);
      r != [] && if |r| == 1 then r[0] == s else r[0] + part <= s
    decreases |s|
  {
    if s == "" {
    } else if part <= s {
      SplitStarts(s[|part|..], part);
      assert "" + part == part;
    } else {
      SplitStarts(s[1..], part);
      var rest := Split(s[1..], part);
      assert s == [s[0]] + s[1..];
      if |rest| > 1 {
        hide Split;
        PrefixBehind(s[0], rest[0], part, s[1..]);
      }
    }
  }

  lemma {:induction false} SplitSplits(s: string, part: string)
    requires part != ""
    ensures Splits(Split(s, part), part)
    decreases |s|
  {
    hide OccursAt;
    if s == "" {
      assert !OccursAt(part, "", 0) by {
        TooLong(part, "", 0);
      }
    } else if part <= s {
      SplitSplits(s[|part|..], part);
      Consed(Split(s[|part|..], part), part);
    } else {
      SplitSplits(s[1..], part);
      SplitStarts(s[1..], part);
      Headed(s, Split(s[1..], part), part);
    }
  }

  /** `pieces` are the split of one text, and joined otherwise they are the other. */
  ghost predicate Rejoined(pieces: seq<string>, s: string, part: string, t: string, instead: string) {
    Splits(pieces, part) && s == Join(pieces, part) && t == Join(pieces, instead)
  }

  lemma TooLong(part: string, s: string, i: nat)
    requires i + |part| > |s|
    ensures !OccursAt(part, s, i)
  {
  }

  lemma Consed(rest: seq<string>, part: string)
    requires Splits(rest, part)
    ensures Splits([""] + rest, part)
  {
    hide OccursAt, Nowhere;
    var all := [""] + rest;
    assert all[|all| - 1] == rest[|rest| - 1];
    forall k | 0 <= k < |all| - 1 ensures FirstIsBehind(all[k], part) {
      assert k > 0 ==> all[k] == rest[k - 1];
    }
  }

  lemma Headed(s: string, rest: seq<string>, part: string)
    requires part != "" && s != "" && !(part <= s) && Splits(rest, part)
    requires if |rest| == 1 then rest[0] == s[1..] else rest[0] + part <= s[1..]
    ensures Splits([[s[0]] + rest[0]] + rest[1..], part)
  {
    var head := [s[0]] + rest[0];
    var all := [head] + rest[1..];
    if |rest| == 1 {
      assert all == [head] && head == s;
      forall i | 0 <= i <= |head| ensures !OccursAt(part, head, i) {
        HeadOccurs(part, head, rest[0], i);
      }
    } else {
      assert all[|all| - 1] == rest[|rest| - 1];
      NoOccurrenceInFront(s, rest[0], part);
      HeadIsFirst(head, rest[0], part);
      hide FirstIsBehind, Nowhere;
      forall k | 0 <= k < |all| - 1 ensures FirstIsBehind(all[k], part) {
        assert k > 0 ==> all[k] == rest[k];
      }
    }
  }

  lemma HeadIsFirst(head: string, first: string, part: string)
    requires head != "" && first == head[1..] && !(part <= head + part) && FirstIsBehind(first, part)
    ensures FirstIsBehind(head, part)
  {
    assert first + part == (head + part)[1..];
    forall i | 0 <= i < |head| ensures !OccursAt(part, head + part, i) {
      HeadOccurs(part, head + part, first + part, i);
    }
  }

  lemma NoOccurrenceInFront(s: string, first: string, part: string)
    requires s != "" && !(part <= s) && first + part <= s[1..]
    ensures !(part <= [s[0]] + first + part)
  {
    var t := [s[0]] + first + part;
    assert t == [s[0]] + (first + part);
    assert t <= s;
  }

  lemma HeadOccurs(part: string, s: string, rest: string, i: nat)
    requires s != "" && rest == s[1..] && !(part <= s)
    requires i > 0 ==> !OccursAt(part, rest, i - 1)
    ensures !OccursAt(part, s, i)
  {
    if i > 0 {
      OccursLater(part, s, i);
    } else if |part| <= |s| {
      assert s[0..|part|] == s[..|part|];
    }
  }

  /** `str.replace` splits the text at the occurrences of `part`, found from the left, and joins the pieces with the new
      text; an empty `part`, which is an id that is never renamed, leaves it alone. */
  lemma ReplaceRejoins(s: string, part: string, instead: string)
    ensures part == "" ==> Replace(s, part, instead) == s
    ensures part != "" ==> exists pieces :: Rejoined(pieces, s, part, Replace(s, part, instead), instead)
  {
    if part != "" {
      SplitSplits(s, part);
      SplitJoins(s, part, part);
      SplitJoins(s, part, instead);
      ReplaceSame(s, part);
      hide Splits, Join, Replace;
      assert Rejoined(Split(s, part), s, part, Replace(s, part, instead), instead);
    }
  }

  lemma {:induction false} InsertAt(id: string, sorted: seq<string>) returns (k: nat)
    ensures k <= |sorted| && Insert(id, sorted) == sorted[..k] + [id] + sorted[k..]
    ensures forall i :: 0 <= i < k ==> |sorted[i]| > |id|
    ensures k < |sorted| ==> |sorted[k]| <= |id|
  {
    if sorted == [] || |sorted[0]| <= |id| {
      k := 0;
    } else {
      k := InsertAt(id, sorted[1..]);
      assert sorted == [sorted[0]] + sorted[1..];
      k := k + 1;
      assert sorted[..k] == [sorted[0]] + sorted[1..][..k - 1] && sorted[k..] == sorted[1..][k - 1..];
    }
  }

  function OfLength(ids: seq<string>, n: nat): seq<string> {
    if ids == [] then [] else (if |ids[0]| == n then [ids[0]] else []) + OfLength(ids[1..], n)
  }

  lemma {:induction false} OfLengthConcat(a: seq<string>, b: seq<string>, n: nat)
    ensures OfLength(a + b, n) == OfLength(a, n) + OfLength(b, n)
  {
    if a == [] {
      assert a + b == b;
    } else {
      assert (a + b)[1..] == a[1..] + b;
      OfLengthConcat(a[1..], b, n);
    }
  }

  lemma {:induction false} NoneOfLength(a: seq<string>, n: nat)
    requires forall x <- a :: |x| != n
    ensures OfLength(a, n) == []
  {
    if a != [] {
      assert a[0] in a && forall x <- a[1..] :: x in a;
      NoneOfLength(a[1..], n);
    }
  }

  lemma InsertKeepsOrder(id: string, sorted: seq<string>, n: nat)
    ensures OfLength(Insert(id, sorted), n) == OfLength([id], n) + OfLength(sorted, n)
  {
    var k := InsertAt(id, sorted);
    var front, back := sorted[..k], sorted[k..];
    assert sorted == front + back;
    OfLengthConcat(front + [id], back, n);
    OfLengthConcat(front, [id], n);
    OfLengthConcat(front, back, n);
    if n == |id| {
      NoneOfLength(front, n);
    }
  }

  /** The ids are replaced in the order of `sorted(..., key=len, reverse=True)`: the same ids, longer ones first, those
      of one length in dictionary order. */
  lemma {:induction false} ReplacementOrder(ids: seq<string>)
    ensures var r := LongestFirst(ids);
      && multiset(r) == multiset(ids)
      && (forall i, j :: 0 <= i < j < |r| ==> |r[i]| >= |r[j]|)
      && (forall n: nat :: OfLength(r, n) == OfLength(ids, n))
  {
    if ids != [] {
      var rest := LongestFirst(ids[1..]);
      ReplacementOrder(ids[1..]);
      assert LongestFirst(ids) == Insert(ids[0], rest);
      hide OfLength, LongestFirst;
      var k := InsertAt(ids[0], rest);
      assert ids == [ids[0]] + ids[1..];
      assert rest == rest[..k] + rest[k..];
      forall n: nat ensures OfLength(Insert(ids[0], rest), n) == OfLength(ids, n) {
        InsertKeepsOrder(ids[0], rest, n);
        OfLengthConcat([ids[0]], ids[1..], n);
      }
      Longest(ids[0], rest, k);
    }
  }

  lemma Longest(id: string, rest: seq<string>, k: nat)
    requires k <= |rest| && forall i, j :: 0 <= i < j < |rest| ==> |rest[i]| >= |rest[j]|
    requires forall i :: 0 <= i < k ==> |rest[i]| > |id|
    requires k < |rest| ==> |rest[k]| <= |id|
    ensures var r := rest[..k] + [id] + rest[k..];
      forall i, j :: 0 <= i < j < |r| ==> |r[i]| >= |r[j]|
  {
  }

  /** The id of an edge after the replacements: one text per id, each the one before it with that id replaced. */
  lemma {:induction false} ReplacedInTurn(s: string, order: seq<string>) returns (texts: seq<string>)
    ensures |texts| == |order| + 1 && texts[0] == s && texts[|order|] == ReplaceAll(s, order)
    ensures forall k :: 0 <= k < |order| ==> texts[k + 1] == Replace(texts[k], order[k], RenameId(order[k]))
    decreases |order|
  {
    hide Replace, RenameId;
    if order == [] {
      texts := [s];
    } else {
      var rest := ReplacedInTurn(Replace(s, order[0], RenameId(order[0])), order[1..]);
      texts := [s] + rest;
      forall k | 0 <= k < |order| ensures texts[k + 1] == Replace(texts[k], order[k], RenameId(order[k])) {
        assert k > 0 ==> order[k] == order[1..][k - 1] && texts[k] == rest[k - 1];
      }
    }
  }

  // ---------- The whole document ----------

  /** The stored path, entry by entry. */
  ghost predicate PathField(ids: seq<string>, a: Option<Json>, b: Option<Json>) {
    match a
    case Some(Arr(items)) =>
      && b.Some? && b.value.Arr? && |b.value.items| == |items|
      && forall i :: 0 <= i < |items| ==> MappedField(ids, Some(items[i]), Some(b.value.items[i]))
    case _ => b == a
  }

  ghost predicate GraphField(ids: seq<string>, a: Option<Json>, b: Option<Json>) {
    match a
    case Some(Obj(graph)) => b.Some? && b.value.Obj? && GraphImage(ids, graph, b.value.fields)
    case _ => b == a
  }

  predicate IsEdited(key: string) {
    key in ["components", "path", "graph", "history", "messages", "reference"]
  }

  /** Everything but the components. */
  ghost predicate RestImage(ids: seq<string>, a: seq<Field>, b: seq<Field>) {
    && PathField(ids, Get(a, "path"), Get(b, "path"))
    && GraphField(ids, Get(a, "graph"), Get(b, "graph"))
    && Rewritten(ids, Get(a, "history"), Get(b, "history"))
    && Rewritten(ids, Get(a, "messages"), Get(b, "messages"))
    && Rewritten(ids, Get(a, "reference"), Get(b, "reference"))
    && forall k :: !IsEdited(k) ==> Get(b, k) == Get(a, k)
  }

  lemma PathIsMigrated(ids: seq<string>, fields: seq<Field>)
    requires MapListAt(ids, fields, "path").Ok?
    ensures var r := MapListAt(ids, fields, "path").value;
      && PathField(ids, Get(fields, "path"), Get(r, "path"))
      && forall k :: k != "path" ==> Get(r, k) == Get(fields, k)
  {
    match Get(fields, "path")
    case Some(Arr(items)) =>
      var mapped := MapLinks(ids, items).value;
      GetSetAll(fields, "path", Arr(mapped));
      hide Get, Set, MapLinks, MappedId, RenameId;
      forall i | 0 <= i < |items| ensures MappedField(ids, Some(items[i]), Some(mapped[i])) {
        MappedItem(ids, items, i);
        IdIsMapped(ids, TextOrNone(items[i]));
      }
    case _ =>
  }

  function TextOrNone(v: Json): string {
    if v.Str? then v.s else ""
  }

  lemma RewriteAtKey(ids: seq<string>, fields: seq<Field>, key: string)
    ensures var r := RewriteAt(ids, fields, key);
      && Rewritten(ids, Get(fields, key), Get(r, key))
      && forall k :: k != key ==> Get(r, k) == Get(fields, k)
  {
    hide Get, Set, RewriteValue, ValueImage;
    match Get(fields, key)
    case Some(v) =>
      GetSetAll(fields, key, RewriteValue(ids, v));
      ValueKeepsItsShape(ids, v);
    case None =>
  }

  lemma GraphAtIsMigrated(ids: seq<string>, fields: seq<Field>)
    ensures var r := GraphAt(ids, fields);
      && GraphField(ids, Get(fields, "graph"), Get(r, "graph"))
      && forall k :: k != "graph" ==> Get(r, k) == Get(fields, k)
  {
    hide Get, Set, NormalizeGraph, GraphImage;
    match Get(fields, "graph")
    case Some(Obj(graph)) =>
      GetSetAll(fields, "graph", Obj(NormalizeGraph(ids, graph)));
      GraphIsMigrated(ids, graph);
    case _ =>
  }

  lemma RestIsMigrated(ids: seq<string>, fields: seq<Field>)
    requires NormalizeRest(ids, fields).Ok?
    ensures var r := NormalizeRest(ids, fields).value;
      r.Obj? && RestImage(ids, fields, r.fields) && Get(r.fields, "components") == Get(fields, "components")
  {
    hide MapListAt, NormalizeGraph, RewriteAt, Get, Set, PathField, GraphField, Rewritten;
    PathIsMigrated(ids, fields);
    var f1 := MapListAt(ids, fields, "path").value;
    GraphAtIsMigrated(ids, f1);
    var f2 := GraphAt(ids, f1);
    RewriteAtKey(ids, f2, "history");
    var f3 := RewriteAt(ids, f2, "history");
    RewriteAtKey(ids, f3, "messages");
    var f4 := RewriteAt(ids, f3, "messages");
    RewriteAtKey(ids, f4, "reference");
  }

  /** Path, drawn nodes and edges, and the conversation name the images of what they named, and everything else is as
      it was. */
  lemma DocumentIsMigrated(dsl: Json)
    requires Normalize(dsl).Ok? && dsl.Obj? && Loading.At(dsl, "components").Obj?
    ensures var ids, r := Keys(Loading.ComponentsOf(dsl)), Normalize(dsl).value;
      r.Obj? && RestImage(ids, dsl.fields, r.fields)
  {
    hide NormalizeComponents, NormalizeRest, PathField, GraphField, Rewritten;
    var components := Loading.ComponentsOf(dsl);
    var ids := Keys(components);
    assert Get(dsl.fields, "components") == Some(Obj(components));
    var table := NormalizeComponents(ids, [], components).value;
    var fields := Set(dsl.fields, "components", Obj(table));
    hide Get, Set;
    GetSetAll(dsl.fields, "components", Obj(table));
    RestIsMigrated(ids, fields);
  }

  /** So does every component keep its place, its fields and the shape of its values. */
  lemma ComponentsAreMigrated(dsl: Json, i: nat)
    requires Normalize(dsl).Ok? && dsl.Obj? && Loading.At(dsl, "components").Obj?
    requires var components := Loading.ComponentsOf(dsl);
      Distinct(Keys(components)) && NoCollision(Keys(components)) && i < |components|
    ensures var a, table := Loading.ComponentsOf(dsl), Loading.ComponentsOf(Normalize(dsl).value);
      && |table| == |a| && NewId(a[i].key, table[i].key)
      && ComponentImage(Keys(a), a[i].value, table[i].value)
      && SameStructure(Keys(a), a[i].value, table[i].value)
  {
    hide Normalize, Keys, NormalizeComponent, RenameId, NewId, ComponentImage, SameStructure;
    Loading.TableIsMigrated(dsl);
    var a, table := Loading.ComponentsOf(dsl), Loading.ComponentsOf(Normalize(dsl).value);
    assert Loading.Migrated(Keys(a), a[i], table[i]);
    ComponentIsMigrated(Keys(a), a[i].value);
    ComponentKeepsLinks(Keys(a), a[i].value);
    IdIsNew(a[i].key);
  }

  // ---------- Which documents are refused ----------

  ghost predicate HashableList(v: Option<Json>) {
    v.Some? && v.value.Arr? ==> forall x <- v.value.items :: !x.Arr? && !x.Obj?
  }

  ghost predicate HashableClass(v: Option<Json>) {
    v.Some? && v.value.Obj? ==>
      var name := Get(v.value.fields, "component_name").GetOr(Null);
      !name.Arr? && !name.Obj?
  }

  /** No link and no class name is a list or a dictionary. */
  ghost predicate Acceptable(component: Json) {
    component.Obj? ==>
      && HashableList(Get(component.fields, "downstream"))
      && HashableList(Get(component.fields, "upstream"))
      && HashableClass(Get(component.fields, "obj"))
  }

  lemma {:induction false} LinksAreAccepted(ids: seq<string>, items: seq<Json>)
    ensures MapLinks(ids, items).Ok? <==> HashableList(Some(Arr(items)))
  {
    if items != [] {
      assert items == [items[0]] + items[1..];
      LinksAreAccepted(ids, items[1..]);
    }
  }

  lemma RewrittenHashable(ids: seq<string>, v: Json)
    ensures var r := RewriteValue(ids, v); (r.Arr? || r.Obj?) <==> (v.Arr? || v.Obj?)
  {
  }

  lemma RewrittenItemsHashable(ids: seq<string>, items: seq<Json>)
    ensures HashableList(Some(Arr(RewriteItems(ids, items)))) <==> HashableList(Some(Arr(items)))
  {
    var r := RewriteItems(ids, items);
    hide RewriteItems, RewriteValue;
    forall j | 0 <= j < |items| ensures (r[j].Arr? || r[j].Obj?) <==> (items[j].Arr? || items[j].Obj?) {
      RewrittenItem(ids, items, j);
      RewrittenHashable(ids, items[j]);
    }
    if HashableList(Some(Arr(r))) {
      forall v | v in items ensures !v.Arr? && !v.Obj? {
        var j :| 0 <= j < |items| && items[j] == v;
        assert r[j] in r;
      }
    }
    if HashableList(Some(Arr(items))) {
      forall v | v in r ensures !v.Arr? && !v.Obj? {
        var j :| 0 <= j < |items| && r[j] == v;
        assert items[j] in items;
      }
    }
  }

  lemma ListIsAccepted(ids: seq<string>, fields: seq<Field>, key: string)
    ensures MapListAt(ids, fields, key).Ok? <==> HashableList(Get(fields, key))
  {
    hide Get, MapLinks;
    match Get(fields, key)
    case Some(Arr(items)) => LinksAreAccepted(ids, items);
    case _ =>
  }

  lemma RewrittenListAccepted(ids: seq<string>, fields: seq<Field>, key: string)
    ensures HashableList(Get(RewriteFields(ids, fields), key)) <==> HashableList(Get(fields, key))
  {
    GetRewritten(ids, fields, key);
    hide Get, RewriteFields;
    match Get(fields, key)
    case Some(Arr(items)) => RewrittenItemsHashable(ids, items);
    case _ =>
  }

  lemma ClassIsAccepted(ids: seq<string>, fields: seq<Field>)
    ensures RenameObj(RewriteFields(ids, fields)).Ok? <==> HashableClass(Get(fields, "obj"))
  {
    GetRewritten(ids, fields, "obj");
    match Get(fields, "obj")
    case Some(Obj(obj)) =>
      GetRewritten(ids, obj, "component_name");
      RewrittenHashable(ids, Get(obj, "component_name").GetOr(Null));
      assert RewriteValue(ids, Obj(obj)) == Obj(RewriteFields(ids, obj));
      hide Get, RewriteValue, RewriteFields, Set;
    case _ =>
  }

  lemma RelinkIsAccepted(ids: seq<string>, f0: seq<Field>)
    requires RenameObj(f0).Ok?
    ensures Relink(ids, f0).Ok? <==> HashableList(Get(f0, "downstream")) && HashableList(Get(f0, "upstream"))
  {
    hide RenameObj, MapListAt, MapIdAt, HashableList, Get, Hashable, FixedClass;
    var f1 := RenameObj(f0).value;
    RenameObjFixes(f0);
    ListIsAccepted(ids, f1, "downstream");
    if MapListAt(ids, f1, "downstream").Ok? {
      MapListFixes(ids, f1, "downstream");
      ListIsAccepted(ids, MapListAt(ids, f1, "downstream").value, "upstream");
    }
  }

  lemma ComponentIsAccepted(ids: seq<string>, c: Json)
    ensures NormalizeComponent(ids, c).Ok? <==> Acceptable(c)
  {
    if c.Obj? {
      var f0 := RewriteFields(ids, c.fields);
      assert RewriteValue(ids, c) == Obj(f0);
      hide RewriteValue, RewriteFields, RenameObj, MapListAt, MapIdAt, HashableList, HashableClass, Get, Hashable,
        FixedClass;
      ClassIsAccepted(ids, c.fields);
      RewrittenListAccepted(ids, c.fields, "downstream");
      RewrittenListAccepted(ids, c.fields, "upstream");
      if RenameObj(f0).Ok? {
        RelinkIsAccepted(ids, f0);
      }
    }
  }

  lemma {:induction false} TableIsAccepted(ids: seq<string>, done: seq<Field>, rest: seq<Field>)
    ensures NormalizeComponents(ids, done, rest).Ok? <==> forall f <- rest :: Acceptable(f.value)
    decreases |rest|
  {
    hide NormalizeComponent, Acceptable, Set, RenameId;
    if rest != [] {
      var c := NormalizeComponent(ids, rest[0].value);
      ComponentIsAccepted(ids, rest[0].value);
      assert rest == [rest[0]] + rest[1..];
      if c.Ok? {
        TableIsAccepted(ids, Set(done, IdMap(ids)(rest[0].key), c.value), rest[1..]);
      }
    }
  }

  /** The migration fails, with a TypeError, exactly if a list or a dictionary stands for an id in a component's links
      or in the stored path, or for a component's class. */
  lemma AcceptedIff(dsl: Json)
    ensures Normalize(dsl).Ok? <==>
      (dsl.Obj? && Loading.At(dsl, "components").Obj? ==>
         && (forall f <- Loading.ComponentsOf(dsl) :: Acceptable(f.value))
         && HashableList(Get(dsl.fields, "path")))
  {
    hide NormalizeComponents, Acceptable, HashableList;
    if dsl.Obj? && Loading.At(dsl, "components").Obj? {
      var components := Loading.ComponentsOf(dsl);
      var ids := Keys(components);
      assert Get(dsl.fields, "components") == Some(Obj(components));
      TableIsAccepted(ids, [], components);
      if NormalizeComponents(ids, [], components).Ok? {
        var table := NormalizeComponents(ids, [], components).value;
        GetSet(dsl.fields, "components", Obj(table), "path");
        ListIsAccepted(ids, Set(dsl.fields, "components", Obj(table)), "path");
        hide Get, Set, MapListAt, NormalizeGraph, RewriteAt;
      }
    }
  }
}
