/** Laws of the document migration: it is idempotent, keeps the canvas graph, and is a renaming in the
    sense under which texts keep their meaning and runs stay the same. */
module MigrationLaws {
  import opened Common
  import opened Regex
  import opened References
  import opened MigrationText
  import opened MigrationMeaning
  import opened Migration
  import CanvasModel

  // ---------- Names ----------

  lemma RenamedIsNew(id: string)
    ensures var r := RenameId(id);
      && !(SPLITTER <= r) && !(HIERARCHICAL_MERGER <= r)
      && RenameId(r) == r
      && (r != id ==> id != [] && r[0] == 'T' && id[0] != 'T')
  {
    var r := RenameId(id);
    if SPLITTER <= id {
      assert id[0] == SPLITTER[0];
      assert r[0] == TOKEN_CHUNKER[0] == 'T';
    } else if HIERARCHICAL_MERGER <= id {
      assert id[0] == HIERARCHICAL_MERGER[0];
      assert r[0] == TITLE_CHUNKER[0] == 'T';
    }
  }

  /** Every id is already new. */
  ghost predicate Settled(ids: seq<string>) {
    forall id <- ids :: RenameId(id) == id
  }

  lemma SettledMap(ids: seq<string>)
    requires Settled(ids)
    ensures forall id: string :: IdMap(ids)(id) == id
  {
  }

  // ---------- A settled document is left alone ----------

  lemma TextIsWhole(t: string, k: nat)
    requires k <= |t|
    ensures t[..k] + t[k..] == t
  {
  }

  lemma {:induction false} RewriteIdentity(f: Renaming, t: string)
    requires forall id: string :: f(id) == id
    ensures Rewrite(f, t) == t
    decreases |t|
  {
    hide *;
    if t == [] {
      RewriteOfNothing(f);
    } else if Braced(t).Some? {
      var s := Braced(t).value;
      RewriteUnfolds(f, t);
      RewriteIdentity(f, t[s.end..]);
      MatchText(t, s);
      TextIsWhole(t, s.end);
    } else {
      RewriteStep(f, t);
      RewriteIdentity(f, t[1..]);
      TextIsWhole(t, 1);
      assert [t[0]] == t[..1];
    }
  }

  lemma {:induction false} ValueIsSettled(ids: seq<string>, v: Json)
    requires Settled(ids)
    ensures RewriteValue(ids, v) == v
    decreases v
  {
    match v
    case Str(s) =>
      SettledMap(ids);
      RewriteIdentity(IdMap(ids), s);
      hide Rewrite;
    case Arr(items) => ItemsAreSettled(ids, items);
    case Obj(fields) => FieldsAreSettled(ids, fields);
    case _ =>
  }

  lemma {:induction false} ItemsAreSettled(ids: seq<string>, items: seq<Json>)
    requires Settled(ids)
    ensures RewriteItems(ids, items) == items
    decreases items
  {
    if items != [] {
      ValueIsSettled(ids, items[0]);
      ItemsAreSettled(ids, items[1..]);
    }
  }

  lemma {:induction false} FieldsAreSettled(ids: seq<string>, fields: seq<Field>)
    requires Settled(ids)
    ensures RewriteFields(ids, fields) == fields
    decreases fields
  {
    if fields != [] {
      ValueIsSettled(ids, fields[0].value);
      FieldsAreSettled(ids, fields[1..]);
    }
  }

  ghost predicate Hashable(items: seq<Json>) {
    forall v <- items :: !Unhashable(v)
  }

  lemma {:induction false} LinksAreSettled(ids: seq<string>, items: seq<Json>)
    requires Settled(ids) && Hashable(items)
    ensures MapLinks(ids, items) == Ok(items)
  {
    if items != [] {
      assert items[0] in items;
      SettledMap(ids);
      assert MapLink(ids, items[0]) == items[0];
      hide IdMap, RenameId, MapLink;
      LinksAreSettled(ids, items[1..]);
      assert [items[0]] + items[1..] == items;
    }
  }

  lemma {:induction false} MappedLinksAreHashable(ids: seq<string>, items: seq<Json>)
    requires MapLinks(ids, items).Ok?
    ensures Hashable(MapLinks(ids, items).value)
  {
    if items != [] {
      MappedLinksAreHashable(ids, items[1..]);
      var rest := MapLinks(ids, items[1..]).value;
      var first := MapLink(ids, items[0]);
      assert !Unhashable(first);
      assert MapLinks(ids, items) == Ok([first] + rest);
      forall v | v in [first] + rest ensures !Unhashable(v) {
      }
    }
  }

  // ---------- Components, twice ----------

  /** What migrating a component leaves: hashable links, and a class name that is not a legacy one. */
  ghost predicate FixedFields(fields: seq<Field>) {
    && (match Get(fields, "downstream") case Some(Arr(items)) => Hashable(items) case _ => true)
    && (match Get(fields, "upstream") case Some(Arr(items)) => Hashable(items) case _ => true)
    && (match Get(fields, "obj") case Some(Obj(obj)) => FixedClass(obj) case _ => true)
  }

  ghost predicate FixedClass(obj: seq<Field>) {
    match Get(obj, "component_name")
    case Some(v) => !Unhashable(v) && (v.Str? ==> RenameClass(v.s) == v.s)
    case None => false
  }

  ghost predicate Fixed(component: Json) {
    component.Obj? ==> FixedFields(component.fields)
  }

  lemma RenameObjFixes(fields: seq<Field>)
    requires RenameObj(fields).Ok?
    ensures var r := RenameObj(fields).value;
      && (match Get(r, "obj") case Some(Obj(obj)) => FixedClass(obj) case _ => true)
      && (forall k :: k != "obj" ==> Get(r, k) == Get(fields, k))
  {
    match Get(fields, "obj")
    case Some(Obj(obj)) =>
      var name := Get(obj, "component_name").GetOr(Null);
      var newName := if name.Str? then Str(RenameClass(name.s)) else name;
      GetSet(obj, "component_name", newName, "component_name");
      forall k ensures Get(Set(fields, "obj", Obj(Set(obj, "component_name", newName))), k)
                       == if k == "obj" then Some(Obj(Set(obj, "component_name", newName))) else Get(fields, k)
      {
        GetSet(fields, "obj", Obj(Set(obj, "component_name", newName)), k);
      }
    case _ =>
  }

  lemma MapListFixes(ids: seq<string>, fields: seq<Field>, key: string)
    requires MapListAt(ids, fields, key).Ok?
    ensures var r := MapListAt(ids, fields, key).value;
      && (match Get(r, key) case Some(Arr(items)) => Hashable(items) case _ => true)
      && (forall k :: k != key ==> Get(r, k) == Get(fields, k))
  {
    match Get(fields, key)
    case Some(Arr(items)) =>
      MappedLinksAreHashable(ids, items);
      var mapped := MapLinks(ids, items).value;
      forall k ensures Get(Set(fields, key, Arr(mapped)), k) == if k == key then Some(Arr(mapped)) else Get(fields, k) {
        GetSet(fields, key, Arr(mapped), k);
      }
    case _ =>
  }

  lemma MapIdFrame(ids: seq<string>, fields: seq<Field>, key: string)
    ensures var r := MapIdAt(ids, fields, key);
      forall k :: k != key ==> Get(r, k) == Get(fields, k)
  {
    match Get(fields, key)
    case Some(Str(s)) =>
      forall k | k != key ensures Get(Set(fields, key, Str(IdMap(ids)(s))), k) == Get(fields, k) {
        GetSet(fields, key, Str(IdMap(ids)(s)), k);
      }
    case _ =>
  }

  lemma RelinkFixes(ids: seq<string>, fields: seq<Field>)
    requires Relink(ids, fields).Ok?
    ensures Fixed(Relink(ids, fields).value)
  {
    hide RenameObj, MapListAt, MapIdAt, FixedClass, Hashable, Get;
    RenameObjFixes(fields);
    var f1 := RenameObj(fields).value;
    MapListFixes(ids, f1, "downstream");
    var f2 := MapListAt(ids, f1, "downstream").value;
    MapListFixes(ids, f2, "upstream");
    MapIdFrame(ids, MapListAt(ids, f2, "upstream").value, "parent_id");
  }

  /** A component that was migrated once is left alone. */
  lemma FixedComponentStays(ids: seq<string>, component: Json)
    requires Settled(ids) && Fixed(component)
    ensures NormalizeComponent(ids, component) == Ok(component)
  {
    hide RewriteValue, Hashable;
    ValueIsSettled(ids, component);
    if component.Obj? {
      var fields := component.fields;
      RenameObjStays(fields);
      MapListStays(ids, fields, "downstream");
      MapListStays(ids, fields, "upstream");
      MapIdStays(ids, fields, "parent_id");
      hide RenameObj, MapListAt, MapIdAt;
    }
  }

  lemma RenameObjStays(fields: seq<Field>)
    requires match Get(fields, "obj") case Some(Obj(obj)) => FixedClass(obj) case _ => true
    ensures RenameObj(fields) == Ok(fields)
  {
    match Get(fields, "obj")
    case Some(Obj(obj)) =>
      var v := Get(obj, "component_name").value;
      SetSame(obj, "component_name", v);
      SetSame(fields, "obj", Obj(obj));
    case _ =>
  }

  lemma MapListStays(ids: seq<string>, fields: seq<Field>, key: string)
    requires Settled(ids)
    requires match Get(fields, key) case Some(Arr(items)) => Hashable(items) case _ => true
    ensures MapListAt(ids, fields, key) == Ok(fields)
  {
    match Get(fields, key)
    case Some(Arr(items)) =>
      LinksAreSettled(ids, items);
      SetSame(fields, key, Arr(items));
    case _ =>
  }

  lemma MapIdStays(ids: seq<string>, fields: seq<Field>, key: string)
    requires Settled(ids)
    ensures MapIdAt(ids, fields, key) == fields
  {
    SettledMap(ids);
    match Get(fields, key)
    case Some(Str(s)) => SetSame(fields, key, Str(s));
    case _ =>
  }

  // ---------- The component table ----------

  ghost predicate Distinct(keys: seq<string>) {
    forall i, j :: 0 <= i < j < |keys| ==> keys[i] != keys[j]
  }

  ghost predicate FixedTable(fields: seq<Field>) {
    Distinct(Keys(fields)) && Settled(Keys(fields)) && forall f <- fields :: Fixed(f.value)
  }

  lemma {:induction false} KeysOfSet(fields: seq<Field>, key: string, value: Json)
    ensures Keys(Set(fields, key, value)) == if key in Keys(fields) then Keys(fields) else Keys(fields) + [key]
  {
    if fields == [] {
    } else if fields[0].key == key {
      assert ([Field(key, value)] + fields[1..])[1..] == fields[1..];
    } else {
      KeysOfSet(fields[1..], key, value);
      assert ([fields[0]] + Set(fields[1..], key, value))[1..] == Set(fields[1..], key, value);
    }
  }

  lemma {:induction false} SetMembers(fields: seq<Field>, key: string, value: Json)
    ensures forall f <- Set(fields, key, value) :: f in fields || f == Field(key, value)
  {
    if fields != [] && fields[0].key != key {
      SetMembers(fields[1..], key, value);
    }
  }

  lemma TableGrows(done: seq<Field>, key: string, component: Json)
    requires FixedTable(done) && RenameId(key) == key && Fixed(component)
    ensures FixedTable(Set(done, key, component))
  {
    KeysOfSet(done, key, component);
    SetMembers(done, key, component);
    hide Set, Keys, Fixed, RenameId;
  }

  /** The rewritten table is fixed: new ids only, each once, every component migrated. */
  lemma {:induction false} TableIsFixed(ids: seq<string>, done: seq<Field>, components: seq<Field>)
    requires FixedTable(done) && forall k <- Keys(components) :: k in ids
    requires NormalizeComponents(ids, done, components).Ok?
    ensures FixedTable(NormalizeComponents(ids, done, components).value)
    decreases |components|
  {
    hide NormalizeComponent, FixedTable, RenameId;
    if components != [] {
      var key, c := components[0].key, components[0].value;
      assert key in Keys(components);
      ComponentIsFixed(ids, c);
      RenamedIsNew(key);
      var renamed := NormalizeComponent(ids, c).value;
      TableGrows(done, RenameId(key), renamed);
      TableIsFixed(ids, Set(done, RenameId(key), renamed), components[1..]);
    }
  }

  lemma ComponentIsFixed(ids: seq<string>, component: Json)
    requires NormalizeComponent(ids, component).Ok?
    ensures Fixed(NormalizeComponent(ids, component).value)
  {
    hide RewriteValue, Relink;
    match RewriteValue(ids, component)
    case Obj(fields) => RelinkFixes(ids, fields);
    case _ =>
  }

  /** Migrating a fixed table again rebuilds it field by field. */
  lemma {:induction false} FixedTableStays(ids: seq<string>, done: seq<Field>, rest: seq<Field>)
    requires Settled(ids) && FixedTable(done + rest)
    ensures NormalizeComponents(ids, done, rest) == Ok(done + rest)
    decreases |rest|
  {
    if rest == [] {
      assert done + rest == done;
    } else {
      var f := rest[0];
      assert f in done + rest;
      FixedComponentStays(ids, f.value);
      SettledMap(ids);
      hide NormalizeComponent, Fixed, RenameId, IdMap;
      KeysConcat(done, rest);
      var keys := Keys(done + rest);
      assert keys[|done|] == f.key && forall i :: 0 <= i < |done| ==> keys[i] == Keys(done)[i];
      SetFresh(done, f.key, f.value);
      assert done + [f] + rest[1..] == done + rest;
      FixedTableStays(ids, done + [f], rest[1..]);
    }
  }

  lemma {:induction false} KeysConcat(a: seq<Field>, b: seq<Field>)
    ensures Keys(a + b) == Keys(a) + Keys(b)
  {
    if a == [] {
      assert a + b == b;
    } else {
      assert (a + b)[1..] == a[1..] + b;
      KeysConcat(a[1..], b);
    }
  }

  lemma {:induction false} SetFresh(fields: seq<Field>, key: string, value: Json)
    requires key !in Keys(fields)
    ensures Set(fields, key, value) == fields + [Field(key, value)]
  {
    if fields != [] {
      SetFresh(fields[1..], key, value);
    }
  }

  // ---------- The drawn graph, twice ----------

  lemma RenameAtFrame(fields: seq<Field>, key: string, f: string -> string)
    ensures var r := RenameAt(fields, key, f);
      && (forall k :: k != key ==> Get(r, k) == Get(fields, k))
      && Get(r, key) == (match Get(fields, key) case Some(Str(s)) => Some(Str(f(s))) case other => other)
  {
    match Get(fields, key)
    case Some(Str(s)) =>
      forall k ensures Get(Set(fields, key, Str(f(s))), k) == if k == key then Some(Str(f(s))) else Get(fields, k) {
        GetSet(fields, key, Str(f(s)), k);
      }
    case _ =>
  }

  lemma RenameAtStays(fields: seq<Field>, key: string, f: string -> string)
    requires match Get(fields, key) case Some(Str(s)) => f(s) == s case _ => true
    ensures RenameAt(fields, key, f) == fields
  {
    match Get(fields, key)
    case Some(Str(s)) => SetSame(fields, key, Str(s));
    case _ =>
  }

  lemma DataTwice(ids: seq<string>, again: seq<string>, data: seq<Field>)
    requires Settled(again)
    ensures NormalizeData(again, NormalizeData(ids, data)) == NormalizeData(ids, data)
  {
    hide RenameAt, RewriteValue, Get, Set;
    var d1 := RenameAt(data, "label", RenameClass);
    var d2 := RenameAt(d1, "name", RenameClass);
    RenameAtFrame(data, "label", RenameClass);
    RenameAtFrame(d1, "name", RenameClass);
    var d3 := NormalizeData(ids, data);
    match Get(d2, "form")
    case Some(form) =>
      var v := RewriteValue(ids, form);
      GetSet(d2, "form", v, "label");
      GetSet(d2, "form", v, "name");
      GetSet(d2, "form", v, "form");
      DataStays(again, d3);
    case None => DataStays(again, d3);
  }

  lemma DataStays(ids: seq<string>, data: seq<Field>)
    requires Settled(ids)
    requires match Get(data, "label") case Some(Str(s)) => RenameClass(s) == s case _ => true
    requires match Get(data, "name") case Some(Str(s)) => RenameClass(s) == s case _ => true
    ensures NormalizeData(ids, data) == data
  {
    RenameAtStays(data, "label", RenameClass);
    RenameAtStays(data, "name", RenameClass);
    hide RenameAt, RewriteValue;
    match Get(data, "form")
    case Some(form) =>
      ValueIsSettled(ids, form);
      SetSame(data, "form", form);
    case None =>
  }

  lemma NodeTwice(ids: seq<string>, again: seq<string>, node: Json)
    requires Settled(again)
    ensures NormalizeNode(again, NormalizeNode(ids, node)) == NormalizeNode(ids, node)
  {
    hide RenameAt, NormalizeData, Get, Set;
    if node.Obj? {
      var n1 := RenameAt(node.fields, "id", IdMap(ids));
      var n2 := RenameAt(n1, "parentId", IdMap(ids));
      var n3 := RenameAt(n2, "type", RenameNodeType);
      RenameAtFrame(n2, "type", RenameNodeType);
      match Get(n3, "data")
      case Some(Obj(data)) =>
        var d := NormalizeData(ids, data);
        GetSet(n3, "data", Obj(d), "type");
        GetSet(n3, "data", Obj(d), "data");
        DataTwice(ids, again, data);
        NodeStays(again, Set(n3, "data", Obj(d)));
      case _ => NodeStays(again, n3);
    }
  }

  lemma NodeStays(ids: seq<string>, fields: seq<Field>)
    requires Settled(ids)
    requires match Get(fields, "type") case Some(Str(s)) => RenameNodeType(s) == s case _ => true
    requires match Get(fields, "data") case Some(Obj(data)) => NormalizeData(ids, data) == data case _ => true
    ensures NormalizeNode(ids, Obj(fields)) == Obj(fields)
  {
    SettledMap(ids);
    RenameAtStays(fields, "id", IdMap(ids));
    RenameAtStays(fields, "parentId", IdMap(ids));
    RenameAtStays(fields, "type", RenameNodeType);
    hide RenameAt, NormalizeData;
    match Get(fields, "data")
    case Some(Obj(data)) => SetSame(fields, "data", Obj(data));
    case _ =>
  }

  lemma {:induction false} ReplaceSame(s: string, x: string)
    ensures Replace(s, x, x) == s
    decreases |s|
  {
    if s != "" && x != "" {
      if x <= s {
        ReplaceSame(s[|x|..], x);
        assert x + s[|x|..] == s;
      } else {
        ReplaceSame(s[1..], x);
      }
    }
  }

  lemma {:induction false} InsertMembers(id: string, sorted: seq<string>)
    ensures forall x <- Insert(id, sorted) :: x == id || x in sorted
  {
    if sorted != [] && |sorted[0]| > |id| {
      InsertMembers(id, sorted[1..]);
    }
  }

  lemma {:induction false} LongestFirstMembers(ids: seq<string>)
    ensures forall x <- LongestFirst(ids) :: x in ids
  {
    if ids != [] {
      LongestFirstMembers(ids[1..]);
      InsertMembers(ids[0], LongestFirst(ids[1..]));
    }
  }

  lemma {:induction false} ReplaceAllSettled(s: string, ids: seq<string>)
    requires Settled(ids)
    ensures ReplaceAll(s, ids) == s
    decreases |ids|
  {
    if ids != [] {
      assert ids[0] in ids;
      ReplaceSame(s, ids[0]);
      ReplaceAllSettled(s, ids[1..]);
    }
  }

  lemma EdgeStays(ids: seq<string>, edge: Json)
    requires Settled(ids)
    ensures NormalizeEdge(ids, edge) == edge
  {
    if edge.Obj? {
      SettledMap(ids);
      LongestFirstMembers(ids);
      RenameAtStays(edge.fields, "source", IdMap(ids));
      RenameAtStays(edge.fields, "target", IdMap(ids));
      forall s: string ensures ReplaceAll(s, LongestFirst(ids)) == s {
        ReplaceAllSettled(s, LongestFirst(ids));
      }
      RenameAtStays(edge.fields, "id", s => ReplaceAll(s, LongestFirst(ids)));
      hide RenameAt, RenameId;
    }
  }

  lemma {:induction false} NodesTwice(ids: seq<string>, again: seq<string>, nodes: seq<Json>)
    requires Settled(again)
    ensures NormalizeNodes(again, NormalizeNodes(ids, nodes)) == NormalizeNodes(ids, nodes)
  {
    hide NormalizeNode;
    if nodes != [] {
      NodeTwice(ids, again, nodes[0]);
      NodesTwice(ids, again, nodes[1..]);
    }
  }

  lemma {:induction false} EdgesStay(ids: seq<string>, edges: seq<Json>)
    requires Settled(ids)
    ensures NormalizeEdges(ids, edges) == edges
  {
    hide NormalizeEdge;
    if edges != [] {
      EdgeStays(ids, edges[0]);
      EdgesStay(ids, edges[1..]);
    }
  }

  ghost predicate FixedNodes(ids: seq<string>, graph: seq<Field>) {
    match Get(graph, "nodes")
    case Some(Arr(nodes)) => NormalizeNodes(ids, nodes) == nodes
    case _ => true
  }

  function NodesAt(ids: seq<string>, graph: seq<Field>): seq<Field> {
    match Get(graph, "nodes")
    case Some(Arr(nodes)) => Set(graph, "nodes", Arr(NormalizeNodes(ids, nodes)))
    case _ => graph
  }

  lemma NodesAtFixes(ids: seq<string>, again: seq<string>, graph: seq<Field>)
    requires Settled(again)
    ensures FixedNodes(again, NodesAt(ids, graph))
  {
    hide NormalizeNodes, Get, Set;
    match Get(graph, "nodes")
    case Some(Arr(nodes)) =>
      GetSet(graph, "nodes", Arr(NormalizeNodes(ids, nodes)), "nodes");
      NodesTwice(ids, again, nodes);
    case _ =>
  }

  lemma GraphTwice(ids: seq<string>, again: seq<string>, graph: seq<Field>)
    requires Settled(again)
    ensures NormalizeGraph(again, NormalizeGraph(ids, graph)) == NormalizeGraph(ids, graph)
  {
    hide NormalizeNodes, NormalizeEdges, Get, Set;
    NodesAtFixes(ids, again, graph);
    var g := NodesAt(ids, graph);
    match Get(g, "edges")
    case Some(Arr(edges)) =>
      GetSet(g, "edges", Arr(NormalizeEdges(ids, edges)), "nodes");
      GraphStays(again, Set(g, "edges", Arr(NormalizeEdges(ids, edges))));
    case _ => GraphStays(again, g);
  }

  lemma GraphStays(ids: seq<string>, graph: seq<Field>)
    requires Settled(ids) && FixedNodes(ids, graph)
    ensures NormalizeGraph(ids, graph) == graph
  {
    hide NormalizeNodes, NormalizeEdges;
    match Get(graph, "nodes") {
      case Some(Arr(nodes)) => SetSame(graph, "nodes", Arr(nodes));
      case _ =>
    }
    match Get(graph, "edges") {
      case Some(Arr(edges)) =>
        EdgesStay(ids, edges);
        SetSame(graph, "edges", Arr(edges));
      case _ =>
    }
  }

  // ---------- The document, twice ----------

  lemma RewriteAtFrame(ids: seq<string>, fields: seq<Field>, key: string)
    ensures var r := RewriteAt(ids, fields, key);
      forall k :: k != key ==> Get(r, k) == Get(fields, k)
  {
    match Get(fields, key)
    case Some(v) =>
      forall k | k != key ensures Get(Set(fields, key, RewriteValue(ids, v)), k) == Get(fields, k) {
        GetSet(fields, key, RewriteValue(ids, v), k);
      }
    case None =>
  }

  lemma RewriteAtStays(ids: seq<string>, fields: seq<Field>, key: string)
    requires Settled(ids)
    ensures RewriteAt(ids, fields, key) == fields
  {
    match Get(fields, key)
    case Some(v) =>
      ValueIsSettled(ids, v);
      SetSame(fields, key, v);
    case None =>
  }

  /** What the rest of a migrated document looks like. */
  ghost predicate FixedRest(again: seq<string>, fields: seq<Field>) {
    && (match Get(fields, "path") case Some(Arr(items)) => Hashable(items) case _ => true)
    && (match Get(fields, "graph") case Some(Obj(graph)) => NormalizeGraph(again, graph) == graph case _ => true)
  }

  function GraphAt(ids: seq<string>, fields: seq<Field>): seq<Field> {
    match Get(fields, "graph")
    case Some(Obj(graph)) => Set(fields, "graph", Obj(NormalizeGraph(ids, graph)))
    case _ => fields
  }

  lemma GraphAtFixes(ids: seq<string>, again: seq<string>, fields: seq<Field>)
    requires Settled(again)
    ensures var r := GraphAt(ids, fields);
      && (match Get(r, "graph") case Some(Obj(graph)) => NormalizeGraph(again, graph) == graph case _ => true)
      && (forall k :: k != "graph" ==> Get(r, k) == Get(fields, k))
  {
    hide NormalizeGraph, Get, Set;
    match Get(fields, "graph")
    case Some(Obj(graph)) =>
      GraphTwice(ids, again, graph);
      forall k ensures Get(Set(fields, "graph", Obj(NormalizeGraph(ids, graph))), k)
                       == if k == "graph" then Some(Obj(NormalizeGraph(ids, graph))) else Get(fields, k)
      {
        GetSet(fields, "graph", Obj(NormalizeGraph(ids, graph)), k);
      }
    case _ =>
  }

  lemma RestIsFixed(ids: seq<string>, again: seq<string>, fields: seq<Field>)
    requires Settled(again) && NormalizeRest(ids, fields).Ok?
    ensures var r := NormalizeRest(ids, fields).value;
      && r.Obj? && FixedRest(again, r.fields)
      && Get(r.fields, "components") == Get(fields, "components")
  {
    hide MapListAt, NormalizeGraph, RewriteAt, Get, Hashable, Set;
    MapListFixes(ids, fields, "path");
    var f1 := MapListAt(ids, fields, "path").value;
    GraphAtFixes(ids, again, f1);
    var f2 := GraphAt(ids, f1);
    RewriteAtFrame(ids, f2, "history");
    var f3 := RewriteAt(ids, f2, "history");
    RewriteAtFrame(ids, f3, "messages");
    var f4 := RewriteAt(ids, f3, "messages");
    RewriteAtFrame(ids, f4, "reference");
  }

  lemma FixedRestStays(ids: seq<string>, fields: seq<Field>)
    requires Settled(ids) && FixedRest(ids, fields)
    ensures NormalizeRest(ids, fields) == Ok(Obj(fields))
  {
    MapListStays(ids, fields, "path");
    match Get(fields, "graph") {
      case Some(Obj(graph)) => SetSame(fields, "graph", Obj(graph));
      case _ =>
    }
    hide MapListAt, NormalizeGraph, RewriteAt, Hashable;
    RewriteAtStays(ids, fields, "history");
    RewriteAtStays(ids, fields, "messages");
    RewriteAtStays(ids, fields, "reference");
  }

  /** Migrating twice is migrating once, for every document the migration accepts. */
  lemma MigrationIsIdempotent(dsl: Json)
    requires Normalize(dsl).Ok?
    ensures Normalize(Normalize(dsl).value) == Normalize(dsl)
  {
    if dsl.Obj? && Get(dsl.fields, "components").Some? && Get(dsl.fields, "components").value.Obj? {
      var components := Get(dsl.fields, "components").value.fields;
      var ids := Keys(components);
      hide NormalizeComponents, NormalizeRest, FixedTable, FixedRest;
      assert FixedTable([]) by { EmptyTable(); }
      TableIsFixed(ids, [], components);
      var table := NormalizeComponents(ids, [], components).value;
      FixedTableKeys(table);
      var again := Keys(table);
      GetSet(dsl.fields, "components", Obj(table), "components");
      var fields := Set(dsl.fields, "components", Obj(table));
      RestIsFixed(ids, again, fields);
      var r := NormalizeRest(ids, fields).value;
      assert [] + table == table;
      FixedTableStays(again, [], table);
      SetSame(r.fields, "components", Obj(table));
      FixedRestStays(again, r.fields);
    }
  }

  lemma EmptyTable()
    ensures FixedTable([])
  {
  }

  lemma FixedTableKeys(table: seq<Field>)
    requires FixedTable(table)
    ensures Settled(Keys(table)) && Distinct(Keys(table))
  {
  }

  // ---------- The graph is kept ----------

  /** `a` is a list of links, `b` the list after migration: position by position, a link that names a
      component names the image of that component. */
  ghost predicate SameLinks(ids: seq<string>, a: Option<Json>, b: Option<Json>) {
    a.Some? && a.value.Arr? ==>
      && b.Some? && b.value.Arr? && |b.value.items| == |a.value.items|
      && forall j :: 0 <= j < |a.value.items| ==> SameLink(ids, a.value.items[j], b.value.items[j])
  }

  ghost predicate SameLink(ids: seq<string>, a: Json, b: Json) {
    a.Str? && a.s in ids ==> b == Str(RenameId(a.s))
  }

  /** The links of a component and of its migrated form. */
  ghost predicate SameStructure(ids: seq<string>, a: Json, b: Json) {
    a.Obj? ==>
      && b.Obj?
      && SameLinks(ids, Get(a.fields, "downstream"), Get(b.fields, "downstream"))
      && SameLinks(ids, Get(a.fields, "upstream"), Get(b.fields, "upstream"))
      && (match Get(a.fields, "parent_id")
          case Some(p) => Get(b.fields, "parent_id").Some? && SameLink(ids, p, Get(b.fields, "parent_id").value)
          case None => Get(b.fields, "parent_id") == None)
  }

  lemma {:induction false} GetRewritten(ids: seq<string>, fields: seq<Field>, key: string)
    ensures Get(RewriteFields(ids, fields), key)
         == match Get(fields, key) case Some(v) => Some(RewriteValue(ids, v)) case None => None
  {
    if fields != [] && fields[0].key != key {
      GetRewritten(ids, fields[1..], key);
    }
  }

  /** Rewriting a value maps a link, and mapping it again changes nothing. */
  lemma LinkTwice(ids: seq<string>, v: Json)
    ensures SameLink(ids, v, RewriteValue(ids, v))
    ensures SameLink(ids, v, MapLink(ids, RewriteValue(ids, v)))
  {
    if v.Str? && v.s in ids {
      RenamedIsNew(v.s);
    }
    hide Rewrite, RenameId;
  }

  lemma {:induction false} RewrittenItem(ids: seq<string>, items: seq<Json>, j: nat)
    requires j < |items|
    ensures RewriteItems(ids, items)[j] == RewriteValue(ids, items[j])
  {
    hide RewriteValue;
    if j > 0 {
      RewrittenItem(ids, items[1..], j - 1);
    }
  }

  lemma {:induction false} MappedItem(ids: seq<string>, items: seq<Json>, j: nat)
    requires j < |items| && MapLinks(ids, items).Ok?
    ensures MapLinks(ids, items).value[j] == MapLink(ids, items[j])
  {
    hide MapLink;
    if j > 0 {
      MappedItem(ids, items[1..], j - 1);
    }
  }

  lemma ListAtKeepsLinks(ids: seq<string>, fields: seq<Field>, rewritten: seq<Field>, key: string)
    requires match Get(fields, key)
             case Some(v) => Get(rewritten, key) == Some(RewriteValue(ids, v))
             case None => Get(rewritten, key) == None
    requires MapListAt(ids, rewritten, key).Ok?
    ensures SameLinks(ids, Get(fields, key), Get(MapListAt(ids, rewritten, key).value, key))
  {
    if Get(fields, key).Some? && Get(fields, key).value.Arr? {
      var items := Get(fields, key).value.items;
      var again := RewriteItems(ids, items);
      assert Get(rewritten, key) == Some(Arr(again));
      var mapped := MapLinks(ids, again).value;
      GetSet(rewritten, key, Arr(mapped), key);
      forall j | 0 <= j < |items| ensures SameLink(ids, items[j], mapped[j]) {
        RewrittenItem(ids, items, j);
        MappedItem(ids, again, j);
        LinkTwice(ids, items[j]);
      }
    }
  }

  lemma RelinkKeepsLinks(ids: seq<string>, fields: seq<Field>, f0: seq<Field>)
    requires f0 == RewriteFields(ids, fields) && Relink(ids, f0).Ok?
    ensures SameStructure(ids, Obj(fields), Relink(ids, f0).value)
  {
    hide RewriteFields, RewriteValue, RenameObj, MapListAt, MapIdAt, SameLinks, SameLink, Get, FixedClass, Hashable;
    GetRewritten(ids, fields, "downstream");
    GetRewritten(ids, fields, "upstream");
    GetRewritten(ids, fields, "parent_id");
    RenameObjFixes(f0);
    var f1 := RenameObj(f0).value;
    MapListFixes(ids, f1, "downstream");
    ListAtKeepsLinks(ids, fields, f1, "downstream");
    var f2 := MapListAt(ids, f1, "downstream").value;
    MapListFixes(ids, f2, "upstream");
    ListAtKeepsLinks(ids, fields, f2, "upstream");
    var f3 := MapListAt(ids, f2, "upstream").value;
    MapIdFrame(ids, f3, "parent_id");
    ParentIsKept(ids, Get(fields, "parent_id"), f3);
  }

  /** A migrated component has the links of the original under the new ids. */
  lemma ComponentKeepsLinks(ids: seq<string>, component: Json)
    requires NormalizeComponent(ids, component).Ok?
    ensures SameStructure(ids, component, NormalizeComponent(ids, component).value)
  {
    hide RewriteFields, Relink, SameLinks, SameLink, Get;
    if component.Obj? {
      hide SameStructure;
      assert RewriteValue(ids, component) == Obj(RewriteFields(ids, component.fields));
      RelinkKeepsLinks(ids, component.fields, RewriteFields(ids, component.fields));
    }
  }

  lemma ParentIsKept(ids: seq<string>, parent: Option<Json>, fields: seq<Field>)
    requires Get(fields, "parent_id") == match parent case Some(v) => Some(RewriteValue(ids, v)) case None => None
    ensures var r := Get(MapIdAt(ids, fields, "parent_id"), "parent_id");
      match parent
      case Some(p) => r.Some? && SameLink(ids, p, r.value)
      case None => r == None
  {
    match parent
    case Some(p) =>
      LinkTwice(ids, p);
      var v := RewriteValue(ids, p);
      hide RewriteValue, SameLink;
      if v.Str? {
        GetSet(fields, "parent_id", Str(IdMap(ids)(v.s)), "parent_id");
      }
    case None =>
  }

  /** No two components of the document get the same id. */
  ghost predicate NoCollision(ids: seq<string>) {
    forall a <- ids, b <- ids :: RenameId(a) == RenameId(b) ==> a == b
  }

  /** `b` is the component table `a` after migration: the same components in the same order, under their
      new ids, each with the same links. */
  ghost predicate SameTable(ids: seq<string>, a: seq<Field>, b: seq<Field>) {
    && |b| == |a|
    && forall i :: 0 <= i < |a| ==> b[i].key == RenameId(a[i].key) && SameStructure(ids, a[i].value, b[i].value)
  }

  lemma {:induction false} KeyAt(fields: seq<Field>, i: nat)
    requires i < |fields|
    ensures Keys(fields)[i] == fields[i].key
  {
    if i > 0 {
      KeyAt(fields[1..], i - 1);
    }
  }

  lemma {:induction false} TableIsKept(ids: seq<string>, all: seq<Field>, done: seq<Field>, k: nat)
    requires ids == Keys(all) && Distinct(ids) && NoCollision(ids)
    requires k <= |all| && SameTable(ids, all[..k], done)
    requires NormalizeComponents(ids, done, all[k..]).Ok?
    ensures SameTable(ids, all, NormalizeComponents(ids, done, all[k..]).value)
    decreases |all| - k
  {
    hide NormalizeComponent, SameStructure, RenameId;
    if k == |all| {
      assert all[..k] == all;
    } else {
      var f := all[k];
      KeyAt(all, k);
      assert f.key in ids;
      ComponentKeepsLinks(ids, f.value);
      var c := NormalizeComponent(ids, f.value).value;
      forall i | 0 <= i < |done| ensures done[i].key != RenameId(f.key) {
        KeyAt(all, i);
        assert done[i].key == RenameId(all[i].key) && ids[i] != ids[k];
      }
      NewKey(done, RenameId(f.key));
      SetFresh(done, RenameId(f.key), c);
      assert all[k..][0] == f && all[k..][1..] == all[k + 1..];
      TableIsKept(ids, all, done + [Field(RenameId(f.key), c)], k + 1);
    }
  }

  lemma {:induction false} NewKey(fields: seq<Field>, key: string)
    requires forall i :: 0 <= i < |fields| ==> fields[i].key != key
    ensures key !in Keys(fields)
  {
    if fields != [] {
      NewKey(fields[1..], key);
    }
  }

  /** When no two ids collide the migration is an isomorphism of the component graph: no component is lost or
      reordered, and downstream, upstream, parent and path entries that name a component name its image, so
      a link that was not dangling is not dangling afterwards. */
  lemma MigrationKeepsTheGraph(dsl: Json, components: seq<Field>)
    requires dsl.Obj? && Get(dsl.fields, "components") == Some(Obj(components))
    requires Distinct(Keys(components)) && NoCollision(Keys(components))
    requires Normalize(dsl).Ok?
    ensures var ids := Keys(components);
      var r := Normalize(dsl).value;
      && r.Obj?
      && SameLinks(ids, Get(dsl.fields, "path"), Get(r.fields, "path"))
      && Get(r.fields, "components").Some? && Get(r.fields, "components").value.Obj?
      && SameTable(ids, components, Get(r.fields, "components").value.fields)
  {
    hide NormalizeComponents, NormalizeRest, SameLinks, SameTable, RenameId;
    var ids := Keys(components);
    EmptyTableIsKept(ids, components);
    TableIsKept(ids, components, [], 0);
    assert components[0..] == components;
    var table := NormalizeComponents(ids, [], components).value;
    var fields := Set(dsl.fields, "components", Obj(table));
    GetSet(dsl.fields, "components", Obj(table), "components");
    GetSet(dsl.fields, "components", Obj(table), "path");
    RestKeepsPath(ids, fields);
  }

  lemma {:induction false} SetGrows(fields: seq<Field>, key: string, value: Json)
    ensures |Set(fields, key, value)| == |fields| + (if key in Keys(fields) then 0 else 1)
    ensures forall k :: k in Keys(Set(fields, key, value)) <==> k in Keys(fields) || k == key
    decreases |fields|
  {
    if fields != [] && fields[0].key != key {
      SetGrows(fields[1..], key, value);
    }
  }

  /** Two components of the rest get the same id, or one gets the id of a component that is already there. */
  ghost predicate Clash(done: seq<Field>, rest: seq<Field>) {
    || (exists i :: 0 <= i < |rest| && RenameId(rest[i].key) in Keys(done))
    || (exists i, j :: 0 <= i < j < |rest| && RenameId(rest[i].key) == RenameId(rest[j].key))
  }

  lemma ClashStep(done: seq<Field>, rest: seq<Field>, grown: seq<Field>)
    requires rest != [] && forall k :: k in Keys(grown) <==> k in Keys(done) || k == RenameId(rest[0].key)
    ensures Clash(done, rest) <==> RenameId(rest[0].key) in Keys(done) || Clash(grown, rest[1..])
  {
    hide RenameId, Keys;
    var tail := rest[1..];
    assert forall i :: 0 <= i < |tail| ==> tail[i] == rest[i + 1];
    if i, j :| 0 <= i < j < |rest| && RenameId(rest[i].key) == RenameId(rest[j].key) {
      assert RenameId(tail[j - 1].key) == RenameId(rest[j].key);
      assert i > 0 ==> RenameId(tail[i - 1].key) == RenameId(rest[i].key);
    }
    if i :| 0 <= i < |rest| && RenameId(rest[i].key) in Keys(done) {
      assert i > 0 ==> RenameId(tail[i - 1].key) in Keys(grown);
    }
    if i :| 0 <= i < |tail| && RenameId(tail[i].key) in Keys(grown) {
      assert RenameId(rest[i + 1].key) == RenameId(tail[i].key);
    }
    if i, j :| 0 <= i < j < |tail| && RenameId(tail[i].key) == RenameId(tail[j].key) {
      assert RenameId(rest[i + 1].key) == RenameId(rest[j + 1].key);
    }
  }

  lemma KeysStart(fields: seq<Field>)
    requires fields != []
    ensures Keys(fields) == [fields[0].key] + Keys(fields[1..])
  {
  }

  lemma TableStep(ids: seq<string>, done: seq<Field>, rest: seq<Field>)
    requires NormalizeComponents(ids, done, rest).Ok? && (rest != [] ==> rest[0].key in ids)
    ensures rest == [] ==> NormalizeComponents(ids, done, rest) == Ok(done)
    ensures rest != [] ==>
              && NormalizeComponent(ids, rest[0].value).Ok?
              && NormalizeComponents(ids, done, rest)
                 == NormalizeComponents(
                      ids, Set(done, RenameId(rest[0].key), NormalizeComponent(ids, rest[0].value).value), rest[1..])
  {
    hide NormalizeComponent, RenameId, Set;
  }

  lemma {:induction false} TableSize(ids: seq<string>, done: seq<Field>, rest: seq<Field>)
    requires NormalizeComponents(ids, done, rest).Ok? && forall k <- Keys(rest) :: k in ids
    ensures var n := |NormalizeComponents(ids, done, rest).value|;
      n <= |done| + |rest| && (n == |done| + |rest| <==> !Clash(done, rest))
    decreases |rest|
  {
    hide NormalizeComponent, NormalizeComponents, RenameId, Set, Keys, Clash;
    if rest != [] {
      KeysStart(rest);
    }
    TableStep(ids, done, rest);
    if rest != [] {
      var f := rest[0];
      var grown := Set(done, RenameId(f.key), NormalizeComponent(ids, f.value).value);
      SetGrows(done, RenameId(f.key), NormalizeComponent(ids, f.value).value);
      ClashStep(done, rest, grown);
      TableSize(ids, grown, rest[1..]);
    } else {
      NoClash(done);
    }
  }

  lemma NoClash(done: seq<Field>)
    ensures !Clash(done, [])
  {
  }

  lemma ClashIsCollision(components: seq<Field>)
    requires Distinct(Keys(components))
    ensures Clash([], components) <==> !NoCollision(Keys(components))
  {
    hide RenameId, Keys;
    var ids := Keys(components);
    forall i | 0 <= i < |components| ensures ids[i] == components[i].key {
      KeyAt(components, i);
    }
    assert Keys([]) == [] by { NoKeys(); }
    if !NoCollision(ids) {
      var a, b :| a in ids && b in ids && RenameId(a) == RenameId(b) && a != b;
      var i :| 0 <= i < |ids| && ids[i] == a;
      var j :| 0 <= j < |ids| && ids[j] == b;
      if i < j {
        assert RenameId(components[i].key) == RenameId(components[j].key);
      } else {
        assert RenameId(components[j].key) == RenameId(components[i].key);
      }
    }
    if i, j :| 0 <= i < j < |components| && RenameId(components[i].key) == RenameId(components[j].key) {
      assert ids[i] in ids && ids[j] in ids && ids[i] != ids[j];
    }
  }

  lemma NoKeys()
    ensures Keys([]) == []
  {
  }

  /** No component is lost exactly if no two ids collide. */
  lemma NoComponentIsLostIff(dsl: Json, components: seq<Field>)
    requires dsl.Obj? && Get(dsl.fields, "components") == Some(Obj(components))
    requires Distinct(Keys(components)) && Normalize(dsl).Ok?
    ensures var r := Normalize(dsl).value;
      && r.Obj? && Get(r.fields, "components").Some? && Get(r.fields, "components").value.Obj?
      && (|Get(r.fields, "components").value.fields| == |components| <==> NoCollision(Keys(components)))
  {
    hide NormalizeComponents, NormalizeRest, SameLinks, RenameId, NoCollision, Clash;
    var ids := Keys(components);
    TableSize(ids, [], components);
    ClashIsCollision(components);
    var table := NormalizeComponents(ids, [], components).value;
    var fields := Set(dsl.fields, "components", Obj(table));
    GetSet(dsl.fields, "components", Obj(table), "components");
    RestKeepsPath(ids, fields);
  }

  lemma EmptyTableIsKept(ids: seq<string>, components: seq<Field>)
    ensures SameTable(ids, components[..0], [])
  {
  }

  lemma RestKeepsPath(ids: seq<string>, fields: seq<Field>)
    requires NormalizeRest(ids, fields).Ok?
    ensures var r := NormalizeRest(ids, fields).value;
      && r.Obj? && Get(r.fields, "components") == Get(fields, "components")
      && SameLinks(ids, Get(fields, "path"), Get(r.fields, "path"))
  {
    hide MapListAt, NormalizeGraph, RewriteAt, Get, Set, SameLinks;
    MapListFixes(ids, fields, "path");
    PathIsMapped(ids, fields);
    var f1 := MapListAt(ids, fields, "path").value;
    GraphAtFixes(ids, [], f1);
    var f2 := GraphAt(ids, f1);
    RewriteAtFrame(ids, f2, "history");
    var f3 := RewriteAt(ids, f2, "history");
    RewriteAtFrame(ids, f3, "messages");
    var f4 := RewriteAt(ids, f3, "messages");
    RewriteAtFrame(ids, f4, "reference");
  }

  lemma PathIsMapped(ids: seq<string>, fields: seq<Field>)
    requires MapListAt(ids, fields, "path").Ok?
    ensures SameLinks(ids, Get(fields, "path"), Get(MapListAt(ids, fields, "path").value, "path"))
  {
    if Get(fields, "path").Some? && Get(fields, "path").value.Arr? {
      var items := Get(fields, "path").value.items;
      var mapped := MapLinks(ids, items).value;
      GetSet(fields, "path", Arr(mapped), "path");
      forall j | 0 <= j < |items| ensures SameLink(ids, items[j], mapped[j]) {
        MappedItem(ids, items, j);
      }
    }
  }

  // ---------- The id map is a renaming ----------

  lemma PlainStaysPlain(id: string)
    requires Plain(id)
    ensures Plain(RenameId(id))
  {
    if SPLITTER <= id {
      PlainSuffix(id, |SPLITTER|);
      ClassPrefixIsPlain();
      SpanAppend(IdChar, TOKEN_CHUNKER, id[|SPLITTER|..]);
    } else if HIERARCHICAL_MERGER <= id {
      PlainSuffix(id, |HIERARCHICAL_MERGER|);
      ClassPrefixIsPlain();
      SpanAppend(IdChar, TITLE_CHUNKER, id[|HIERARCHICAL_MERGER|..]);
    }
    hide Span;
  }

  lemma PlainSuffix(id: string, k: nat)
    requires Plain(id) && k <= |id|
    ensures Span(IdChar, id[k..]) == |id| - k
  {
    SpanDrop(IdChar, id, k);
  }

  lemma {:induction false} AllInClass(c: Cls, t: string)
    requires forall k :: 0 <= k < |t| ==> In(c, t[k])
    ensures Span(c, t) == |t|
  {
    if t != [] {
      AllInClass(c, t[1..]);
    }
  }

  lemma ClassPrefixIsPlain()
    ensures Span(IdChar, TOKEN_CHUNKER) == |TOKEN_CHUNKER| && Span(IdChar, TITLE_CHUNKER) == |TITLE_CHUNKER|
  {
    hide Span;
    AllInClass(IdChar, TOKEN_CHUNKER);
    AllInClass(IdChar, TITLE_CHUNKER);
  }

  /** The document's id map has what the text law asks for. */
  lemma IdMapIsMigrationMap(ids: seq<string>, w: Outputs)
    requires forall id :: id in w.cpns <==> id in ids
    ensures MigrationMap(IdMap(ids), w)
  {
    var f := IdMap(ids);
    forall id | Plain(id) ensures Plain(f(id)) {
      PlainStaysPlain(id);
    }
    forall id | f(id) != id
      ensures id in w.cpns && id != [] && f(id) != [] && f(id)[0] != id[0] && forall was <- w.cpns :: f(was) != id
    {
      RenamedIsNew(id);
      forall was <- w.cpns ensures f(was) != id {
        RenamedIsNew(was);
      }
    }
    hide Plain, RenameId;
  }

  /** The whole law for a business text of a migrated document: unless the text is itself a component id, the
      canvas renders it as before exactly when it is clean. */
  lemma MigratedTextMeansTheSame(ids: seq<string>, w: Outputs, v: Outputs, t: string)
    requires forall id :: id in w.cpns <==> id in ids
    requires Rekeyed(IdMap(ids), w, v) && t !in ids && Render(w, t).Some?
    ensures Render(v, RewriteText(ids, t)) == Render(w, t) <==> Clean(IdMap(ids), t)
  {
    IdMapIsMigrationMap(ids, w);
    hide IdMap, MigrationMap, Rekeyed, Clean, Render, Rewrite;
    RenderingIsPreserved(IdMap(ids), w, v, t);
  }

  /** A text that is a component id is replaced whole: it renders as before exactly when the id stays and no key read
      inside it names a renamed component. */
  lemma WholeIdText(ids: seq<string>, w: Outputs, v: Outputs, t: string)
    requires forall id :: id in w.cpns <==> id in ids
    requires Rekeyed(IdMap(ids), w, v) && t in ids && Render(w, t).Some?
    ensures Render(v, RewriteText(ids, t)) == Render(w, t)
       <==> RenameId(t) == t && forall key <- KeysRead(t) :: KeyUntouched(IdMap(ids), key)
  {
    IdMapIsMigrationMap(ids, w);
    assert RewriteText(ids, t) == RenameId(t);
    hide MigrationMap, Rekeyed, Render, KeysRead, KeyUntouched, RewriteText;
    if RenameId(t) == t {
      UnrewrittenText(IdMap(ids), w, v, t);
    } else {
      RenamedFirst(t);
      PlainFirst(w, t);
      PlainFirst(v, RenameId(t));
    }
  }

  lemma RenamedFirst(t: string)
    requires RenameId(t) != t
    ensures t != [] && RenameId(t) != [] && t[0] != RenameId(t)[0]
    ensures t[0] != '{' && t[0] != ' ' && RenameId(t)[0] != '{' && RenameId(t)[0] != ' '
  {
  }

  /** A text that begins with neither a brace nor a space keeps its first character. */
  lemma PlainFirst(w: Outputs, t: string)
    requires t != [] && t[0] != '{' && t[0] != ' '
    ensures Render(w, t).Some? ==> Render(w, t).value != [] && Render(w, t).value[0] == t[0]
  {
    NoOpenBrace(t);
    NoSpaces(t);
    assert t[0..] == t;
    OpeningCases(t);
    NoReferenceNoKey(t);
    hide Reference, Opening, Span, Key;
    RenderStep(w, t);
  }

  /** Class prefixes contain no part of a user form's name, so renaming keeps such names, and only those. */
  lemma FormNamesAreKept(id: string)
    ensures CanvasModel.NamedFillUp(RenameId(id)) == CanvasModel.NamedFillUp(id)
  {
    if SPLITTER <= id {
      FormNameBehindPrefix(SPLITTER, id[|SPLITTER|..]);
      FormNameBehindPrefix(TOKEN_CHUNKER, id[|SPLITTER|..]);
      assert id == SPLITTER + id[|SPLITTER|..];
    } else if HIERARCHICAL_MERGER <= id {
      FormNameBehindPrefix(HIERARCHICAL_MERGER, id[|HIERARCHICAL_MERGER|..]);
      FormNameBehindPrefix(TITLE_CHUNKER, id[|HIERARCHICAL_MERGER|..]);
      assert id == HIERARCHICAL_MERGER + id[|HIERARCHICAL_MERGER|..];
    }
  }

  lemma Shifted(prefix: string, rest: string, i: nat)
    requires i + 10 <= |rest|
    ensures (prefix + rest)[|prefix| + i..|prefix| + i + 10] == rest[i..i + 10]
  {
    assert (prefix + rest)[|prefix| + i..] == rest[i..];
  }

  lemma FormNameBehindPrefix(prefix: string, rest: string)
    requires prefix == SPLITTER || prefix == TOKEN_CHUNKER || prefix == HIERARCHICAL_MERGER || prefix == TITLE_CHUNKER
    ensures CanvasModel.NamedFillUp(prefix + rest) == CanvasModel.NamedFillUp(rest)
  {
    var id := prefix + rest;
    var n := |prefix|;
    forall i | 0 <= i <= |rest| ensures CanvasModel.NamesFormAt(id, n + i) == CanvasModel.NamesFormAt(rest, i) {
      if i + 10 <= |rest| {
        Shifted(prefix, rest, i);
      }
    }
    forall i | 0 <= i < n ensures !CanvasModel.NamesFormAt(id, i) {
      NoFormInPrefix(prefix, rest, i);
    }
    if CanvasModel.NamedFillUp(id) {
      var i :| 0 <= i <= |id| && CanvasModel.NamesFormAt(id, i);
      assert i >= n && CanvasModel.NamesFormAt(rest, i - n);
    }
    if CanvasModel.NamedFillUp(rest) {
      var i :| 0 <= i <= |rest| && CanvasModel.NamesFormAt(rest, i);
      assert CanvasModel.NamesFormAt(id, n + i);
    }
  }

  /** An occurrence that began inside the prefix would contain its colon, or spell part of the class name. */
  lemma NoFormInPrefix(prefix: string, rest: string, i: nat)
    requires prefix == SPLITTER || prefix == TOKEN_CHUNKER || prefix == HIERARCHICAL_MERGER || prefix == TITLE_CHUNKER
    requires i < |prefix|
    ensures !CanvasModel.NamesFormAt(prefix + rest, i)
  {
    var id := prefix + rest;
    var n := |prefix|;
    if i + 10 <= |id| {
      var part := Lower(id[i..i + 10]);
      if n <= i + 10 {
        assert part[n - 1 - i] == id[n - 1] == ':';
        assert forall k :: 0 <= k < 10 ==> "userfillup"[k] != ':';
      } else {
        assert part[0] == LowerChar(prefix[i]) && part[1] == LowerChar(prefix[i + 1]);
      }
    }
  }
}
