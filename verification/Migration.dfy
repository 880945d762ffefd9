/** `normalize_chunker_dsl`: the migration of a whole canvas document. */
module Migration {
  import opened Common
  import opened MigrationText

  /** A JSON value; the fields of an object are in dictionary order. */
  datatype Json = Null | Bool(b: bool) | Num(n: real) | Str(s: string) | Arr(items: seq<Json>) | Obj(fields: seq<Field>)
  datatype Field = Field(key: string, value: Json)

  /** `Raised` is the TypeError of using a list or a dictionary as a dictionary key. */
  datatype Result<T> = Ok(value: T) | Raised

  // ---------- Dictionaries ----------

  function Get(fields: seq<Field>, key: string): Option<Json> {
    if fields == [] then None
    else if fields[0].key == key then Some(fields[0].value)
    else Get(fields[1..], key)
  }

  /** `d[key] = value`: in place, or at the end. */
  function Set(fields: seq<Field>, key: string, value: Json): seq<Field> {
    if fields == [] then [Field(key, value)]
    else if fields[0].key == key then [Field(key, value)] + fields[1..]
    else [fields[0]] + Set(fields[1..], key, value)
  }

  function Keys(fields: seq<Field>): (r: seq<string>)
    ensures |r| == |fields|
  {
    if fields == [] then [] else [fields[0].key] + Keys(fields[1..])
  }

  lemma {:induction false} GetSet(fields: seq<Field>, key: string, value: Json, other: string)
    ensures Get(Set(fields, key, value), other) == if other == key then Some(value) else Get(fields, other)
  {
    if fields != [] && fields[0].key != key {
      GetSet(fields[1..], key, value, other);
      assert ([fields[0]] + Set(fields[1..], key, value))[1..] == Set(fields[1..], key, value);
    }
  }

  lemma {:induction false} SetSame(fields: seq<Field>, key: string, value: Json)
    requires Get(fields, key) == Some(value)
    ensures Set(fields, key, value) == fields
  {
    if fields[0].key != key {
      SetSame(fields[1..], key, value);
    }
  }

  // ---------- Names ----------

  const SPLITTER := "Splitter:"
  const TOKEN_CHUNKER := "TokenChunker:"
  const HIERARCHICAL_MERGER := "HierarchicalMerger:"
  const TITLE_CHUNKER := "TitleChunker:"

  /** The new id of a component: a legacy class prefix is replaced. */
  function RenameId(id: string): string {
    if SPLITTER <= id then TOKEN_CHUNKER + id[|SPLITTER|..]
    else if HIERARCHICAL_MERGER <= id then TITLE_CHUNKER + id[|HIERARCHICAL_MERGER|..]
    else id
  }

  /** `component_id_map.get(id, id)` for the ids of the document. */
  function IdMap(ids: seq<string>): Renaming {
    (id: string) => if id in ids then RenameId(id) else id
  }

  /** `COMPONENT_RENAMES.get(name, name)`. */
  function RenameClass(name: string): string {
    if name == "Splitter" then "TokenChunker" else if name == "HierarchicalMerger" then "TitleChunker" else name
  }

  function RenameNodeType(name: string): string {
    if name == "splitterNode" then "chunkerNode" else name
  }

  // ---------- Values ----------

  /** `rewrite_variable_refs`. */
  function RewriteText(ids: seq<string>, t: string): string {
    if t in ids then RenameId(t) else Rewrite(IdMap(ids), t)
  }

  /** `rewrite_value`. */
  function RewriteValue(ids: seq<string>, v: Json): Json
    decreases v
  {
    match v
    case Str(s) => Str(RewriteText(ids, s))
    case Arr(items) => Arr(RewriteItems(ids, items))
    case Obj(fields) => Obj(RewriteFields(ids, fields))
    case _ => v
  }

  function RewriteItems(ids: seq<string>, items: seq<Json>): (r: seq<Json>)
    ensures |r| == |items|
    decreases items
  {
    if items == [] then [] else [RewriteValue(ids, items[0])] + RewriteItems(ids, items[1..])
  }

  function RewriteFields(ids: seq<string>, fields: seq<Field>): (r: seq<Field>)
    ensures |r| == |fields|
    decreases fields
  {
    if fields == [] then []
    else [Field(fields[0].key, RewriteValue(ids, fields[0].value))] + RewriteFields(ids, fields[1..])
  }

  predicate Unhashable(v: Json) { v.Arr? || v.Obj? }

  /** `[component_id_map.get(x, x) for x in items]`. */
  function MapLinks(ids: seq<string>, items: seq<Json>): (r: Result<seq<Json>>)
    ensures r.Ok? ==> |r.value| == |items|
  {
    if items == [] then Ok([])
    else if Unhashable(items[0]) then Raised
    else
      match MapLinks(ids, items[1..])
      case Raised => Raised
      case Ok(rest) => Ok([MapLink(ids, items[0])] + rest)
  }

  function MapLink(ids: seq<string>, v: Json): Json {
    if v.Str? then Str(IdMap(ids)(v.s)) else v
  }

  // ---------- Components ----------

  /** A list under `key` is mapped link by link. */
  function MapListAt(ids: seq<string>, fields: seq<Field>, key: string): Result<seq<Field>> {
    match Get(fields, key)
    case Some(Arr(items)) =>
      (match MapLinks(ids, items)
       case Raised => Raised
       case Ok(mapped) => Ok(Set(fields, key, Arr(mapped))))
    case _ => Ok(fields)
  }

  /** A string under `key` is mapped as an id. */
  function MapIdAt(ids: seq<string>, fields: seq<Field>, key: string): seq<Field> {
    match Get(fields, key)
    case Some(Str(s)) => Set(fields, key, Str(IdMap(ids)(s)))
    case _ => fields
  }

  /** `obj["component_name"] = COMPONENT_RENAMES.get(name, name)`, a missing name being None. */
  function RenameObj(fields: seq<Field>): Result<seq<Field>> {
    match Get(fields, "obj")
    case Some(Obj(obj)) =>
      var name := Get(obj, "component_name").GetOr(Null);
      if Unhashable(name) then Raised
      else
        var newName := if name.Str? then Str(RenameClass(name.s)) else name;
        Ok(Set(fields, "obj", Obj(Set(obj, "component_name", newName))))
    case _ => Ok(fields)
  }

  function NormalizeComponent(ids: seq<string>, component: Json): Result<Json> {
    match RewriteValue(ids, component)
    case Obj(fields) => Relink(ids, fields)
    case other => Ok(other)
  }

  function Relink(ids: seq<string>, fields: seq<Field>): Result<Json> {
    match RenameObj(fields)
    case Raised => Raised
    case Ok(f1) =>
      match MapListAt(ids, f1, "downstream")
      case Raised => Raised
      case Ok(f2) =>
        match MapListAt(ids, f2, "upstream")
        case Raised => Raised
        case Ok(f3) => Ok(Obj(MapIdAt(ids, f3, "parent_id")))
  }

  /** `rewritten_components`, filled in dictionary order behind `done`. */
  function NormalizeComponents(ids: seq<string>, done: seq<Field>, components: seq<Field>): Result<seq<Field>>
    decreases |components|
  {
    if components == [] then Ok(done)
    else
      match NormalizeComponent(ids, components[0].value)
      case Raised => Raised
      case Ok(c) => NormalizeComponents(ids, Set(done, IdMap(ids)(components[0].key), c), components[1..])
  }

  // ---------- The drawn graph ----------

  /** A string under `key` is renamed by `f`. */
  function RenameAt(fields: seq<Field>, key: string, f: string -> string): seq<Field> {
    match Get(fields, key)
    case Some(Str(s)) => Set(fields, key, Str(f(s)))
    case _ => fields
  }

  function NormalizeData(ids: seq<string>, data: seq<Field>): seq<Field> {
    var d := RenameAt(RenameAt(data, "label", RenameClass), "name", RenameClass);
    match Get(d, "form")
    case Some(form) => Set(d, "form", RewriteValue(ids, form))
    case None => d
  }

  function NormalizeNode(ids: seq<string>, node: Json): Json {
    if !node.Obj? then node
    else
      var n := RenameAt(RenameAt(RenameAt(node.fields, "id", IdMap(ids)), "parentId", IdMap(ids)), "type",
          RenameNodeType);
      match Get(n, "data")
      case Some(Obj(data)) => Obj(Set(n, "data", Obj(NormalizeData(ids, data))))
      case _ => Obj(n)
  }

  /** `s.replace(part, instead)` for a non-empty `part`; the empty id is never renamed, so replacing it changes
      nothing. */
  function Replace(s: string, part: string, instead: string): string
    decreases |s|
  {
    if s == "" || part == "" then s
    else if part <= s then instead + Replace(s[|part|..], part, instead)
    else [s[0]] + Replace(s[1..], part, instead)
  }

  /** Stable insertion: longer ids first, equal lengths in dictionary order. */
  function Insert(id: string, sorted: seq<string>): seq<string> {
    if sorted == [] || |sorted[0]| <= |id| then [id] + sorted else [sorted[0]] + Insert(id, sorted[1..])
  }

  function LongestFirst(ids: seq<string>): seq<string> {
    if ids == [] then [] else Insert(ids[0], LongestFirst(ids[1..]))
  }

  function ReplaceAll(s: string, ids: seq<string>): string
    decreases |ids|
  {
    if ids == [] then s else ReplaceAll(Replace(s, ids[0], RenameId(ids[0])), ids[1..])
  }

  function NormalizeEdge(ids: seq<string>, edge: Json): Json {
    if !edge.Obj? then edge
    else
      var e := RenameAt(RenameAt(edge.fields, "source", IdMap(ids)), "target", IdMap(ids));
      Obj(RenameAt(e, "id", s => ReplaceAll(s, LongestFirst(ids))))
  }

  function NormalizeNodes(ids: seq<string>, nodes: seq<Json>): seq<Json> {
    if nodes == [] then [] else [NormalizeNode(ids, nodes[0])] + NormalizeNodes(ids, nodes[1..])
  }

  function NormalizeEdges(ids: seq<string>, edges: seq<Json>): seq<Json> {
    if edges == [] then [] else [NormalizeEdge(ids, edges[0])] + NormalizeEdges(ids, edges[1..])
  }

  function NormalizeGraph(ids: seq<string>, graph: seq<Field>): seq<Field> {
    var g := match Get(graph, "nodes")
             case Some(Arr(nodes)) => Set(graph, "nodes", Arr(NormalizeNodes(ids, nodes)))
             case _ => graph;
    match Get(g, "edges")
    case Some(Arr(edges)) => Set(g, "edges", Arr(NormalizeEdges(ids, edges)))
    case _ => g
  }

  // ---------- The document ----------

  function RewriteAt(ids: seq<string>, fields: seq<Field>, key: string): seq<Field> {
    match Get(fields, key)
    case Some(v) => Set(fields, key, RewriteValue(ids, v))
    case None => fields
  }

  /** Everything after the components: path, drawn graph and conversation. */
  function NormalizeRest(ids: seq<string>, fields: seq<Field>): Result<Json> {
    match MapListAt(ids, fields, "path")
    case Raised => Raised
    case Ok(f1) =>
      var f2 := match Get(f1, "graph")
                case Some(Obj(graph)) => Set(f1, "graph", Obj(NormalizeGraph(ids, graph)))
                case _ => f1;
      Ok(Obj(RewriteAt(ids, RewriteAt(ids, RewriteAt(ids, f2, "history"), "messages"), "reference")))
  }

  function Normalize(dsl: Json): Result<Json> {
    if !dsl.Obj? then Ok(dsl)
    else
      match Get(dsl.fields, "components")
      case Some(Obj(components)) =>
        var ids := Keys(components);
        (match NormalizeComponents(ids, [], components)
         case Raised => Raised
         case Ok(rewritten) => NormalizeRest(ids, Set(dsl.fields, "components", Obj(rewritten))))
      case _ => Ok(dsl)
  }
}
