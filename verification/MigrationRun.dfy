/** `normalize_chunker_dsl` as the loops over the copied document that it is. */
module MigrationRun {
  import opened Common
  import opened Migration

  /** The comprehension over a `downstream`, `upstream` or `path` list. */
  method MapList(ids: seq<string>, items: seq<Json>) returns (r: Result<seq<Json>>)
    ensures r == MapLinks(ids, items)
  {
    var out: seq<Json> := [];
    var i := 0;
    assert items[0..] == items;
    assert MapLinks(ids, items).Ok? ==> [] + MapLinks(ids, items).value == MapLinks(ids, items).value;
    while i < |items|
      invariant 0 <= i <= |items|
      invariant MapLinks(ids, items) == Prepend(out, MapLinks(ids, items[i..]))
    {
      assert items[i..][0] == items[i] && items[i..][1..] == items[i + 1..];
      if Unhashable(items[i]) {
        return Raised;
      }
      PrependTwice(out, MapLink(ids, items[i]), MapLinks(ids, items[i + 1..]));
      out := out + [MapLink(ids, items[i])];
      i := i + 1;
    }
    assert items[i..] == [] && out + [] == out;
    r := Ok(out);
  }

  function Prepend(out: seq<Json>, rest: Result<seq<Json>>): Result<seq<Json>> {
    match rest
    case Raised => Raised
    case Ok(items) => Ok(out + items)
  }

  lemma PrependTwice(out: seq<Json>, v: Json, rest: Result<seq<Json>>)
    ensures Prepend(out, Prepend([v], rest)) == Prepend(out + [v], rest)
  {
    if rest.Ok? {
      assert out + ([v] + rest.value) == out + [v] + rest.value;
    }
  }

  /** The loop that fills `rewritten_components`. */
  method RewriteComponents(ids: seq<string>, components: seq<Field>) returns (r: Result<seq<Field>>)
    ensures r == NormalizeComponents(ids, [], components)
  {
    hide NormalizeComponent;
    var done: seq<Field> := [];
    var i := 0;
    assert components[0..] == components;
    while i < |components|
      invariant 0 <= i <= |components|
      invariant NormalizeComponents(ids, done, components[i..]) == NormalizeComponents(ids, [], components)
    {
      assert components[i..][0] == components[i] && components[i..][1..] == components[i + 1..];
      var c := NormalizeComponent(ids, components[i].value);
      if c.Raised? {
        return Raised;
      }
      done := Set(done, IdMap(ids)(components[i].key), c.value);
      i := i + 1;
    }
    assert components[i..] == [];
    r := Ok(done);
  }

  /** The loop over the drawn nodes. */
  method RewriteNodes(ids: seq<string>, nodes: seq<Json>) returns (r: seq<Json>)
    ensures r == NormalizeNodes(ids, nodes)
  {
    hide NormalizeNode;
    r := nodes;
    var i := 0;
    while i < |nodes|
      invariant 0 <= i <= |nodes| == |r|
      invariant r[i..] == nodes[i..]
      invariant r[..i] + NormalizeNodes(ids, nodes[i..]) == NormalizeNodes(ids, nodes)
    {
      assert nodes[i..][0] == nodes[i] && nodes[i..][1..] == nodes[i + 1..];
      var n := NormalizeNode(ids, r[i]);
      assert r[i] == r[i..][0];
      var q := r[i := n];
      assert q[..i + 1] == r[..i] + [n] && q[i + 1..] == r[i..][1..];
      assert r[..i] + ([n] + NormalizeNodes(ids, nodes[i + 1..])) == q[..i + 1] + NormalizeNodes(ids, nodes[i + 1..]);
      r := q;
      i := i + 1;
    }
    assert nodes[i..] == [] && r[..i] + [] == r;
  }

  /** The loop over the drawn edges. */
  method RewriteEdges(ids: seq<string>, edges: seq<Json>) returns (r: seq<Json>)
    ensures r == NormalizeEdges(ids, edges)
  {
    hide NormalizeEdge;
    r := [];
    var i := 0;
    assert edges[0..] == edges;
    while i < |edges|
      invariant 0 <= i <= |edges|
      invariant r + NormalizeEdges(ids, edges[i..]) == NormalizeEdges(ids, edges)
    {
      assert edges[i..][0] == edges[i] && edges[i..][1..] == edges[i + 1..];
      var e := NormalizeEdge(ids, edges[i]);
      assert r + ([e] + NormalizeEdges(ids, edges[i + 1..])) == r + [e] + NormalizeEdges(ids, edges[i + 1..]);
      r := r + [e];
      i := i + 1;
    }
    assert edges[i..] == [] && r + [] == r;
  }

  /** Path, drawn graph and conversation of the copied document, edited one after the other. */
  method EditRest(ids: seq<string>, document: seq<Field>) returns (r: Result<Json>)
    ensures r == NormalizeRest(ids, document)
  {
    hide MapLinks, NormalizeNodes, NormalizeEdges, RewriteValue;
    var d := document;
    var path := Get(d, "path");
    if path.Some? && path.value.Arr? {
      var mapped := MapList(ids, path.value.items);
      if mapped.Raised? {
        return Raised;
      }
      d := Set(d, "path", Arr(mapped.value));
    }
    var graph := Get(d, "graph");
    if graph.Some? && graph.value.Obj? {
      var g := graph.value.fields;
      var nodes := Get(g, "nodes");
      if nodes.Some? && nodes.value.Arr? {
        var ns := RewriteNodes(ids, nodes.value.items);
        g := Set(g, "nodes", Arr(ns));
      }
      var edges := Get(g, "edges");
      if edges.Some? && edges.value.Arr? {
        var es := RewriteEdges(ids, edges.value.items);
        g := Set(g, "edges", Arr(es));
      }
      assert g == NormalizeGraph(ids, graph.value.fields);
      d := Set(d, "graph", Obj(g));
    }
    hide NormalizeGraph, Set, Get;
    d := RewriteAt(ids, d, "history");
    d := RewriteAt(ids, d, "messages");
    d := RewriteAt(ids, d, "reference");
    r := Ok(Obj(d));
  }

  /** `normalize_chunker_dsl`. */
  method NormalizeChunkerDsl(dsl: Json) returns (r: Result<Json>)
    ensures r == Normalize(dsl)
  {
    hide NormalizeComponents, NormalizeRest;
    if !dsl.Obj? {
      return Ok(dsl);
    }
    var normalized := dsl.fields;
    var components := Get(normalized, "components");
    if components.None? || !components.value.Obj? {
      return Ok(dsl);
    }
    var ids := Keys(components.value.fields);
    var rewritten := RewriteComponents(ids, components.value.fields);
    if rewritten.Raised? {
      return Raised;
    }
    normalized := Set(normalized, "components", Obj(rewritten.value));
    r := EditRest(ids, normalized);
  }
}
