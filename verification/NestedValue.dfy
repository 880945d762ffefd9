/** Reading and writing a dotted path inside a component's output. */
module NestedValue {
  import opened Common

  /** A value of an output.  `Other` stands for objects of any further class. */
  datatype Value =
    | Nil | Text(text: string) | Dict(entries: map<string, Value>) | List(items: seq<Value>) | Other(id: int)

  /** What Python's library answers: `json.loads`, `int(key)` as an index, `getattr`. */
  datatype World = World(load: string -> Option<Value>, index: (string, nat) -> Option<nat>,
      attr: (Value, string) -> Value)

  function Get(m: map<string, Value>, key: string): Value {
    if key in m then m[key] else Nil
  }

  /** One key of `get_variable_param_value`; `Nil` stays `Nil`. */
  function ReadKey(w: World, cur: Value, key: string): Value {
    var loaded := if cur.Text? then w.load(cur.text) else Some(cur);
    match loaded
    case None => Nil
    case Some(c) =>
      if cur.Nil? then Nil
      else if c.Dict? then Get(c.entries, key)
      else if c.List? then
        match w.index(key, |c.items|)
        case Some(i) => if i < |c.items| then c.items[i] else Nil
        case None => Nil
      else w.attr(c, key)
  }

  /** `get_variable_param_value` over the keys of the path. */
  function Read(w: World, cur: Value, keys: seq<string>): Value
    decreases |keys|
  {
    if keys == [] then cur else Read(w, ReadKey(w, cur, keys[0]), keys[1..])
  }

  /** Reading a path is reading its front and then the rest from there. */
  lemma {:induction false} ReadGoesOn(w: World, cur: Value, front: seq<string>, rest: seq<string>)
    ensures Read(w, cur, front + rest) == Read(w, Read(w, cur, front), rest)
    decreases |front|
  {
    if front == [] {
      assert front + rest == rest;
    } else {
      assert (front + rest)[1..] == front[1..] + rest;
      ReadGoesOn(w, ReadKey(w, cur, front[0]), front[1..], rest);
    }
  }

  /** A text on the path is read as the JSON value it holds, so a path goes on inside it as inside that value; a
      text that is no JSON reads as nothing. */
  lemma TextReadsAsJson(w: World, t: string, keys: seq<string>)
    requires keys != []
    ensures w.load(t) == None ==> Read(w, Text(t), keys) == Nil
    ensures w.load(t).Some? && (w.load(t).value.Dict? || w.load(t).value.List?) ==>
              Read(w, Text(t), keys) == Read(w, w.load(t).value, keys)
  {
    NilStays(w, keys[1..]);
  }

  /** A key of a list is an index into it, and one that is none, or lies outside, reads as nothing. */
  lemma ListReadsByIndex(w: World, items: seq<Value>, key: string, rest: seq<string>)
    ensures var i := w.index(key, |items|);
      Read(w, List(items), [key] + rest)
      == if i.Some? && i.value < |items| then Read(w, items[i.value], rest) else Nil
  {
    assert ([key] + rest)[1..] == rest;
    NilStays(w, rest);
  }

  /** A dictionary reads by key, a missing key as nothing, and so does every path below nothing. */
  lemma DictReadsByKey(w: World, m: map<string, Value>, key: string, rest: seq<string>)
    ensures Read(w, Dict(m), [key] + rest) == if key in m then Read(w, m[key], rest) else Nil
    ensures Read(w, Nil, rest) == Nil
  {
    assert ([key] + rest)[1..] == rest;
    NilStays(w, rest);
  }

  /** The dictionary the write walks into: anything that is not a dictionary is replaced by a new one. */
  function Child(m: map<string, Value>, key: string): map<string, Value> {
    if key in m && m[key].Dict? then m[key].entries else map[]
  }

  /** `set_variable_param_value` from one of the keys on: it walks through the last key too and then stores
      the value under `last` one level deeper. */
  function Write(m: map<string, Value>, keys: seq<string>, last: string, v: Value): map<string, Value>
    decreases |keys|
  {
    if keys == [] then m[last := v]
    else m[keys[0] := Dict(Write(Child(m, keys[0]), keys[1..], last, v))]
  }

  function SetValue(m: map<string, Value>, keys: seq<string>, v: Value): map<string, Value>
    requires keys != []
  {
    Write(m, keys, keys[|keys| - 1], v)
  }

  /** What the write finds behind a path of keys. */
  function Below(m: map<string, Value>, keys: seq<string>): map<string, Value>
    decreases |keys|
  {
    if keys == [] then m else Below(Child(m, keys[0]), keys[1..])
  }

  lemma {:induction false} ReadsWhatWasWritten(
      w: World, m: map<string, Value>, keys: seq<string>, last: string, v: Value)
    ensures Read(w, Dict(Write(m, keys, last, v)), keys) == Dict(Below(m, keys)[last := v])
    ensures Read(w, Dict(Write(m, keys, last, v)), keys + [last]) == v
    decreases |keys|
  {
    if keys == [] {
      assert Read(w, ReadKey(w, Dict(m[last := v]), last), []) == v;
      assert (keys + [last])[1..] == [];
    } else {
      assert (keys + [last])[1..] == keys[1..] + [last];
      ReadsWhatWasWritten(w, Child(m, keys[0]), keys[1..], last, v);
    }
  }

  /** Writing at k1...kn and reading k1...kn gives a dictionary that holds the value under kn, besides what was
      there; the value itself is read at k1...kn.kn, and never at k1...kn. */
  lemma WriteThenRead(w: World, m: map<string, Value>, keys: seq<string>, v: Value)
    requires keys != []
    ensures var last := keys[|keys| - 1];
      var r := Dict(SetValue(m, keys, v));
      && Read(w, r, keys) == Dict(Below(m, keys)[last := v])
      && Read(w, r, keys + [last]) == v
      && Read(w, r, keys) != v
  {
    var last := keys[|keys| - 1];
    ReadsWhatWasWritten(w, m, keys, last, v);
    NotItsOwnEntry(Below(m, keys)[last := v], last);
  }

  lemma NotItsOwnEntry(m: map<string, Value>, key: string)
    requires key in m
    ensures m[key] != Dict(m)
  {
  }

  /** On the keys the two paths share, what is there is a dictionary or nothing. */
  ghost predicate OpenPath(m: map<string, Value>, keys: seq<string>)
    decreases |keys|
  {
    keys == [] || ((keys[0] in m ==> m[keys[0]].Dict? || m[keys[0]].Nil?) && OpenPath(Child(m, keys[0]), keys[1..]))
  }

  lemma {:induction false} NilStays(w: World, keys: seq<string>)
    ensures Read(w, Nil, keys) == Nil
    decreases |keys|
  {
    if keys != [] {
      NilStays(w, keys[1..]);
    }
  }

  lemma {:induction false} EmptyReadsNil(w: World, keys: seq<string>)
    requires keys != []
    ensures Read(w, Dict(map[]), keys) == Nil
  {
    NilStays(w, keys[1..]);
  }

  lemma {:induction false} NothingIsOpen(keys: seq<string>)
    ensures OpenPath(map[], keys)
    decreases |keys|
  {
    if keys != [] {
      NothingIsOpen(keys[1..]);
    }
  }

  /** A path that leaves the written one behind `shared` keys reads as it did, exactly if the write replaced nothing on
      the shared keys, or there was nothing to read: both can be looked up before the write. */
  lemma {:induction false} DivergingReadsStay(
      w: World, m: map<string, Value>, keys: seq<string>, last: string, v: Value, other: seq<string>, shared: nat)
    requires shared < |other| && shared <= |keys|
    requires other[..shared] == keys[..shared] && other[shared] != (keys + [last])[shared]
    ensures Read(w, Dict(Write(m, keys, last, v)), other) == Read(w, Dict(m), other)
       <==> OpenPath(m, keys[..shared]) || Read(w, Dict(m), other) == Nil
    decreases |keys|
  {
    if shared == 0 {
      assert Get(Write(m, keys, last, v), other[0]) == Get(m, other[0]);
    } else {
      var k := keys[0];
      assert other[0] == other[..shared][0] == k;
      assert other[1..][..shared - 1] == other[..shared][1..];
      assert keys[1..][..shared - 1] == keys[..shared][1..];
      assert keys + [last] == [k] + (keys[1..] + [last]);
      DivergingReadsStay(w, Child(m, k), keys[1..], last, v, other[1..], shared - 1);
      if !(k in m && m[k].Dict?) {
        NothingIsOpen(keys[1..][..shared - 1]);
        EmptyReadsNil(w, other[1..]);
        NilStays(w, other[1..]);
      }
    }
  }

  /** An input that fails it: a list on the path is thrown away by the write. */
  lemma ListOnThePathIsLost(w: World)
    requires w.index("0", 1) == Some(0)
    ensures var m := map["a" := List([Text("x")])];
      && Read(w, Dict(m), ["a", "0"]) == Text("x")
      && Read(w, Dict(SetValue(m, ["a", "b"], Nil)), ["a", "0"]) == Nil
  {
    var m := map["a" := List([Text("x")])];
    var r := SetValue(m, ["a", "b"], Nil);
    assert ["a", "0"][1..] == ["0"] && ["0"][1..] == [];
    assert ReadKey(w, Dict(m), "a") == List([Text("x")]);
    assert Read(w, Dict(m), ["a", "0"]) == Read(w, List([Text("x")]), ["0"]) == Text("x");
    assert ["a", "b"][1..] == ["b"] && ["b"][1..] == [];
    assert r == m["a" := Dict(Write(map[], ["b"], "b", Nil))];
    assert Write(map[], ["b"], "b", Nil) == map["b" := Dict(Write(map[], [], "b", Nil))];
  }
}
