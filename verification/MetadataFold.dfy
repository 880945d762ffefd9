/** Combining metadata filters, and merging metadata. */
module MetadataFold {

  // ---------- Combining filters ----------

  /** What `meta_filter` returns, from the documents collected so far and the filters' results to come. */
  function Fold<T>(docs: set<T>, results: seq<set<T>>, conj: bool): set<T>
    decreases |results|
  {
    if results == [] then docs
    else if docs == {} then Fold(results[0], results[1..], conj)
    else if !conj then Fold(docs + results[0], results[1..], conj)
    else if docs * results[0] == {} then {}
    else Fold(docs * results[0], results[1..], conj)
  }

  /** `meta_filter` over the filters' results; anything but "and" means "or". */
  method MetaFilter<T(==)>(results: seq<set<T>>, conj: bool) returns (docs: set<T>)
    ensures docs == Fold({}, results, conj)
  {
    docs := {};
    for i := 0 to |results|
      invariant Fold({}, results, conj) == Fold(docs, results[i..], conj)
    {
      assert results[i..][1..] == results[i + 1..];
      if docs == {} {
        docs := results[i];
      } else if conj {
        if docs * results[i] == {} {
          return {};
        }
        docs := docs * results[i];
      } else {
        docs := docs + results[i];
      }
    }
  }

  ghost predicate InAll<T(!new)>(x: T, results: seq<set<T>>) {
    forall s <- results :: x in s
  }

  /** The results from the first non-empty one on. */
  function Leading<T>(results: seq<set<T>>): (r: seq<set<T>>)
    ensures r == [] || r[0] != {}
  {
    if results == [] || results[0] != {} then results else Leading(results[1..])
  }

  /** "or" is the union. */
  lemma {:induction false} OrIsUnion<T(!new)>(docs: set<T>, results: seq<set<T>>)
    ensures forall x :: x in Fold(docs, results, false) <==> x in docs || exists s <- results :: x in s
    decreases |results|
  {
    if results != [] {
      OrIsUnion(if docs == {} then results[0] else docs + results[0], results[1..]);
      assert results == [results[0]] + results[1..];
    }
  }

  lemma {:induction false} AndFromInside<T(!new)>(docs: set<T>, results: seq<set<T>>)
    requires docs != {}
    ensures forall x :: x in Fold(docs, results, true) <==> x in docs && InAll(x, results)
    decreases |results|
  {
    if results != [] {
      assert results == [results[0]] + results[1..];
      if docs * results[0] != {} {
        AndFromInside(docs * results[0], results[1..]);
      } else {
        forall x | x in docs ensures !InAll(x, results) {
          assert x !in docs * results[0] && results[0] in results;
        }
      }
    }
  }

  /** "and" is the intersection from the first filter that matched anything. */
  lemma {:induction false} AndIsIntersectionFromFirstMatch<T(!new)>(results: seq<set<T>>)
    ensures forall x :: x in Fold({}, results, true) <==> Leading(results) != [] && InAll(x, Leading(results))
    decreases |results|
  {
    if results != [] {
      if results[0] == {} {
        AndIsIntersectionFromFirstMatch(results[1..]);
      } else {
        AndFromInside(results[0], results[1..]);
        assert results == [results[0]] + results[1..];
      }
    }
  }

  lemma LeadingOf<T>(results: seq<set<T>>)
    requires results != [] && results[0] != {}
    ensures Leading(results) == results
  {
  }

  /** It is the true intersection exactly when no empty result comes first, or when the results from the first
      match on have nothing in common anyway. */
  lemma AndIsTrueIntersectionIff<T(!new)>(results: seq<set<T>>)
    requires results != []
    ensures (forall x :: x in Fold({}, results, true) <==> InAll(x, results))
       <==> results[0] != {} || Leading(results) == [] || (forall x :: !InAll(x, Leading(results)))
  {
    AndIsIntersectionFromFirstMatch(results);
    hide Fold, Leading;
    if results[0] == {} {
      forall x ensures !InAll(x, results) {
        assert results[0] in results;
      }
      if x :| Leading(results) != [] && InAll(x, Leading(results)) {
        assert x in Fold({}, results, true) && !InAll(x, results);
      }
    } else {
      LeadingOf(results);
    }
  }

  // ---------- Merging metadata ----------

  /** An item of a metadata list; `str` of two items may agree although the items differ. */
  datatype Item = Text(text: string) | Other(id: int, shown: string) {
    function Str(): string { if Text? then text else shown }
  }

  datatype Value = One(text: string) | Many(items: seq<Item>) | Foreign(id: int)

  function Strs(items: seq<Item>): set<string> {
    set x | x in items :: x.Str()
  }

  /** `dedupe_list`, with the keys already seen: the first item of every key stays. */
  function Fresh(items: seq<Item>, seen: set<string>): (r: seq<Item>)
    decreases |items|
  {
    if items == [] then []
    else if items[0].Str() in seen then Fresh(items[1..], seen)
    else [items[0]] + Fresh(items[1..], seen + {items[0].Str()})
  }

  predicate Distinct(items: seq<Item>) {
    forall i, j :: 0 <= i < j < |items| ==> items[i].Str() != items[j].Str()
  }

  method DedupeList(values: seq<Item>) returns (deduped: seq<Item>)
    ensures deduped == Fresh(values, {})
  {
    var seen: set<string> := {};
    deduped := [];
    for i := 0 to |values|
      invariant Fresh(values, {}) == deduped + Fresh(values[i..], seen)
    {
      assert values[i..][1..] == values[i + 1..];
      if values[i].Str() !in seen {
        assert deduped + ([values[i]] + Fresh(values[i + 1..], seen + {values[i].Str()}))
            == deduped + [values[i]] + Fresh(values[i + 1..], seen + {values[i].Str()});
        seen := seen + {values[i].Str()};
        deduped := deduped + [values[i]];
      }
    }
  }

  /** The keys of the result are the new keys of the items, each once. */
  lemma {:induction false} FreshKeys(items: seq<Item>, seen: set<string>)
    ensures var r := Fresh(items, seen);
      && Strs(r) == Strs(items) - seen && Distinct(r)
      && (forall x :: x in r ==> x in items && x.Str() !in seen)
    decreases |items|
  {
    if items != [] {
      var k := items[0].Str();
      FreshKeys(items[1..], seen);
      FreshKeys(items[1..], seen + {k});
      var r := Fresh(items[1..], seen + {k});
      assert items == [items[0]] + items[1..];
      assert Strs(items) == {k} + Strs(items[1..]);
      if k !in seen {
        assert Fresh(items, seen) == [items[0]] + r;
        assert Strs([items[0]] + r) == {k} + Strs(r);
        forall i | 0 <= i < |r| ensures r[i].Str() != k {
          assert r[i] in r;
        }
      }
    }
  }

  /** Items with distinct new keys all stay; items whose keys were seen all go. */
  lemma {:induction false} FreshOfDistinct(items: seq<Item>, seen: set<string>)
    requires Distinct(items) && forall x <- items :: x.Str() !in seen
    ensures Fresh(items, seen) == items
    decreases |items|
  {
    if items != [] {
      var rest := items[1..];
      forall i | 0 <= i < |rest| ensures rest[i].Str() != items[0].Str() {
        assert rest[i] == items[i + 1];
      }
      assert Distinct(rest);
      FreshOfDistinct(rest, seen + {items[0].Str()});
    }
  }

  lemma {:induction false} FreshOfSeen(items: seq<Item>, seen: set<string>)
    requires forall x <- items :: x.Str() in seen
    ensures Fresh(items, seen) == []
    decreases |items|
  {
    if items != [] {
      FreshOfSeen(items[1..], seen);
    }
  }

  lemma {:induction false} FreshConcat(a: seq<Item>, b: seq<Item>, seen: set<string>)
    ensures Fresh(a + b, seen) == Fresh(a, seen) + Fresh(b, seen + Strs(a))
    decreases |a|
  {
    if a == [] {
      assert a + b == b && seen + Strs(a) == seen;
    } else {
      var k := a[0].Str();
      assert (a + b)[1..] == a[1..] + b && (a + b)[0] == a[0];
      assert a == [a[0]] + a[1..];
      assert Strs(a) == {k} + Strs(a[1..]);
      if k in seen {
        FreshConcat(a[1..], b, seen);
        assert seen + Strs(a[1..]) == seen + Strs(a);
      } else {
        FreshConcat(a[1..], b, seen + {k});
        assert seen + {k} + Strs(a[1..]) == seen + Strs(a);
      }
    }
  }

  /** Reading the list from its front, an item is kept exactly if no earlier item has its key. */
  lemma {:induction false} KeepsFirstOfEachKey(items: seq<Item>, k: nat)
    requires k < |items|
    ensures Fresh(items[..k + 1], {})
         == Fresh(items[..k], {})
             + (if exists j :: 0 <= j < k && items[j].Str() == items[k].Str() then [] else [items[k]])
  {
    var a, x := items[..k], items[k];
    assert items[..k + 1] == a + [x];
    FreshConcat(a, [x], {});
    assert {} + Strs(a) == Strs(a);
    if j :| 0 <= j < k && items[j].Str() == x.Str() {
      assert a[j] == items[j] && a[j] in a;
      assert x.Str() in Strs(a);
    }
  }

  /** Merging the same items a second time changes nothing. */
  lemma MergingTwice(held: seq<Item>, more: seq<Item>)
    ensures var once := Fresh(held + more, {}); Fresh(once + more, {}) == once
  {
    var once := Fresh(held + more, {});
    FreshKeys(held + more, {});
    FreshConcat(once, more, {});
    FreshOfDistinct(once, {});
    assert forall x <- more :: x in held + more;
    assert forall x <- more :: x.Str() in Strs(held + more);
    FreshOfSeen(more, {} + Strs(once));
  }

  datatype Entry = Entry(key: string, value: Value)

  function Texts(items: seq<Item>): (r: seq<Item>)
    ensures forall x <- r :: x.Text?
  {
    if items == [] then [] else (if items[0].Text? then [items[0]] else []) + Texts(items[1..])
  }

  /** The value an entry of the update stands for, if it is usable: a string, or the strings of a list. */
  function Usable(v: Value): Value {
    match v
    case One(_) => v
    case Many(items) => if Texts(items) == [] then Foreign(0) else Many(Fresh(Texts(items), {}))
    case Foreign(_) => v
  }

  /** The items an update adds to a list. */
  function Added(v: Value): seq<Item> {
    match v
    case Many(items) => items
    case One(text) => [Text(text)]
    case Foreign(_) => []
  }

  function Merge(m: map<string, Value>, e: Entry): map<string, Value> {
    var v := Usable(e.value);
    if v.Foreign? then m
    else if e.key !in m || !m[e.key].Many? then m[e.key := v]
    else m[e.key := Many(Fresh(m[e.key].items + Added(v), {}))]
  }

  function MergeAll(m: map<string, Value>, update: seq<Entry>): map<string, Value>
    decreases |update|
  {
    if update == [] then m else MergeAll(Merge(m, update[0]), update[1..])
  }

  /** `update_metadata_to` with an update that is a dictionary. */
  method UpdateMetadata(metadata: map<string, Value>, update: seq<Entry>) returns (r: map<string, Value>)
    ensures r == MergeAll(metadata, update)
  {
    r := metadata;
    for i := 0 to |update|
      invariant MergeAll(metadata, update) == MergeAll(r, update[i..])
    {
      assert update[i..][1..] == update[i + 1..];
      var k := update[i].key;
      match update[i].value
      case Foreign(_) =>
      case One(text) =>
        if k in r && r[k].Many? {
          var items := DedupeList(r[k].items + [Text(text)]);
          r := r[k := Many(items)];
        } else {
          r := r[k := One(text)];
        }
      case Many(all) =>
        if Texts(all) != [] {
          var v := DedupeList(Texts(all));
          if k in r && r[k].Many? {
            var items := DedupeList(r[k].items + v);
            r := r[k := Many(items)];
          } else {
            r := r[k := Many(v)];
          }
        }
    }
  }

  ghost predicate DistinctKeys(update: seq<Entry>) {
    forall i, j :: 0 <= i < j < |update| ==> update[i].key != update[j].key
  }

  /** The value of a key depends only on its old value and on the entry of the update that names it. */
  lemma {:induction false} MergeAllAt(m: map<string, Value>, update: seq<Entry>, i: nat)
    requires DistinctKeys(update) && i < |update|
    ensures var k := update[i].key;
      && (k in MergeAll(m, update) <==> k in Merge(m, update[i]))
      && (k in MergeAll(m, update) ==> MergeAll(m, update)[k] == Merge(m, update[i])[k])
    decreases |update|
  {
    if i == 0 {
      Untouched(Merge(m, update[0]), update[1..], update[0].key);
    } else {
      MergeAllAt(Merge(m, update[0]), update[1..], i - 1);
    }
  }

  /** A list keeps the first item of every key, in order, and gains behind them the update's items with new keys. */
  lemma UpdateExtendsLists(m: map<string, Value>, update: seq<Entry>, i: nat)
    requires DistinctKeys(update) && i < |update| && !Usable(update[i].value).Foreign?
    requires update[i].key in m && m[update[i].key].Many?
    ensures var k, more := update[i].key, Added(Usable(update[i].value));
      && k in MergeAll(m, update)
      && MergeAll(m, update)[k] == Many(Fresh(m[k].items, {}) + Fresh(more, Strs(m[k].items)))
      && (Distinct(m[k].items) ==> Fresh(m[k].items, {}) == m[k].items)
  {
    var k, more := update[i].key, Added(Usable(update[i].value));
    MergeAllAt(m, update, i);
    FreshConcat(m[k].items, more, {});
    if Distinct(m[k].items) {
      FreshOfDistinct(m[k].items, {});
    }
    assert {} + Strs(m[k].items) == Strs(m[k].items);
    hide Fresh, Usable, MergeAll;
  }

  /** The strings of a list are kept, in order, and nothing else. */
  lemma {:induction false} TextsKeepsStrings(items: seq<Item>, k: nat)
    requires k < |items|
    ensures Texts(items[..k + 1]) == Texts(items[..k]) + (if items[k].Text? then [items[k]] else [])
  {
    if k > 0 {
      TextsKeepsStrings(items[1..], k - 1);
      assert items[..k + 1][1..] == items[1..][..k] && items[..k][1..] == items[1..][..k - 1];
    } else {
      assert items[..1] == [items[0]] && [items[0]][1..] == [];
    }
  }

  lemma TextsIn(items: seq<Item>)
    ensures forall x :: x in Texts(items) <==> x in items && x.Text?
  {
    if items != [] {
      TextsIn(items[1..]);
      assert items == [items[0]] + items[1..];
    }
  }

  /** A value that is no list, or is missing, is replaced: by the new string, or by the new strings of a list, each
      once; and an entry with neither a string nor a list with strings changes nothing. */
  lemma UpdateReplaces(m: map<string, Value>, update: seq<Entry>, i: nat)
    requires DistinctKeys(update) && i < |update|
    requires update[i].key in m ==> !m[update[i].key].Many?
    ensures var k, r := update[i].key, MergeAll(m, update);
      match update[i].value
      case One(text) => k in r && r[k] == One(text)
      case Many(items) =>
        if exists x <- items :: x.Text?
        then k in r && r[k].Many? && Replaces(items, r[k].items)
        else (k in r <==> k in m) && (k in m ==> r[k] == m[k])
      case Foreign(_) => (k in r <==> k in m) && (k in m ==> r[k] == m[k])
  {
    MergeAllAt(m, update, i);
    match update[i].value
    case One(text) =>
    case Many(items) =>
      TextsIn(items);
      if exists x <- items :: x.Text? {
        FreshKeys(Texts(items), {});
        FirstTexts(items);
      }
    case Foreign(_) =>
  }

  /** `r` holds the strings of `items`, each once, in the order in which they first come. */
  ghost predicate Replaces(items: seq<Item>, r: seq<Item>) {
    && (forall x :: x in r <==> x in items && x.Text?)
    && Distinct(r)
    && forall a, b :: a in r && b in r && a != b ==> (Before(r, a, b) <==> Before(items, a, b))
  }

  /** The first `a` is in front of the first `b`. */
  ghost predicate Before(items: seq<Item>, a: Item, b: Item) {
    exists i :: 0 <= i < |items| && items[i] == a && b !in items[..i]
  }

  lemma BeforeStep(head: Item, rest: seq<Item>, a: Item, b: Item)
    requires a != b
    ensures Before([head] + rest, a, b) <==> head == a || (head != b && Before(rest, a, b))
  {
    var all := [head] + rest;
    if head == a {
      assert all[0] == a && all[..0] == [];
    } else if i :| 0 <= i < |rest| && rest[i] == a && b !in rest[..i] {
      if head != b {
        assert all[i + 1] == a && all[..i + 1] == [head] + rest[..i];
      }
    }
    if i :| 0 <= i < |all| && all[i] == a && b !in all[..i] {
      if i > 0 {
        assert all[..i] == [head] + rest[..i - 1] && head in all[..i];
        assert rest[i - 1] == a && b !in rest[..i - 1];
      }
    }
  }

  lemma {:induction false} TextsOrder(items: seq<Item>, a: Item, b: Item)
    requires a.Text? && b.Text? && a != b
    ensures Before(Texts(items), a, b) <==> Before(items, a, b)
  {
    if items != [] {
      TextsOrder(items[1..], a, b);
      BeforeStep(items[0], items[1..], a, b);
      BeforeStep(items[0], Texts(items[1..]), a, b);
      assert items == [items[0]] + items[1..];
      assert [] + Texts(items[1..]) == Texts(items[1..]);
      hide Before;
    }
  }

  lemma {:induction false} FreshOrder(items: seq<Item>, seen: set<string>, a: Item, b: Item)
    requires (forall x <- items :: x.Text?) && a.Text? && b.Text? && a != b && a.text !in seen && b.text !in seen
    ensures Before(Fresh(items, seen), a, b) <==> Before(items, a, b)
    decreases |items|
  {
    if items != [] {
      var h, rest := items[0], items[1..];
      assert items == [h] + rest && h in items && forall x <- rest :: x in items;
      BeforeStep(h, rest, a, b);
      if h.Str() in seen {
        FreshOrder(rest, seen, a, b);
      } else {
        BeforeStep(h, Fresh(rest, seen + {h.Str()}), a, b);
        if h != a && h != b {
          FreshOrder(rest, seen + {h.Str()}, a, b);
        }
      }
      hide Before;
    }
  }

  lemma FirstTexts(items: seq<Item>)
    ensures Replaces(items, Fresh(Texts(items), {}))
  {
    var texts := Texts(items);
    var r := Fresh(texts, {});
    TextsIn(items);
    FreshKeys(texts, {});
    hide Fresh, Texts, Before;
    forall x | x in texts ensures x in r {
      assert x.Str() in Strs(texts) && x.Str() in Strs(r);
      var y :| y in r && y.Str() == x.Str();
    }
    forall a, b | a in r && b in r && a != b ensures Before(r, a, b) <==> Before(items, a, b) {
      FreshOrder(texts, {}, a, b);
      TextsOrder(items, a, b);
    }
  }

  /** An entry that is no string and holds none changes a list neither. */
  lemma UnusableChangesNothing(m: map<string, Value>, update: seq<Entry>, i: nat)
    requires DistinctKeys(update) && i < |update|
    requires match update[i].value
             case One(_) => false
             case Many(items) => forall x <- items :: !x.Text?
             case Foreign(_) => true
    ensures var k, r := update[i].key, MergeAll(m, update);
      (k in r <==> k in m) && (k in m ==> r[k] == m[k])
  {
    MergeAllAt(m, update, i);
    if update[i].value.Many? {
      TextsIn(update[i].value.items);
    }
  }

  /** A key the update does not name keeps its value. */
  lemma {:induction false} Untouched(m: map<string, Value>, update: seq<Entry>, k: string)
    requires forall e <- update :: e.key != k
    ensures k in MergeAll(m, update) <==> k in m
    ensures k in m ==> MergeAll(m, update)[k] == m[k]
    decreases |update|
  {
    if update != [] {
      Untouched(Merge(m, update[0]), update[1..], k);
    }
  }

  lemma MergeTwice(m: map<string, Value>, e: Entry)
    ensures var r := Merge(m, e); Merge(r, e) == r
  {
    var r, v := Merge(m, e), Usable(e.value);
    if !v.Foreign? && r[e.key].Many? {
      if e.key in m && m[e.key].Many? {
        MergingTwice(m[e.key].items, Added(v));
      } else {
        UsableIsDistinct(e.value);
        MergingTwice([], Added(v));
        assert [] + Added(v) == Added(v);
      }
      hide Fresh, Usable;
      assert r[e.key] == Many(Fresh(r[e.key].items + Added(v), {}));
      assert r[e.key := r[e.key]] == r;
    }
  }

  lemma UsableIsDistinct(v: Value)
    requires Usable(v).Many?
    ensures Fresh(Usable(v).items, {}) == Usable(v).items
  {
    FreshKeys(Texts(v.items), {});
    FreshOfDistinct(Usable(v).items, {});
    hide Fresh, Texts;
  }

  /** Updating metadata twice with the same update is updating it once. */
  lemma UpdateTwice(m: map<string, Value>, update: seq<Entry>)
    requires DistinctKeys(update)
    ensures MergeAll(MergeAll(m, update), update) == MergeAll(m, update)
  {
    var r := MergeAll(m, update);
    AllMerged(m, update, r, |update|);
  }

  lemma {:induction false} AllMerged(m: map<string, Value>, update: seq<Entry>, r: map<string, Value>, n: nat)
    requires DistinctKeys(update) && r == MergeAll(m, update) && n <= |update|
    ensures MergeAll(r, update[|update| - n..]) == r
    decreases n
  {
    if n > 0 {
      var i := |update| - n;
      MergeAllAt(m, update, i);
      MergeTwice(m, update[i]);
      SameAtKey(m, r, update[i]);
      assert update[i..][0] == update[i] && update[i..][1..] == update[i + 1..];
      AllMerged(m, update, r, n - 1);
    }
  }

  lemma SameAtKey(m: map<string, Value>, r: map<string, Value>, e: Entry)
    requires var once := Merge(m, e);
      && (e.key in r <==> e.key in once) && (e.key in r ==> r[e.key] == once[e.key])
    requires Merge(Merge(m, e), e) == Merge(m, e)
    ensures Merge(r, e) == r
  {
    var once := Merge(m, e);
    var again := Merge(once, e);
    hide Usable, Fresh;
    if !Usable(e.value).Foreign? {
      assert again[e.key] == once[e.key];
    }
  }
}
