/** The item of an Iteration: its cursor, the element it shows, and the outputs it collects in the container. */
module ItemCollation {
  import opened Common
  import opened CanvasModel
  import Cursor

  /** A `ref` of a container's output: the component and the name of its output. */
  datatype Ref = Ref(cid: Id, name: string)

  /** One entry of the container's outputs.  A value that is still empty or unset is the empty list. */
  datatype Output<T> = Output(name: string, ref: Option<Ref>, values: seq<T>)

  /** What `check_if_canceled` answers at the three places where `_invoke` asks. */
  datatype Flags = Flags(atStart: bool, beforeCollation: bool, beforeItem: bool)

  const CLEAR := Flags(false, false, false)

  type Read<!T> = Ref -> T

  /** The cursor, every element shown so far and the container's outputs. */
  datatype Item<T> = Item(idx: int, shown: seq<T>, outputs: seq<Output<T>>)

  predicate IsChild(g: Canvas, owner: Id, cid: Id) {
    cid in g.order && Of(g, cid).parent == Some(owner)
  }

  predicate Collects<T>(g: Canvas, owner: Id, x: Output<T>) {
    x.ref.Some? && IsChild(g, owner, x.ref.value.cid)
  }

  /** Every output that refers to a component of the container grows by that component's current output. */
  function Collated<T>(g: Canvas, owner: Id, outputs: seq<Output<T>>, read: Read<T>): (r: seq<Output<T>>)
    ensures |r| == |outputs|
  {
    seq(|outputs|, j requires 0 <= j < |outputs| => CollatedOne(g, owner, outputs[j], read))
  }

  function CollatedOne<T>(g: Canvas, owner: Id, x: Output<T>, read: Read<T>): Output<T> {
    if Collects(g, owner, x) then x.(values := x.values + [read(x.ref.value)]) else x
  }

  /** `arr[c]`, where -1 is the last element. */
  function ElementAt<T>(xs: seq<T>, c: int): Option<T> {
    if 0 <= c < |xs| then Some(xs[c]) else if -|xs| <= c < 0 then Some(xs[|xs| + c]) else None
  }

  /** `_invoke` over the list `xs`, or over a value that is no list. */
  function Invoked<T>(g: Canvas, owner: Id, s: Item<T>, xs: Option<seq<T>>, flags: Flags, read: Read<T>): Item<T> {
    if flags.atStart then s
    else if xs.None? then s.(idx := -1)
    else if s.idx > 0 && flags.beforeCollation then s
    else
      var t := if s.idx > 0 then s.(outputs := Collated(g, owner, s.outputs, read)) else s;
      if t.idx >= |xs.value| then t.(idx := -1)
      else if flags.beforeItem then t
      else
        match ElementAt(xs.value, t.idx)
        case None => t
        case Some(x) => t.(idx := t.idx + 1, shown := t.shown + [x])
  }

  /** The object the canvas holds for the container; only its outputs change. */
  class Container<T> {
    var outputs: seq<Output<T>>

    constructor (outputs: seq<Output<T>>)
      ensures this.outputs == outputs
    {
      this.outputs := outputs;
    }
  }

  /** The object the canvas holds for the item. */
  class IterationItem<T> {
    var idx: int
    var item: Option<T>
    var index: int
    ghost var shown: seq<T>
    const owner: Id
    const parent: Container<T>

    constructor (owner: Id, parent: Container<T>)
      ensures idx == 0 && shown == [] && this.parent == parent && this.owner == owner
      ensures Valid()
    {
      this.owner, this.parent := owner, parent;
      idx, item, index, shown := 0, None, 0, [];
    }

    /** The item's outputs are the last element shown and the position it was read from. */
    ghost predicate Valid()
      reads this
    {
      && item == (if shown == [] then None else Some(shown[|shown| - 1]))
      && (shown != [] && idx != -1 ==> index == idx - 1)
    }

    ghost function State(): Item<T>
      reads this, parent
    {
      Item(idx, shown, parent.outputs)
    }

    /** `output_collation`.  The list of excluded classes tests the container's own class, which is never in it. */
    method OutputCollation(g: Canvas, read: Read<T>)
      requires forall i, j :: 0 <= i < j < |g.order| ==> g.order[i] != g.order[j]
      modifies parent
      ensures parent.outputs == Collated(g, owner, old(parent.outputs), read)
    {
      ghost var was := parent.outputs;
      var n := |parent.outputs|;
      for i := 0 to |g.order|
        invariant |parent.outputs| == n
        invariant forall j :: 0 <= j < n ==> parent.outputs[j] == Done(g, owner, was[j], read, i)
      {
        var cid := g.order[i];
        if Of(g, cid).parent == Some(owner) {
          for j := 0 to n
            invariant |parent.outputs| == n
            invariant forall k ::
                        0 <= k < n ==>
                          parent.outputs[k] == Done(g, owner, was[k], read, if k < j then i + 1 else i)
          {
            DoneNext(g, owner, was[j], read, i);
            var x := parent.outputs[j];
            if x.ref.Some? && x.ref.value.cid == cid {
              parent.outputs := parent.outputs[j := x.(values := x.values + [read(x.ref.value)])];
            }
          }
        } else {
          forall k | 0 <= k < n ensures Done(g, owner, was[k], read, i + 1) == Done(g, owner, was[k], read, i) {
            DoneNext(g, owner, was[k], read, i);
          }
        }
      }
      assert g.order[..|g.order|] == g.order;
    }

    /** `_invoke`; `raised` tells that it ended in an exception. */
    method Invoke(g: Canvas, xs: Option<seq<T>>, flags: Flags, read: Read<T>) returns (raised: bool)
      requires Valid()
      requires forall i, j :: 0 <= i < j < |g.order| ==> g.order[i] != g.order[j]
      modifies this, parent
      ensures Valid()
      ensures State() == Invoked(g, owner, old(State()), xs, flags, read)
      ensures raised <==> !flags.atStart && (xs.None? || (old(idx) < |xs.value| && !flags.beforeItem
                                                         && old(idx) < -|xs.value|))
    {
      raised := false;
      if flags.atStart {
        return;
      }
      if xs.None? {
        idx := -1;
        return true;
      }
      if idx > 0 {
        if flags.beforeCollation {
          return;
        }
        OutputCollation(g, read);
      }
      if idx >= |xs.value| {
        idx := -1;
        return;
      }
      if flags.beforeItem {
        return;
      }
      match ElementAt(xs.value, idx)
      case None => raised := true;
      case Some(x) =>
        item, index, shown := Some(x), idx, shown + [x];
        idx := idx + 1;
    }

    method End() returns (r: bool)
      ensures r == (State().idx == -1)
    {
      r := idx == -1;
    }
  }

  /** The output after the components before position `i` were visited. */
  ghost function Done<T>(g: Canvas, owner: Id, x: Output<T>, read: Read<T>, i: nat): Output<T>
    requires i <= |g.order|
  {
    if Collects(g, owner, x) && x.ref.value.cid in g.order[..i] then CollatedOne(g, owner, x, read) else x
  }

  lemma DoneNext<T>(g: Canvas, owner: Id, x: Output<T>, read: Read<T>, i: nat)
    requires forall i, j :: 0 <= i < j < |g.order| ==> g.order[i] != g.order[j]
    requires i < |g.order|
    ensures x.ref.Some? && x.ref.value.cid == g.order[i] && Of(g, g.order[i]).parent == Some(owner)
      ==> Done(g, owner, x, read, i) == x && Done(g, owner, x, read, i + 1) == CollatedOne(g, owner, x, read)
    ensures !(x.ref.Some? && x.ref.value.cid == g.order[i] && Of(g, g.order[i]).parent == Some(owner))
      ==> Done(g, owner, x, read, i + 1) == Done(g, owner, x, read, i)
  {
    assert g.order[..i + 1] == g.order[..i] + [g.order[i]];
    assert g.order[i] !in g.order[..i];
  }

  /** The scheduler's cursor is this one. */
  lemma CursorAgrees<T>(g: Canvas, owner: Id, s: Item<T>, xs: Option<seq<T>>, flags: Flags, read: Read<T>)
    requires s.idx >= -1
    ensures Invoked(g, owner, s, xs, flags, read).idx ==
            Cursor.IterationStep(s.idx, if xs.None? then None else Some(|xs.value|),
                                 || flags.atStart
                                 || (s.idx > 0 && xs.Some? && flags.beforeCollation)
                                 || (xs.Some? && s.idx < |xs.value| && flags.beforeItem))
  {
  }

  /** An invocation collates before it looks at the end of the list, and shows an element last. */
  predicate Collates<T>(s: Item<T>, xs: Option<seq<T>>, flags: Flags) {
    !flags.atStart && xs.Some? && s.idx > 0 && !flags.beforeCollation
  }

  predicate Shows<T>(s: Item<T>, xs: Option<seq<T>>, flags: Flags) {
    && !flags.atStart && xs.Some? && !(s.idx > 0 && flags.beforeCollation) && !flags.beforeItem
    && -|xs.value| <= s.idx < |xs.value|
  }

  /** What one invocation does, cancelled at any of its three looks or not: it shows one more element exactly if it gets
      to it, and each collecting output grows by one value exactly if the invocation gets to collating, also when it is
      cancelled right behind that; no other output changes. */
  lemma InvocationEffect<T>(g: Canvas, owner: Id, s: Item<T>, xs: Option<seq<T>>, flags: Flags, read: Read<T>)
    ensures var r := Invoked(g, owner, s, xs, flags, read);
      && (Shows(s, xs, flags) ==>
            var i := if s.idx < 0 then |xs.value| + s.idx else s.idx;
            r.shown == s.shown + [xs.value[i]] && r.idx == s.idx + 1)
      && (!Shows(s, xs, flags) ==> r.shown == s.shown && (r.idx == s.idx || r.idx == -1))
      && |r.outputs| == |s.outputs|
      && forall j :: 0 <= j < |s.outputs| ==>
           var x := s.outputs[j];
           if Collates(s, xs, flags) && x.ref.Some? && IsChild(g, owner, x.ref.value.cid)
           then r.outputs[j] == Output(x.name, x.ref, x.values + [read(x.ref.value)])
           else r.outputs[j] == x
  {
  }

  // ---------- Whole activations ----------

  /** `count` invocations over the list `xs`; the components' outputs differ from invocation to invocation. */
  function Run<T>(g: Canvas, owner: Id, s: Item<T>, xs: seq<T>, seen: nat -> Read<T>, k: nat, count: nat): Item<T>
    decreases count
  {
    if count == 0 then s
    else Run(g, owner, Invoked(g, owner, s, Some(xs), CLEAR, seen(k)), xs, seen, k + 1, count - 1)
  }

  /** Each collecting output grew by what the invocations `from` up to `upto` read, in that order; the others did not
      change. */
  ghost predicate Grew<T>(g: Canvas, owner: Id, was: seq<Output<T>>, now: seq<Output<T>>,
                          seen: nat -> Read<T>, from: nat, upto: nat)
    requires from <= upto
  {
    && |now| == |was|
    && forall j :: 0 <= j < |was| ==>
         now[j] == (if Collects(g, owner, was[j])
                    then was[j].(values := was[j].values + Gathered(was[j].ref.value, seen, from, upto))
                    else was[j])
  }

  ghost function Gathered<T>(ref: Ref, seen: nat -> Read<T>, from: nat, upto: nat): seq<T>
    requires from <= upto
  {
    seq(upto - from, i requires 0 <= i < upto - from => seen(from + i)(ref))
  }

  lemma GrewOnce<T>(
      g: Canvas, owner: Id, was: seq<Output<T>>, now: seq<Output<T>>, seen: nat -> Read<T>, from: nat, upto: nat)
    requires from < upto
    requires Grew(g, owner, Collated(g, owner, was, seen(from)), now, seen, from + 1, upto)
    ensures Grew(g, owner, was, now, seen, from, upto)
  {
    var mid := Collated(g, owner, was, seen(from));
    forall j | 0 <= j < |was| && Collects(g, owner, was[j])
      ensures now[j] == was[j].(values := was[j].values + Gathered(was[j].ref.value, seen, from, upto))
    {
      var ref := was[j].ref.value;
      assert mid[j] == CollatedOne(g, owner, was[j], seen(from));
      assert [seen(from)(ref)] + Gathered(ref, seen, from + 1, upto) == Gathered(ref, seen, from, upto);
      assert was[j].values + [seen(from)(ref)] + Gathered(ref, seen, from + 1, upto)
          == was[j].values + Gathered(ref, seen, from, upto);
    }
    forall j | 0 <= j < |was| && !Collects(g, owner, was[j]) ensures now[j] == was[j] {
      assert mid[j] == CollatedOne(g, owner, was[j], seen(from));
    }
  }

  /** From a cursor inside the list: the rest is shown, and every later invocation collates one round. */
  lemma {:induction false} RunFromInside<T>(g: Canvas, owner: Id, s: Item<T>, xs: seq<T>, seen: nat -> Read<T>, k: nat)
    requires 0 < s.idx <= |xs|
    ensures var count := |xs| - s.idx + 1;
      var r := Run(g, owner, s, xs, seen, k, count);
      && r.idx == -1 && r.shown == s.shown + xs[s.idx..]
      && Grew(g, owner, s.outputs, r.outputs, seen, k, k + count)
      && forall m: nat :: m < count ==> Run(g, owner, s, xs, seen, k, m).idx == s.idx + m
    decreases |xs| - s.idx
  {
    var count := |xs| - s.idx + 1;
    var t := Invoked(g, owner, s, Some(xs), CLEAR, seen(k));
    var r := Run(g, owner, t, xs, seen, k + 1, count - 1);
    if s.idx == |xs| {
      assert Grew(g, owner, t.outputs, r.outputs, seen, k + 1, k + count);
    } else {
      RunFromInside(g, owner, t, xs, seen, k + 1);
      assert s.shown + xs[s.idx..] == s.shown + [xs[s.idx]] + xs[s.idx + 1..];
      forall m: nat | m < count ensures Run(g, owner, s, xs, seen, k, m).idx == s.idx + m {
        if m > 0 {
          assert Run(g, owner, s, xs, seen, k, m) == Run(g, owner, t, xs, seen, k + 1, m - 1);
        }
      }
    }
    GrewOnce(g, owner, s.outputs, r.outputs, seen, k, k + count);
  }

  /** From the start of the list: every element is shown once, in order, the activation ends exactly at the
      invocation after the last element, and exactly the rounds of the elements are collated, in order. */
  lemma {:induction false} FreshActivation<T>(
      g: Canvas, owner: Id, s: Item<T>, xs: seq<T>, seen: nat -> Read<T>, k: nat)
    requires s.idx == 0
    ensures var n := |xs|;
      var r := Run(g, owner, s, xs, seen, k, n + 1);
      && r.idx == -1 && r.shown == s.shown + xs
      && Grew(g, owner, s.outputs, r.outputs, seen, k + 1, k + 1 + n)
      && forall m: nat :: m <= n ==> Run(g, owner, s, xs, seen, k, m).idx == m
  {
    var n := |xs|;
    var t := Invoked(g, owner, s, Some(xs), CLEAR, seen(k));
    if n > 0 {
      RunFromInside(g, owner, t, xs, seen, k + 1);
      assert s.shown + [xs[0]] + xs[1..] == s.shown + xs;
      forall m: nat | m <= n ensures Run(g, owner, s, xs, seen, k, m).idx == m {
        if m > 0 {
          assert Run(g, owner, s, xs, seen, k, m) == Run(g, owner, t, xs, seen, k + 1, m - 1);
        }
      }
    } else {
      assert Run(g, owner, s, xs, seen, k, 1) == Run(g, owner, t, xs, seen, k + 1, 0);
    }
  }

  /** Re-entered with the cursor left at -1, a non-empty list is shown from its last element, then in full;
      the additional round is never collated. */
  lemma {:induction false} ReenteredActivation<T>(g: Canvas, owner: Id, s: Item<T>, xs: seq<T>, seen: nat -> Read<T>)
    requires s.idx == -1 && xs != []
    ensures var n := |xs|;
      var r := Run(g, owner, s, xs, seen, 0, n + 2);
      && r.idx == -1 && r.shown == s.shown + [xs[n - 1]] + xs
      && Grew(g, owner, s.outputs, r.outputs, seen, 2, n + 2)
      && forall m: nat :: 0 < m <= n + 1 ==> Run(g, owner, s, xs, seen, 0, m).idx == m - 1
  {
    var n := |xs|;
    var t := Invoked(g, owner, s, Some(xs), CLEAR, seen(0));
    FreshActivation(g, owner, t, xs, seen, 1);
    forall m: nat | 0 < m <= n + 1 ensures Run(g, owner, s, xs, seen, 0, m).idx == m - 1 {
      assert Run(g, owner, s, xs, seen, 0, m) == Run(g, owner, t, xs, seen, 1, m - 1);
    }
  }

  /** Re-entered over an empty list, the item stays at its end and neither shows nor collates anything. */
  lemma {:induction false} ReenteredEmpty<T>(g: Canvas, owner: Id, s: Item<T>, seen: nat -> Read<T>, k: nat, count: nat)
    requires s.idx == -1
    ensures Run(g, owner, s, [], seen, k, count) == s
    decreases count
  {
    if count > 0 {
      ReenteredEmpty(g, owner, s, seen, k + 1, count - 1);
    }
  }
}
