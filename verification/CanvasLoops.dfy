/** How many rounds a container runs: the closed form of `CanvasContainers` for iterations over a
    fixed list and for loops, and the two shapes of container that stop short. */
module CanvasLoops {
  import opened Common
  import opened CanvasModel
  import opened CanvasContainers
  import Cursor

  // ---------- Iterations ----------

  /** The iterated value is a list of `n` elements and nothing is cancelled at positions `from..upto`. */
  ghost predicate FixedList(o: Oracle, item: Id, n: nat, from: nat, upto: nat) {
    forall p: nat :: from <= p < upto ==> o(p, item).items == Some(n) && !o(p, item).canceled
  }

  /** An item with cursor `c` in front of `n` elements goes on for this many rounds: `n` when fresh, and
      one more when it was left at -1 by an earlier activation, because nothing resets the cursor. */
  function IterationRounds(c: int, n: nat): nat {
    if n == 0 || c >= n then 0 else if c < -1 then n + 1 else n - c
  }

  lemma {:induction false} IterationRunsFor(g: Canvas, o: Oracle, item: Id, c: int, n: nat, p: nat, stride: nat)
    requires Of(g, item).kind == IterationItem && c >= -1
    requires FixedList(o, item, n, p, p + IterationRounds(c, n) * stride + 1)
    ensures RunsFor(g, o, item, c, p, stride, IterationRounds(c, n))
    decreases IterationRounds(c, n)
  {
    var r := IterationRounds(c, n);
    assert r * stride >= 0;
    assert o(p, item).items == Some(n) && !o(p, item).canceled;
    if r > 0 {
      assert r * stride == stride + (r - 1) * stride;
      IterationRunsFor(g, o, item, c + 1, n, p + stride, stride);
    }
  }

  lemma FixedListShrinks(o: Oracle, item: Id, n: nat, from: nat, later: nat, upto: nat)
    requires FixedList(o, item, n, from, upto) && from <= later
    ensures FixedList(o, item, n, later, upto)
  {
  }

  lemma IterationReady(g: Canvas, o: Oracle, before: seq<Id>, item: Id, body: seq<Id>, c: int, n: nat)
    requires Of(g, item).kind == IterationItem && c >= -1
    requires FixedList(o, item, n, |before|, |before| + Turns(IterationRounds(c, n), body))
    ensures RunsFor(g, o, item, c, |before| + 1, 1 + |body|, IterationRounds(c, n))
  {
    var r := IterationRounds(c, n);
    FixedListShrinks(o, item, n, |before|, |before| + 1, |before| + Turns(r, body));
    hide FixedList, RunsFor, IterationRounds;
    IterationRunsFor(g, o, item, c, n, |before| + 1, 1 + |body|);
  }

  /** The whole run of an Iteration over `n` elements with a chain body of `|body|` components: fresh, it
      appends the container, `n` rounds of item and body, a last item and the downstream; re-entered with
      the cursor at -1 and a non-empty list, it makes one round more. */
  lemma IterationClosedForm(g: Canvas, o: Oracle, s: State, before: seq<Id>, owner: Id, item: Id, body: seq<Id>, n: nat)
    requires Of(g, owner).kind == Iteration
    requires Chain(g, owner, item, body) && Grounded(g, before, owner, item, body)
    requires At(s, before, owner) && -1 <= CursorOf(s.cursors, item) <= 0
    requires var size := Turns(IterationRounds(CursorOf(s.cursors, item), n), body);
      Quiet(o, |before|, |before| + size) && FixedList(o, item, n, |before|, |before| + size)
    ensures var c := CursorOf(s.cursors, item);
      RunsRounds(g, o, s, before, owner, item, body, if n == 0 then 0 else if c == 0 then n else n + 1)
  {
    hide Chain, Grounded, RunsFor, At, EndsNow, Quiet, Of, CursorOf, FixedList, Turns, RunsRounds;
    ItemFacts(g, owner, item, body);
    var c := CursorOf(s.cursors, item);
    IterationReady(g, o, before, item, body, c, n);
    ContainerRun(g, o, s, before, owner, item, body, IterationRounds(c, n));
  }

  // ---------- Loops ----------

  /** Rounds of a loop whose item, with cursor `c`, is launched at `p`, `p + stride`, ...: until the count
      is used up or the conditions hold. */
  function LoopRounds(o: Oracle, item: Id, c: int, maximum: int, p: nat, stride: nat): nat
    decreases maximum - c
  {
    if c >= maximum || o(p, item).condsHold then 0
    else 1 + LoopRounds(o, item, c + 1, maximum, p + stride, stride)
  }

  lemma {:induction false} LoopRunsFor(g: Canvas, o: Oracle, owner: Id, item: Id, c: int, p: nat, stride: nat)
    requires Of(g, item).kind == LoopItem && Of(g, item).parent == Some(owner) && c >= -1
    requires var m := Of(g, owner).maxCount;
      Quiet(o, p, p + LoopRounds(o, item, c, m, p, stride) * stride + 1)
    ensures RunsFor(g, o, item, c, p, stride, LoopRounds(o, item, c, Of(g, owner).maxCount, p, stride))
    decreases LoopRounds(o, item, c, Of(g, owner).maxCount, p, stride)
  {
    var m := Of(g, owner).maxCount;
    var r := LoopRounds(o, item, c, m, p, stride);
    assert r * stride >= 0;
    assert !o(p, item).canceled;
    if r > 0 {
      assert r * stride == stride + (r - 1) * stride;
      LoopRunsFor(g, o, owner, item, c + 1, p + stride, stride);
    }
  }

  /** Whatever the conditions do, a fresh loop starts its body at most `maximum` times and a re-entered one
      at most once more; it falls short of that only because the conditions held at the next launch. */
  lemma {:induction false} LoopBound(o: Oracle, item: Id, c: int, maximum: int, p: nat, stride: nat)
    ensures var r := LoopRounds(o, item, c, maximum, p, stride);
      && r <= (if maximum > c then maximum - c else 0)
      && (r < maximum - c ==> o(p + r * stride, item).condsHold)
      && (forall k: nat :: k < r ==> !o(p + k * stride, item).condsHold)
    decreases maximum - c
  {
    var r := LoopRounds(o, item, c, maximum, p, stride);
    if r > 0 {
      LoopBound(o, item, c + 1, maximum, p + stride, stride);
      assert r * stride == stride + (r - 1) * stride;
      forall k: nat | k < r ensures !o(p + k * stride, item).condsHold {
        if k == 0 {
          assert k * stride == 0;
        } else {
          assert k * stride == stride + (k - 1) * stride;
          assert !o(p + stride + (k - 1) * stride, item).condsHold;
        }
      }
    } else {
      assert r * stride == 0;
    }
  }

  lemma LoopReady(g: Canvas, o: Oracle, before: seq<Id>, owner: Id, item: Id, body: seq<Id>, c: int, rounds: nat)
    requires Of(g, item).kind == LoopItem && Of(g, item).parent == Some(owner) && c >= -1
    requires rounds == LoopRounds(o, item, c, Of(g, owner).maxCount, |before| + 1, 1 + |body|)
    requires Quiet(o, |before|, |before| + Turns(rounds, body))
    ensures RunsFor(g, o, item, c, |before| + 1, 1 + |body|, rounds)
  {
    QuietFits(o, |before|, |before| + 1, |before| + Turns(rounds, body), owner);
    hide Quiet, RunsFor, LoopRounds, Of;
    LoopRunsFor(g, o, owner, item, c, |before| + 1, 1 + |body|);
  }

  /** The whole run of a Loop with a chain body, whatever its conditions evaluate to. */
  lemma LoopClosedForm(g: Canvas, o: Oracle, s: State, before: seq<Id>, owner: Id, item: Id, body: seq<Id>, rounds: nat)
    requires Of(g, owner).kind == Loop
    requires Chain(g, owner, item, body) && Grounded(g, before, owner, item, body)
    requires At(s, before, owner) && -1 <= CursorOf(s.cursors, item) <= 0
    requires rounds == LoopRounds(o, item, CursorOf(s.cursors, item), Of(g, owner).maxCount, |before| + 1, 1 + |body|)
    requires Quiet(o, |before|, |before| + Turns(rounds, body))
    ensures var c, m := CursorOf(s.cursors, item), Of(g, owner).maxCount;
      && rounds <= (if m < c then 0 else if c == 0 then m else m + 1)
      && RunsRounds(g, o, s, before, owner, item, body, rounds)
  {
    hide Chain, Grounded, RunsFor, LoopRounds, RunsRounds, At, EndsNow;
    ItemFacts(g, owner, item, body);
    var c, m := CursorOf(s.cursors, item), Of(g, owner).maxCount;
    LoopReady(g, o, before, owner, item, body, c, rounds);
    LoopBound(o, item, c, m, |before| + 1, 1 + |body|);
    ContainerRun(g, o, s, before, owner, item, body, rounds);
  }

  // ---------- What the container is left for ----------

  lemma ExtendNothing(path: seq<Id>)
    ensures ExtendPath(path, []) == path == path + []
  {
  }

  lemma ExtendFirst(path: seq<Id>, ids: seq<Id>)
    requires path != [] && ids != [] && ids[0] != path[|path| - 1]
    ensures ExtendPath(path, ids) == ExtendPath(path + [ids[0]], ids[1..])
  {
  }

  /** Nothing is suppressed when neighbours differ. */
  lemma {:induction false} ExtendsPlainly(path: seq<Id>, ids: seq<Id>)
    requires path != []
    requires ids != [] ==> ids[0] != path[|path| - 1]
    requires forall k :: 0 <= k < |ids| - 1 ==> ids[k] != ids[k + 1]
    ensures ExtendPath(path, ids) == path + ids
    decreases |ids|
  {
    hide ExtendPath;
    if ids == [] {
      ExtendNothing(path);
    } else {
      var rest := ids[1..];
      forall k | 0 <= k < |rest| - 1 ensures rest[k] != rest[k + 1] {
        assert ids[k + 1] != ids[k + 2];
      }
      ExtendsPlainly(path + [ids[0]], ids[1..]);
      ExtendFirst(path, ids);
      assert path + [ids[0]] + ids[1..] == path + ids;
    }
  }

  /** A container whose item links to no body stops after its first item: the item itself is offered again
      and suppressed as an adjacent duplicate, so the rest of the list is never presented. */
  lemma EmptyBodyStalls(g: Canvas, o: Oracle, s: State, done: seq<Id>, owner: Id, item: Id)
    requires IsContainer(Of(g, owner).kind) && Start(g, owner) == Some(item) && Of(g, item).downstream == []
    requires At(s, done, item) && !Blocked(g, done, item) && !o(|done|, item).errored
    requires !EndsNow(g, o, item, CursorOf(s.cursors, item), |done|)
    ensures Live(s)
    ensures var r := Step(g, o, s);
      r.status == Running && !Live(r) && r.path == done + [item] && CursorOf(r.cursors, item) != -1
  {
    StartIsItem(g, g.order, owner);
    SingleStep(g, o, s, done, item);
    var c := StepCursor(g, o, |done|, item, CursorOf(s.cursors, item));
    assert Successors(g, o, |done|, item, c) == [item];
    assert ExtendPath(done + [item], [item]) == ExtendPath(done + [item], []) == done + [item];
    hide Step, Blocked, StepCursor, FirstItem;
    assert (done + [item])[|done| + 1..] == [];
  }

  /** When the turn of an ending item is over, the run goes on exactly if its container links to something:
      a container nested last in another one's body has an empty downstream, and the outer container is
      never returned to, however many elements it has left. */
  lemma NestedTailStalls(g: Canvas, o: Oracle, s: State, done: seq<Id>, owner: Id, item: Id)
    requires IsContainer(Of(g, owner).kind) && Start(g, owner) == Some(item)
    requires At(s, done, item) && !Blocked(g, done, item) && !o(|done|, item).errored
    requires EndsNow(g, o, item, CursorOf(s.cursors, item), |done|)
    requires forall d <- Of(g, owner).downstream :: d != item && !IsForm(g, d)
    ensures Live(s)
    ensures Live(Step(g, o, s)) <==> Of(g, owner).downstream != []
  {
    StartIsItem(g, g.order, owner);
    var c := StepCursor(g, o, |done|, item, CursorOf(s.cursors, item));
    var next := Of(g, owner).downstream;
    assert Successors(g, o, |done|, item, c) == next;
    hide Blocked, FirstItem, Step, StepCursor;
    SingleStep(g, o, s, done, item);
    ExtendsBeyond(g, done + [item], next);
    hide AfterSingle, Successors;
    AfterSingleShape(g, o, s, done, item, Step(g, o, s), next);
    if next != [] {
      assert next[0] in next;
    }
  }

  lemma AfterSingleShape(g: Canvas, o: Oracle, s: State, done: seq<Id>, id: Id, r: State, next: seq<Id>)
    requires AfterSingle(g, o, s, done, id, r)
    requires Successors(g, o, |done|, id, CursorOf(InvokeOne(g, o, s.cursors, id, |done|), id)) == next
    requires NoForms(g, ExtendPath(done + [id], next)[|done| + 1..])
    ensures r.status == Running && r.path == ExtendPath(done + [id], next) && r.idx == |done| + 1
  {
    hide Successors, InvokeOne, Ends, ExtendPath, Forms;
  }

  lemma {:induction false} ExtendsBeyond(g: Canvas, path: seq<Id>, ids: seq<Id>)
    requires path != []
    requires forall d <- ids :: !IsForm(g, d)
    ensures var r := ExtendPath(path, ids);
      && NoForms(g, r[|path|..])
      && (ids != [] && ids[0] != path[|path| - 1] ==> |r| > |path|)
      && (ids == [] ==> r == path)
    decreases |ids|
  {
    if ids != [] {
      var p := AppendPath(path, ids[0]);
      ExtendsBeyond(g, p, ids[1..]);
      var r := ExtendPath(path, ids);
      assert r == ExtendPath(p, ids[1..]);
      if p == path {
      } else {
        var rest := r[|path|..];
        assert rest[0] == ids[0] && rest[1..] == r[|p|..];
      }
    } else {
      assert path[|path|..] == [];
    }
  }
}
