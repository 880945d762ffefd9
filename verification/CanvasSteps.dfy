/** Where the path goes from one component, case by case in the words of the source, and which entries a batch drops. */
module CanvasSteps {
  import opened Common
  import opened CanvasModel
  import opened CanvasContainers
  import CanvasLoops

  // ---------- Appending ----------

  /** The ids that differ from the id in front of them; in front of the first stands `prev`. */
  function NoRepeats(prev: Id, ids: seq<Id>): seq<Id>
    decreases |ids|
  {
    if ids == [] then []
    else (if ids[0] == prev then [] else [ids[0]]) + NoRepeats(ids[0], ids[1..])
  }

  lemma ExtendUnfolds(path: seq<Id>, ids: seq<Id>)
    requires path != []
    ensures ids == [] ==> ExtendPath(path, ids) == path + NoRepeats(path[|path| - 1], ids)
    ensures ids != [] ==>
              var prev := path[|path| - 1];
              && ExtendPath(path, ids) == ExtendPath(AppendPath(path, ids[0]), ids[1..])
              && NoRepeats(prev, ids) == (if ids[0] == prev then [] else [ids[0]]) + NoRepeats(ids[0], ids[1..])
  {
    hide AppendPath;
    assert path + [] == path;
  }

  lemma Regroup(a: seq<Id>, b: seq<Id>, c: seq<Id>)
    ensures a + (b + c) == a + b + c && a + ([] + c) == a + c
  {
  }

  /** Offering ids to the path appends those that do not repeat the one in front of them. */
  lemma {:induction false} ExtendSkipsRepeats(path: seq<Id>, ids: seq<Id>)
    requires path != []
    ensures ExtendPath(path, ids) == path + NoRepeats(path[|path| - 1], ids)
    decreases |ids|
  {
    hide ExtendPath, NoRepeats;
    ExtendUnfolds(path, ids);
    if ids != [] {
      var next, rest := AppendPath(path, ids[0]), NoRepeats(ids[0], ids[1..]);
      ExtendSkipsRepeats(next, ids[1..]);
      assert next[|next| - 1] == ids[0];
      Regroup(path, [ids[0]], rest);
    }
  }

  predicate Differing(prev: Id, ids: seq<Id>) {
    && (ids != [] ==> ids[0] != prev)
    && forall k :: 0 <= k < |ids| - 1 ==> ids[k] != ids[k + 1]
  }

  // ---------- Where a position leads ----------

  /** The component failed, and its handler names another branch. */
  predicate Diverted(g: Canvas, o: Oracle, p: nat, id: Id) {
    var h := Of(g, id).handler;
    o(p, id).errored && h.Handler? && h.goto != []
  }

  /** The item's cursor is at its end, or the conditions of its loop hold. */
  predicate IsOver(g: Canvas, o: Oracle, p: nat, id: Id, cursor: int) {
    || (Of(g, id).kind == IterationItem && cursor == -1)
    || (Of(g, id).kind == LoopItem && (cursor == -1 || o(p, id).condsHold))
  }

  /** The component is an item of the container, of the class that goes with it. */
  predicate BelongsTo(g: Canvas, item: Id, owner: Id) {
    && Of(g, item).parent == Some(owner)
    && Of(g, item).kind == (if Of(g, owner).kind == Loop then LoopItem else IterationItem)
  }

  /** `item` is the container's first item in dictionary order. */
  ghost predicate FirstOf(g: Canvas, item: Id, owner: Id) {
    exists k :: 0 <= k < |g.order| && g.order[k] == item && BelongsTo(g, item, owner)
                && forall j :: 0 <= j < k ==> !BelongsTo(g, g.order[j], owner)
  }

  lemma {:induction false} FirstIsStart(g: Canvas, ids: seq<Id>, owner: Id, k: nat)
    requires k < |ids| && BelongsTo(g, ids[k], owner) && forall j :: 0 <= j < k ==> !BelongsTo(g, ids[j], owner)
    ensures FirstItem(g, ids, owner) == Some(ids[k])
    decreases k
  {
    hide Of;
    if k > 0 {
      assert !BelongsTo(g, ids[0], owner);
      forall j | 0 <= j < k - 1 ensures !BelongsTo(g, ids[1..][j], owner) {
        assert ids[1..][j] == ids[j + 1];
      }
      FirstIsStart(g, ids[1..], owner, k - 1);
    }
  }

  lemma StartIsFirst(g: Canvas, item: Id, owner: Id)
    requires FirstOf(g, item, owner)
    ensures Start(g, owner) == Some(item)
  {
    var k :| 0 <= k < |g.order| && g.order[k] == item && BelongsTo(g, item, owner)
             && forall j :: 0 <= j < k ==> !BelongsTo(g, g.order[j], owner);
    FirstIsStart(g, g.order, owner, k);
  }

  datatype Case = Out | Choice | Entry | Exit | Back | Onward

  /** No branch of its own: an ExitLoop has one only inside a Loop. */
  predicate Ordinary(g: Canvas, id: Id) {
    var c := Of(g, id);
    && c.kind !in {Categorize, Switch, Iteration, Loop}
    && (c.kind == ExitLoop ==> c.parent.Some? && Of(g, c.parent.value).kind != Loop)
  }

  /** The six ways a component that is not diverted goes on, in the order in which the source asks. */
  ghost predicate Leads(g: Canvas, o: Oracle, p: nat, id: Id, cursor: int, way: Case, ids: seq<Id>) {
    var c := Of(g, id);
    var over := IsOver(g, o, p, id, cursor);
    match way
    case Out => over && c.parent.Some? && ids == Of(g, c.parent.value).downstream
    case Choice => !over && c.kind in {Categorize, Switch} && ids == o(p, id).next
    case Entry => c.kind in {Iteration, Loop} && |ids| == 1 && FirstOf(g, ids[0], id)
    case Exit => c.kind == ExitLoop && c.parent.Some? && Of(g, c.parent.value).kind == Loop
                 && ids == Of(g, c.parent.value).downstream
    case Back => !over && Ordinary(g, id) && c.downstream == []
                 && c.parent.Some? && |ids| == 1 && FirstOf(g, ids[0], c.parent.value)
    case Onward => !over && Ordinary(g, id) && (c.downstream != [] || c.parent == None) && ids == c.downstream
  }

  lemma LeadsToSuccessors(g: Canvas, o: Oracle, p: nat, id: Id, cursor: int, way: Case, ids: seq<Id>)
    requires Leads(g, o, p, id, cursor, way, ids)
    ensures Successors(g, o, p, id, cursor) == ids
  {
    var c := Of(g, id);
    hide Start, FirstOf;
    match way
    case Entry =>
      StartIsFirst(g, ids[0], id);
      assert [ids[0]] == ids;
    case Back =>
      StartIsFirst(g, ids[0], c.parent.value);
      assert [ids[0]] == ids;
    case _ =>
  }

  lemma FrontStages(g: Canvas, o: Oracle, s: State, p: nat, id: Id)
    ensures var r := FinishStage(g, o, ErrorStage(g, o, MessageStage(g, o, s, p, id), p, id), p, id);
      r.path == s.path + (if Diverted(g, o, p, id) then Of(g, id).handler.goto else []) && r.cursors == s.cursors
  {
    hide Of, Unhandled, Defers, Ready, Deferrals;
    var s1 := MessageStage(g, o, s, p, id);
    assert s1.path == s.path && s1.cursors == s.cursors;
    var s2 := ErrorStage(g, o, s1, p, id);
    assert s2.path == s.path + (if Diverted(g, o, p, id) then Of(g, id).handler.goto else []);
    assert s2.cursors == s.cursors;
  }

  lemma LastStage(g: Canvas, o: Oracle, s: State, p: nat, id: Id)
    ensures ExtendStage(g, o, s, p, id).path
         == if Diverted(g, o, p, id) then s.path
            else ExtendPath(s.path, Successors(g, o, p, id, CursorOf(s.cursors, id)))
  {
    hide Of, Successors, Ends, ExtendPath;
  }

  /** One position of any batch: a diverted component appends exactly the branch its handler names, repeats
      included; any other appends what its case says, without repeats. */
  lemma PositionGoesOn(g: Canvas, o: Oracle, s: State, p: nat, id: Id, way: Case, ids: seq<Id>)
    requires s.path != []
    requires !Diverted(g, o, p, id) ==> Leads(g, o, p, id, CursorOf(s.cursors, id), way, ids)
    ensures Post(g, o, s, p, id).path
         == s.path + if Diverted(g, o, p, id) then Of(g, id).handler.goto else NoRepeats(s.path[|s.path| - 1], ids)
  {
    hide MessageStage, ErrorStage, FinishStage, ExtendStage, Successors, Leads, ExtendPath, NoRepeats, Of, Diverted;
    FrontStages(g, o, s, p, id);
    var r := FinishStage(g, o, ErrorStage(g, o, MessageStage(g, o, s, p, id), p, id), p, id);
    LastStage(g, o, r, p, id);
    if !Diverted(g, o, p, id) {
      assert s.path + [] == s.path;
      LeadsToSuccessors(g, o, p, id, CursorOf(s.cursors, id), way, ids);
      ExtendSkipsRepeats(s.path, ids);
    }
  }

  // ---------- What a batch drops ----------

  /** The dependency test of the source, for an entry behind `done`. */
  predicate Waits(g: Canvas, done: seq<Id>, id: Id) {
    && Of(g, id).kind !in {Begin, UserFillUp}
    && (exists r <- Of(g, id).refs :: r !in done)
    && !NamedFillUp((done + [id])[0])
  }

  lemma WaitsIsBlocked(g: Canvas, done: seq<Id>, id: Id)
    ensures Waits(g, done, id) <==> Blocked(g, done, id)
  {
    hide NamedFillUp;
    assert (done + [id])[0] == if done == [] then id else done[0];
    assert Of(g, id).refs <= Members(done) <==> forall r <- Of(g, id).refs :: r in done;
  }

  lemma {:induction false} KeptOfParts(g: Canvas, done: seq<Id>, a: seq<Id>, b: seq<Id>)
    ensures Kept(g, done, a + b) == Kept(g, done, a) + Kept(g, done + Kept(g, done, a), b)
    decreases |a|
  {
    hide Blocked;
    if a == [] {
      assert a + b == b && done + [] == done;
    } else {
      var id, rest := a[0], a[1..];
      assert (a + b)[0] == id && (a + b)[1..] == rest + b;
      if Blocked(g, done, id) {
        KeptOfParts(g, done, rest, b);
      } else {
        KeptOfParts(g, done + [id], rest, b);
        var kept := Kept(g, done + [id], rest);
        assert done + [id] + kept == done + ([id] + kept);
        assert [id] + (kept + Kept(g, done + ([id] + kept), b)) == ([id] + kept) + Kept(g, done + ([id] + kept), b);
      }
    }
  }

  /** An entry of a batch is dropped exactly if it waits for a component that is neither executed nor kept in front
      of it in the batch. */
  lemma DroppedExactly(g: Canvas, done: seq<Id>, before: seq<Id>, id: Id)
    ensures var kept := Kept(g, done, before);
      Kept(g, done, before + [id]) == kept + if Waits(g, done + kept, id) then [] else [id]
  {
    var kept := Kept(g, done, before);
    KeptOfParts(g, done, before, [id]);
    WaitsIsBlocked(g, done + kept, id);
    assert [id][1..] == [];
    hide Blocked, Waits;
    assert Kept(g, done + kept, [id])
        == if Blocked(g, done + kept, id) then [] else [id] + Kept(g, done + kept + [id], []);
  }

  // ---------- A turn of one component ----------

  /** A single pending component that does not wait and did not fail: the path grows by it and by what its case says. */
  lemma SingleGoesOn(g: Canvas, o: Oracle, s: State, done: seq<Id>, id: Id, way: Case, ids: seq<Id>)
    requires At(s, done, id) && !Waits(g, done, id) && !o(|done|, id).errored
    requires Leads(g, o, |done|, id, CursorOf(InvokeOne(g, o, s.cursors, id, |done|), id), way, ids)
    requires Differing(id, ids) && forall d <- ids :: Of(g, d).kind != UserFillUp
    ensures var r := Step(g, o, s);
      && r.status == Running && r.path == done + [id] + ids && r.idx == |done| + 1 && r.launched == s.launched + [id]
  {
    var p := |done|;
    var c := CursorOf(InvokeOne(g, o, s.cursors, id, p), id);
    WaitsIsBlocked(g, done, id);
    LeadsToSuccessors(g, o, p, id, c, way, ids);
    hide Blocked, Waits, Leads, Step, Successors, InvokeOne, Of, Ends;
    SingleStep(g, o, s, done, id);
    CanvasLoops.ExtendsPlainly(done + [id], ids);
    var path := done + [id] + ids;
    assert path[p + 1..] == ids;
    AreNoForms(g, ids);
    hide ExtendPath;
  }

  lemma {:induction false} AreNoForms(g: Canvas, ids: seq<Id>)
    requires forall d <- ids :: Of(g, d).kind != UserFillUp
    ensures NoForms(g, ids)
    decreases |ids|
  {
    if ids != [] {
      AreNoForms(g, ids[1..]);
    }
  }

  /** A Categorize or a Switch appends exactly what it chose, whatever else it links to. */
  lemma ChoiceGoesToNext(g: Canvas, o: Oracle, s: State, done: seq<Id>, id: Id)
    requires At(s, done, id) && !Waits(g, done, id) && !o(|done|, id).errored && Of(g, id).kind in {Categorize, Switch}
    requires Differing(id, o(|done|, id).next) && forall d <- o(|done|, id).next :: Of(g, d).kind != UserFillUp
    ensures Step(g, o, s).path == done + [id] + o(|done|, id).next
  {
    hide Step, Waits;
    SingleGoesOn(g, o, s, done, id, Choice, o(|done|, id).next);
  }

  /** Leaving a loop from inside goes on where the loop links to. */
  lemma ExitGoesBehindTheLoop(g: Canvas, o: Oracle, s: State, done: seq<Id>, id: Id, owner: Id)
    requires At(s, done, id) && !Waits(g, done, id) && !o(|done|, id).errored
    requires Of(g, id).kind == ExitLoop && Of(g, id).parent == Some(owner) && Of(g, owner).kind == Loop
    requires Differing(id, Of(g, owner).downstream)
    requires forall d <- Of(g, owner).downstream :: Of(g, d).kind != UserFillUp
    ensures Step(g, o, s).path == done + [id] + Of(g, owner).downstream
  {
    hide Step, Waits;
    SingleGoesOn(g, o, s, done, id, Exit, Of(g, owner).downstream);
  }

  /** A diverted component appends its handler's branch as it is and nothing it links to. */
  lemma DivertedGoesToHandler(g: Canvas, o: Oracle, s: State, done: seq<Id>, id: Id)
    requires At(s, done, id) && !Waits(g, done, id) && Diverted(g, o, |done|, id)
    requires forall d <- Of(g, id).handler.goto :: Of(g, d).kind != UserFillUp
    ensures var r := Step(g, o, s);
      r.status == Running && r.path == done + [id] + Of(g, id).handler.goto && !r.error
  {
    var p, goto := |done|, Of(g, id).handler.goto;
    WaitsIsBlocked(g, done, id);
    hide Blocked, Waits, InvokeOne, Of, Starts, Forms;
    assert s.path[..s.idx] == done && s.path[s.idx..] == [id];
    assert Kept(g, done, [id]) == [id] + Kept(g, done + [id], []) == [id];
    var s1 := Launch(g, o, s, [id]);
    assert s1.path == done + [id] && !s1.error;
    DivertedPost(g, o, s1, p, id);
    var end := Post(g, o, s1, p, id);
    hide Post;
    assert PostAll(g, o, s1, p, [id]) == PostAll(g, o, end, p + 1, []) == end;
    hide PostAll, Launch, Kept, Invoke;
    AreNoForms(g, goto);
    assert end.path[p + 1..] == goto;
  }

  lemma DivertedPost(g: Canvas, o: Oracle, s: State, p: nat, id: Id)
    requires Diverted(g, o, p, id) && s.path != []
    ensures var r := Post(g, o, s, p, id);
      r.path == s.path + Of(g, id).handler.goto && r.error == s.error && r.status == s.status && r.idx == s.idx
  {
    PositionGoesOn(g, o, s, p, id, Onward, []);
    PostFrame(g, o, s, p, id);
    hide Post;
  }

  // ---------- The cursor of an item ----------

  /** Where a turn leaves an item's cursor: at -1 if the item has ended or the loop's conditions hold, one further if it
      goes on, and where it was if the item saw the cancellation flag. */
  function CursorAfter(g: Canvas, owner: Id, kind: Kind, x: Outcome, c: int): int {
    if kind == LoopItem then
      if x.condsHold then -1
      else if x.canceled then c
      else if c < Of(g, owner).maxCount then c + 1
      else -1
    else if x.canceled then c
    else match x.items
      case Some(n) => if n != 0 && c < n then c + 1 else -1
      case None => -1
  }

  lemma OneItemMoves(g: Canvas, o: Oracle, cursors: map<Id, int>, p: nat, id: Id, owner: Id)
    requires Of(g, id).kind in {IterationItem, LoopItem} && Of(g, id).parent == Some(owner)
    requires CursorOf(cursors, id) >= -1
    ensures var c := InvokeOne(g, o, cursors, id, p);
      var r := if Ends(g, o, p, id, CursorOf(c, id)) then c[id := -1] else c;
      CursorsMoved(cursors, r, id, CursorAfter(g, owner, Of(g, id).kind, o(p, id), CursorOf(cursors, id)))
  {
  }

  /** The cursor of `id` is `c` now, and every other one is where it was. */
  ghost predicate CursorsMoved(was: map<Id, int>, now: map<Id, int>, id: Id, c: int) {
    CursorOf(now, id) == c && forall k: Id :: k != id ==> CursorOf(now, k) == CursorOf(was, k)
  }

  /** A turn that launches an item alone moves that item's cursor as above, and no other. */
  lemma ItemTurn(g: Canvas, o: Oracle, s: State, done: seq<Id>, id: Id, owner: Id)
    requires At(s, done, id) && !Waits(g, done, id) && !o(|done|, id).errored
    requires Of(g, id).kind in {IterationItem, LoopItem} && Of(g, id).parent == Some(owner)
    requires CursorOf(s.cursors, id) >= -1
    ensures CursorsMoved(s.cursors, Step(g, o, s).cursors, id,
                         CursorAfter(g, owner, Of(g, id).kind, o(|done|, id), CursorOf(s.cursors, id)))
  {
    WaitsIsBlocked(g, done, id);
    OneItemMoves(g, o, s.cursors, |done|, id, owner);
    hide Blocked, Waits, Step, Successors, InvokeOne, Of, Ends, CursorsMoved, CursorAfter, ExtendPath;
    SingleStep(g, o, s, done, id);
  }

  /** A turn that launches any other component alone moves no cursor. */
  lemma OtherTurn(g: Canvas, o: Oracle, s: State, done: seq<Id>, id: Id)
    requires At(s, done, id) && !Waits(g, done, id) && !o(|done|, id).errored
    requires Of(g, id).kind !in {IterationItem, LoopItem}
    ensures Step(g, o, s).cursors == s.cursors
  {
    WaitsIsBlocked(g, done, id);
    assert InvokeOne(g, o, s.cursors, id, |done|) == s.cursors;
    assert !Ends(g, o, |done|, id, CursorOf(s.cursors, id));
    hide Blocked, Waits, Step, Successors, InvokeOne, Of, Ends, ExtendPath;
    SingleStep(g, o, s, done, id);
  }
}
