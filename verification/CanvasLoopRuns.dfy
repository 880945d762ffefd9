/** How many rounds an item goes on for between two of its ends, over every run and whatever its body is: the bound,
    and exactly when a batch that launches the item several times makes the scheduler miss an end. */
module CanvasLoopRuns {
  import opened Common
  import opened CanvasModel
  import CanvasSafety
  import Cursor

  // ---------- Launches of one item ----------

  /** The item counts up to `limit`: a loop does, and an iteration over a fixed list that is not empty. */
  ghost predicate Limited(g: Canvas, o: Oracle, item: Id, limit: int) {
    && IsItem(Of(g, item).kind)
    && forall p: nat, c: int :: c >= -1 ==> StepCursor(g, o, p, item, c) == Cursor.LoopStep(c, limit, false)
  }

  lemma LoopIsLimited(g: Canvas, o: Oracle, owner: Id, item: Id)
    requires Of(g, item).kind == LoopItem && Of(g, item).parent == Some(owner)
    requires forall p: nat :: !o(p, item).canceled
    ensures Limited(g, o, item, Of(g, owner).maxCount)
  {
  }

  lemma IterationIsLimited(g: Canvas, o: Oracle, item: Id, n: nat)
    requires Of(g, item).kind == IterationItem && n > 0
    requires forall p: nat :: o(p, item).items == Some(n) && !o(p, item).canceled
    ensures Limited(g, o, item, n)
  {
  }

  /** The cursor after `k` launches from `c` on. */
  function Launches(c: int, limit: int, k: nat): int
    decreases k
  {
    if k == 0 then c else Launches(Cursor.LoopStep(c, limit, false), limit, k - 1)
  }

  lemma WrapsAround(n: int, x: int)
    requires n > 0
    ensures (n + x) % n == x % n
  {
    var q, r := x / n, x % n;
    Distributes(q, 1, n);
    DivisionIsUnique(n + x, n, q + 1, r);
  }

  lemma {:induction false} AtLeastOnce(d: nat, n: nat)
    requires d > 0
    ensures d * n >= n
    decreases d
  {
    if d > 1 {
      AtLeastOnce(d - 1, n);
      Distributes(d - 1, 1, n);
    }
  }

  lemma Distributes(a: int, b: int, n: int)
    ensures (a + b) * n == a * n + b * n
  {
  }

  lemma Negated(d: int, n: int)
    ensures (-d) * n == -(d * n)
  {
  }

  lemma OnlyZeroFits(d: int, n: int, e: int)
    requires n > 0 && d * n == e && -n < e < n
    ensures d == 0
  {
    if d > 0 {
      AtLeastOnce(d, n);
    } else if d < 0 {
      AtLeastOnce(-d, n);
      Negated(d, n);
    }
  }

  lemma DivisionIsUnique(x: int, n: int, q: int, r: int)
    requires n > 0 && 0 <= r < n && x == q * n + r
    ensures x % n == r
  {
    var p, s := x / n, x % n;
    assert x == p * n + s;
    Distributes(p - q, q, n);
    OnlyZeroFits(p - q, n, r - s);
  }

  /** The cursor runs around through -1, 0, ..., limit. */
  lemma {:induction false} LaunchesAreModular(c: int, limit: nat, k: nat)
    requires -1 <= c <= limit
    ensures Launches(c, limit, k) == (c + 1 + k) % (limit + 2) - 1
    decreases k
  {
    var n := limit + 2;
    if k == 0 {
      DivisionIsUnique(c + 1, n, 0, c + 1);
    } else if c == limit {
      LaunchesAreModular(-1, limit, k - 1);
      WrapsAround(n, k - 1);
      assert c + 1 + k == n + (k - 1);
    } else {
      LaunchesAreModular(c + 1, limit, k - 1);
      assert c + 2 + (k - 1) == c + 1 + k;
    }
  }

  /** Some of the launches left the cursor at its end. */
  ghost predicate PassesEnd(c: int, limit: int, k: nat) {
    exists j: nat :: 0 < j <= k && Launches(c, limit, j) == -1
  }

  lemma {:induction false} CountsUp(c: int, limit: nat, j: nat)
    requires -1 <= c && c + j <= limit
    ensures Launches(c, limit, j) == c + j
    decreases j
  {
    if j > 0 {
      CountsUp(c + 1, limit, j - 1);
    }
  }

  lemma {:induction false} EndIsPassed(c: int, limit: nat, k: nat)
    requires -1 <= c <= limit
    ensures PassesEnd(c, limit, k) <==> c + k > limit
  {
    if c + k > limit {
      var j := limit - c + 1;
      LaunchesAreModular(c, limit, j);
      assert c + 1 + j == 1 * (limit + 2) + 0;
      DivisionIsUnique(c + 1 + j, limit + 2, 1, 0);
      assert 0 < j <= k && Launches(c, limit, j) == -1;
    } else {
      forall j: nat | 0 < j <= k ensures Launches(c, limit, j) != -1 {
        CountsUp(c, limit, j);
      }
    }
  }

  // ---------- A batch ----------

  /** How often the item is in the batch. */
  function Times(batch: seq<Id>, item: Id): nat {
    if batch == [] then 0 else (if batch[0] == item then 1 else 0) + Times(batch[1..], item)
  }

  /** The conditions of a loop hold at some position that launches the item. */
  ghost predicate ConditionsHold(g: Canvas, o: Oracle, p: nat, batch: seq<Id>, item: Id) {
    Of(g, item).kind == LoopItem && exists k :: 0 <= k < |batch| && batch[k] == item && o(p + k, item).condsHold
  }

  /** The item ends at some position of the batch, as it is post-processed. */
  predicate EndSeen(g: Canvas, o: Oracle, s: State, i: nat, batch: seq<Id>, item: Id)
    decreases |batch|
  {
    batch != []
    && ((batch[0] == item && Ends(g, o, i, item, CursorOf(s.cursors, item)))
        || EndSeen(g, o, Post(g, o, s, i, batch[0]), i + 1, batch[1..], item))
  }

  lemma {:induction false} InvokeLaunches(
      g: Canvas, o: Oracle, cursors: map<Id, int>, batch: seq<Id>, p: nat, item: Id, limit: int)
    requires Limited(g, o, item, limit) && CursorOf(cursors, item) >= -1
    ensures CursorOf(Invoke(g, o, cursors, batch, p), item)
        == Launches(CursorOf(cursors, item), limit, Times(batch, item))
    decreases |batch|
  {
    hide Limited, StepCursor, Of;
    if batch != [] {
      var next := InvokeOne(g, o, cursors, batch[0], p);
      if batch[0] == item {
        OneLaunch(g, o, cursors, p, item, limit);
      } else {
        assert CursorOf(next, item) == CursorOf(cursors, item);
      }
      hide InvokeOne, CursorOf;
      InvokeLaunches(g, o, next, batch[1..], p + 1, item, limit);
    }
  }

  lemma OneLaunch(g: Canvas, o: Oracle, cursors: map<Id, int>, p: nat, item: Id, limit: int)
    requires Limited(g, o, item, limit) && CursorOf(cursors, item) >= -1
    ensures var c := CursorOf(InvokeOne(g, o, cursors, item, p), item);
      c == Cursor.LoopStep(CursorOf(cursors, item), limit, false) && c >= -1
  {
    hide StepCursor, Of;
  }

  /** Post-processing a position changes the item's cursor only at the item's own end. */
  lemma PostCursor(g: Canvas, o: Oracle, s: State, i: nat, id: Id, item: Id)
    ensures CursorOf(Post(g, o, s, i, id).cursors, item)
         == if id == item && Ends(g, o, i, id, CursorOf(s.cursors, id)) then -1 else CursorOf(s.cursors, item)
  {
    hide Successors, Ready, Deferrals, Defers, Unhandled, Ends, HasGoto, Diverts, ExtendPath, Of;
    var s1 := MessageStage(g, o, s, i, id);
    var s2 := ErrorStage(g, o, s1, i, id);
    var s3 := FinishStage(g, o, s2, i, id);
    assert s3.cursors == s.cursors;
    var r := ExtendStage(g, o, s3, i, id);
    assert Post(g, o, s, i, id) == r;
    hide MessageStage, ErrorStage, FinishStage, Post;
    assert r.cursors == if Ends(g, o, i, id, CursorOf(s.cursors, id)) then s.cursors[id := -1] else s.cursors;
  }

  /** The scheduler sees an end in a batch exactly if the item is launched there, and its cursor is at the end when
      all launches are over or the conditions hold at one of them; then the cursor is at the end afterwards. */
  lemma {:induction false} EndIsSeenIff(g: Canvas, o: Oracle, s: State, i: nat, batch: seq<Id>, item: Id)
    requires IsItem(Of(g, item).kind)
    ensures EndSeen(g, o, s, i, batch, item)
       <==> Times(batch, item) > 0 && (CursorOf(s.cursors, item) == -1 || ConditionsHold(g, o, i, batch, item))
    ensures CursorOf(PostAll(g, o, s, i, batch).cursors, item)
         == if EndSeen(g, o, s, i, batch, item) then -1 else CursorOf(s.cursors, item)
    decreases |batch|
  {
    hide Post, CursorOf, ConditionsHold, Times, EndSeen, PostAll, Of, IsItem;
    if batch == [] {
      NothingIsSeen(g, o, s, i, item);
    } else {
      var s1 := Post(g, o, s, i, batch[0]);
      PostCursor(g, o, s, i, batch[0], item);
      EndIsSeenIff(g, o, s1, i + 1, batch[1..], item);
      ConditionsLater(g, o, i, batch, item);
      ConditionsNeedALaunch(g, o, i + 1, batch[1..], item);
      BatchUnfolds(g, o, s, i, batch, item);
    }
  }

  lemma {:induction false} InBatch(batch: seq<Id>, item: Id)
    ensures item in batch <==> Times(batch, item) > 0
    decreases |batch|
  {
    if batch != [] {
      InBatch(batch[1..], item);
      assert batch == [batch[0]] + batch[1..];
    }
  }

  lemma ConditionsNeedALaunch(g: Canvas, o: Oracle, p: nat, batch: seq<Id>, item: Id)
    ensures ConditionsHold(g, o, p, batch, item) ==> Times(batch, item) > 0
  {
    InBatch(batch, item);
    hide Times;
  }

  lemma NothingIsSeen(g: Canvas, o: Oracle, s: State, i: nat, item: Id)
    ensures !EndSeen(g, o, s, i, [], item) && Times([], item) == 0 && PostAll(g, o, s, i, []) == s
  {
  }

  lemma BatchUnfolds(g: Canvas, o: Oracle, s: State, i: nat, batch: seq<Id>, item: Id)
    requires batch != []
    ensures var s1, rest := Post(g, o, s, i, batch[0]), batch[1..];
      && (EndSeen(g, o, s, i, batch, item)
          <==> (batch[0] == item && Ends(g, o, i, item, CursorOf(s.cursors, item)))
               || EndSeen(g, o, s1, i + 1, rest, item))
      && PostAll(g, o, s, i, batch) == PostAll(g, o, s1, i + 1, rest)
      && Times(batch, item) == (if batch[0] == item then 1 else 0) + Times(rest, item)
  {
    hide Post, Ends;
  }

  lemma ConditionsLater(g: Canvas, o: Oracle, i: nat, batch: seq<Id>, item: Id)
    requires batch != []
    ensures ConditionsHold(g, o, i, batch, item)
       <==> (batch[0] == item && Of(g, item).kind == LoopItem && o(i, item).condsHold)
            || ConditionsHold(g, o, i + 1, batch[1..], item)
  {
    var rest := batch[1..];
    if k :| 0 <= k < |batch| && batch[k] == item && o(i + k, item).condsHold {
      if k > 0 {
        assert rest[k - 1] == item && o(i + 1 + (k - 1), item).condsHold;
      }
    }
    if k :| 0 <= k < |rest| && rest[k] == item && o(i + 1 + k, item).condsHold {
      assert batch[k + 1] == item && o(i + (k + 1), item).condsHold;
    }
  }

  lemma SingleLaunch(c: int, limit: nat)
    requires -1 <= c <= limit
    ensures (c + 2) % (limit + 2) == 0 <==> c == limit
  {
    if c == limit {
      DivisionIsUnique(c + 2, limit + 2, 1, 0);
    } else {
      DivisionIsUnique(c + 2, limit + 2, 0, c + 2);
    }
  }

  /** Without conditions: `k` launches of an item with cursor `c` in one batch pass its end exactly if c + k > limit,
      and the scheduler sees that end exactly if they lead the cursor to it, which is if limit + 2 divides c + 1 + k.
      */
  lemma EndIsMissedIff(g: Canvas, o: Oracle, s: State, item: Id, limit: nat)
    requires Live(s) && Limited(g, o, item, limit) && -1 <= CursorOf(s.cursors, item) <= limit
    requires var batch := Batch(g, s); Times(batch, item) > 0 && !ConditionsHold(g, o, s.idx, batch, item)
    ensures var batch, c := Batch(g, s), CursorOf(s.cursors, item);
      var k := Times(batch, item);
      && (PassesEnd(c, limit, k) <==> c + k > limit)
      && (EndSeen(g, o, Launch(g, o, s, batch), s.idx, batch, item) <==> (c + 1 + k) % (limit + 2) == 0)
      && (k == 1 ==> (PassesEnd(c, limit, k) <==> EndSeen(g, o, Launch(g, o, s, batch), s.idx, batch, item)))
  {
    hide Kept, Invoke, PassesEnd, EndSeen, ConditionsHold, Launches, Starts, Batch, Launch, Limited, CursorOf, Times;
    var batch, c := Batch(g, s), CursorOf(s.cursors, item);
    var k := Times(batch, item);
    TurnCursor(g, o, s);
    LimitedIsItem(g, o, item, limit);
    InvokeLaunches(g, o, s.cursors, batch, s.idx, item, limit);
    LaunchesAreModular(c, limit, k);
    EndIsPassed(c, limit, k);
    EndIsSeenIff(g, o, Launch(g, o, s, batch), s.idx, batch, item);
    SingleLaunch(c, limit);
  }

  // ---------- Runs ----------

  /** How often the item was launched and went on since its last end, and whether it has ended before. */
  datatype Tally = Tally(going: nat, again: bool)

  /** The tally after a batch was post-processed: an end is what the scheduler sees as one. */
  function TallyBatch(g: Canvas, o: Oracle, s: State, i: nat, batch: seq<Id>, item: Id, t: Tally): Tally
    decreases |batch|
  {
    if batch == [] then t
    else
      var next :=
        if batch[0] != item then t
        else if Ends(g, o, i, item, CursorOf(s.cursors, item)) then Tally(0, true)
        else Tally(t.going + 1, t.again);
      TallyBatch(g, o, Post(g, o, s, i, batch[0]), i + 1, batch[1..], item, next)
  }

  function TallyTurn(g: Canvas, o: Oracle, s: State, item: Id, t: Tally): Tally
    requires s.idx <= |s.path|
  {
    TallyBatch(g, o, Launch(g, o, s, Batch(g, s)), s.idx, Batch(g, s), item, t)
  }

  function TallyRun(g: Canvas, o: Oracle, s: State, n: nat, item: Id, t: Tally): Tally
    decreases n
  {
    if n == 0 || !Live(s) then t else TallyRun(g, o, Step(g, o, s), n - 1, item, TallyTurn(g, o, s, item, t))
  }

  /** No batch of the run launches the item twice. */
  predicate OneAtATime(g: Canvas, o: Oracle, s: State, n: nat, item: Id)
    decreases n
  {
    n == 0 || !Live(s) || (Times(Batch(g, s), item) <= 1 && OneAtATime(g, o, Step(g, o, s), n - 1, item))
  }

  /** The cursor is the number of rounds, one less when the item has ended before, and never beyond the limit. */
  ghost predicate Counted(limit: int, c: int, t: Tally) {
    && c == t.going - (if t.again then 1 else 0)
    && (t.going > 0 ==> c <= limit)
  }

  /** Without an end every launch of a batch counts; with one launch the end is all that matters. */
  lemma {:induction false} TallyIs(g: Canvas, o: Oracle, s: State, i: nat, batch: seq<Id>, item: Id, t: Tally)
    ensures !EndSeen(g, o, s, i, batch, item)
            ==> TallyBatch(g, o, s, i, batch, item, t) == Tally(t.going + Times(batch, item), t.again)
    ensures EndSeen(g, o, s, i, batch, item) && Times(batch, item) == 1
            ==> TallyBatch(g, o, s, i, batch, item, t) == Tally(0, true)
    ensures Times(batch, item) == 0 ==> TallyBatch(g, o, s, i, batch, item, t) == t
    decreases |batch|
  {
    hide Post, Ends, CursorOf;
    if batch != [] {
      BatchUnfolds(g, o, s, i, batch, item);
      var ends := Ends(g, o, i, item, CursorOf(s.cursors, item));
      var next := if batch[0] != item then t else if ends then Tally(0, true) else Tally(t.going + 1, t.again);
      TallyIs(g, o, Post(g, o, s, i, batch[0]), i + 1, batch[1..], item, next);
      NoneSeen(g, o, Post(g, o, s, i, batch[0]), i + 1, batch[1..], item);
    }
  }

  lemma {:induction false} NoneSeen(g: Canvas, o: Oracle, s: State, i: nat, batch: seq<Id>, item: Id)
    ensures Times(batch, item) == 0 ==> !EndSeen(g, o, s, i, batch, item)
    decreases |batch|
  {
    hide Post, Ends, CursorOf;
    if batch != [] {
      NoneSeen(g, o, Post(g, o, s, i, batch[0]), i + 1, batch[1..], item);
    }
  }

  lemma TurnCursor(g: Canvas, o: Oracle, s: State)
    requires Live(s)
    ensures Step(g, o, s).cursors == PostAll(g, o, Launch(g, o, s, Batch(g, s)), s.idx, Batch(g, s)).cursors
    ensures Launch(g, o, s, Batch(g, s)).cursors == Invoke(g, o, s.cursors, Batch(g, s), s.idx)
  {
    hide Kept, Invoke, Starts, PostAll, Forms, FormsFirst;
  }

  lemma TurnCounts(g: Canvas, o: Oracle, s: State, item: Id, limit: int, t: Tally)
    requires Live(s) && Limited(g, o, item, limit) && Times(Batch(g, s), item) <= 1
    requires Counted(limit, CursorOf(s.cursors, item), t)
    ensures Counted(limit, CursorOf(Step(g, o, s).cursors, item), TallyTurn(g, o, s, item, t))
  {
    hide Step, Batch, Launch, Limited, EndSeen, TallyBatch, Times, Invoke, PostAll, CursorOf, ConditionsHold;
    var batch := Batch(g, s);
    var s1 := Launch(g, o, s, batch);
    var c := CursorOf(s.cursors, item);
    TurnCursor(g, o, s);
    InvokeLaunches(g, o, s.cursors, batch, s.idx, item, limit);
    LimitedIsItem(g, o, item, limit);
    EndIsSeenIff(g, o, s1, s.idx, batch, item);
    TallyIs(g, o, s1, s.idx, batch, item, t);
    assert Launches(c, limit, 0) == c;
    assert Launches(c, limit, 1) == Launches(Cursor.LoopStep(c, limit, false), limit, 0)
      == Cursor.LoopStep(c, limit, false);
  }

  lemma LimitedIsItem(g: Canvas, o: Oracle, item: Id, limit: int)
    requires Limited(g, o, item, limit)
    ensures IsItem(Of(g, item).kind)
  {
    hide StepCursor;
  }

  lemma {:induction false} RunCounts(g: Canvas, o: Oracle, s: State, n: nat, item: Id, limit: int, t: Tally)
    requires Limited(g, o, item, limit) && OneAtATime(g, o, s, n, item)
    requires Counted(limit, CursorOf(s.cursors, item), t)
    ensures Counted(limit, CursorOf(Steps(g, o, s, n).cursors, item), TallyRun(g, o, s, n, item, t))
    decreases n
  {
    hide Step, Limited, Counted, CursorOf, TallyTurn, Batch, Times;
    if n > 0 && Live(s) {
      TurnCounts(g, o, s, item, limit, t);
      RunCounts(g, o, Step(g, o, s), n - 1, item, limit, TallyTurn(g, o, s, item, t));
    }
  }

  /** In every run of every canvas that launches the item at most once in a batch, from an item that is fresh or was
      left at its end: since the last end the scheduler saw, the item has gone on for at most `limit` rounds, and one
      more if it had ended before. */
  lemma LoopIsBounded(g: Canvas, o: Oracle, s: State, n: nat, item: Id, limit: int)
    requires Limited(g, o, item, limit) && OneAtATime(g, o, s, n, item)
    requires -1 <= CursorOf(s.cursors, item) <= 0
    ensures var t := TallyRun(g, o, s, n, item, Tally(0, CursorOf(s.cursors, item) == -1));
      && t.going <= (if limit < 0 then 0 else limit) + (if t.again then 1 else 0)
      && CursorOf(Steps(g, o, s, n).cursors, item) == t.going - (if t.again then 1 else 0)
  {
    hide TallyRun, Steps, Limited, CursorOf, OneAtATime;
    RunCounts(g, o, s, n, item, limit, Tally(0, CursorOf(s.cursors, item) == -1));
  }
}
