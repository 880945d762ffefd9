/** Termination with containers: a canvas in which every component goes on to at most one other, whose containers are
    not nested and whose other edges are acyclic, stops within a bound made of ranks, rounds and body lengths. */
module CanvasStops {
  import opened Common
  import opened CanvasModel
  import CanvasSafety
  import CanvasTermination
  import Cursor

  /** Ranks of the components outside bodies, the places of body components on their way to the end of the body, the
      most rounds a container makes, and the longest way through a body. */
  datatype Measure = Measure(rank: Id -> nat, place: Id -> nat, rounds: nat, width: nat)

  /** The most turns one component outside bodies takes, with its whole container if it is one. */
  function Cost(m: Measure): nat {
    (m.rounds + 2) * (m.width + 1) + 2
  }

  /** The component stands outside every container and ranks below `bound`. */
  ghost predicate Outside(g: Canvas, m: Measure, id: Id, bound: nat) {
    Of(g, id).parent == None && !IsItem(Of(g, id).kind) && m.rank(id) < bound
  }

  /** The component is in the body of `owner`, and its place is below `bound`. */
  ghost predicate Inside(g: Canvas, m: Measure, id: Id, owner: Id, bound: nat) {
    && Of(g, id).parent == Some(owner) && !IsItem(Of(g, id).kind) && !IsContainer(Of(g, id).kind)
    && m.place(id) < bound
  }

  /** What a component outside bodies links to, or chooses. */
  ghost predicate LeadsDown(g: Canvas, m: Measure, ids: seq<Id>, bound: nat) {
    |ids| <= 1 && forall d <- ids :: Outside(g, m, d, bound)
  }

  ghost predicate LeadsOn(g: Canvas, m: Measure, ids: seq<Id>, owner: Id, bound: nat) {
    |ids| <= 1 && forall d <- ids :: Inside(g, m, d, owner, bound)
  }

  /** An item's cursor moves up by one, to at most `rounds`, or to the end: it is not cancelled, and what it iterates
      over, which may change from round to round, has at most that many elements. */
  ghost predicate CountsTo(g: Canvas, o: Oracle, item: Id, rounds: nat) {
    forall p: nat, c: int :: c >= -1 ==>
      var next := StepCursor(g, o, p, item, c);
      next == -1 || (next == c + 1 && next <= rounds)
  }

  ghost predicate Orderly(g: Canvas, o: Oracle, m: Measure) {
    forall id :: OrderlyAt(g, o, m, id)
  }

  ghost predicate OrderlyAt(g: Canvas, o: Oracle, m: Measure, id: Id) {
    var c := Of(g, id);
    && !HasGoto(c.handler)
    && match c.parent
       case None =>
         && !IsItem(c.kind) && c.kind != ExitLoop
         && LeadsDown(g, m, c.downstream, m.rank(id))
         && (c.kind == Categorize || c.kind == Switch ==> forall p: nat :: LeadsDown(g, m, o(p, id).next, m.rank(id)))
         && (IsContainer(c.kind) ==> Start(g, id).Some?)
       case Some(owner) =>
         && IsContainer(Of(g, owner).kind) && Of(g, owner).parent == None && Start(g, owner).Some?
         && !IsContainer(c.kind)
         && (IsItem(c.kind) ==> CountsTo(g, o, id, m.rounds) && LeadsOn(g, m, c.downstream, owner, m.width))
         && (!IsItem(c.kind) ==>
               && m.place(id) < m.width
               && LeadsOn(g, m, c.downstream, owner, m.place(id))
               && (c.kind == Categorize || c.kind == Switch
                 ==> forall p: nat :: LeadsOn(g, m, o(p, id).next, owner, m.place(id))))
  }

  // ---------- How many turns are left ----------

  /** The item of the container a component of a body belongs to. */
  function ItemOf(g: Canvas, id: Id): Id {
    Start(g, Of(g, id).parent.GetOr("")).GetOr("")
  }

  function RoundsLeft(m: Measure, c: int): nat {
    if c > m.rounds then 0 else if c < -1 then m.rounds + 2 else m.rounds + 1 - c
  }

  /** At most this many turns are left when `id` is the only component pending. */
  function Left(g: Canvas, m: Measure, cursors: map<Id, int>, id: Id): nat {
    var c := Of(g, id);
    if c.parent == None then m.rank(id) * Cost(m) + Cost(m)
    else
      m.rank(c.parent.value) * Cost(m)
      + (if IsItem(c.kind) then RoundsLeft(m, CursorOf(cursors, id)) * (m.width + 1) + 1
         else RoundsLeft(m, CursorOf(cursors, ItemOf(g, id))) * (m.width + 1) + m.place(id) + 2)
  }

  ghost predicate CursorsStand(g: Canvas, cursors: map<Id, int>) {
    forall id :: CursorOf(cursors, id) >= -1
  }

  /** Where the pending component may stand: outside, at the item its container starts with, or in a body. */
  ghost predicate Placed(g: Canvas, m: Measure, id: Id) {
    var c := Of(g, id);
    c.parent == None || !IsItem(c.kind) || ItemOf(g, id) == id
  }

  // ---------- One turn ----------

  /** A turn with one component pending, which has no other branch to divert to. */
  lemma SingleTurn(g: Canvas, o: Oracle, s: State)
    requires Live(s) && |s.path| == s.idx + 1 && !HasGoto(Of(g, s.path[s.idx]).handler)
    ensures var id, r := s.path[s.idx], Step(g, o, s);
      var cursors := InvokeOne(g, o, s.cursors, id, s.idx);
      var c := CursorOf(cursors, id);
      Live(r) ==>
        && r.path == ExtendPath(s.path, Successors(g, o, s.idx, id, c)) && r.idx == |s.path|
        && r.cursors == if Ends(g, o, s.idx, id, c) then cursors[id := -1] else cursors
  {
    hide Blocked, Post, Successors, ExtendPath, Forms, FormsFirst, InvokeOne, Starts, Ends, PostAll, Of, CursorOf,
      Invoke;
    var id := s.path[s.idx];
    var done := s.path[..s.idx];
    assert s.path[s.idx..] == [id] && done + [id] == s.path;
    if Blocked(g, done, id) {
      assert Kept(g, done, [id]) == [];
      NothingPosted(g, o, Launch(g, o, s, []), s.idx);
    } else {
      assert Kept(g, done, [id]) == [id] + Kept(g, done + [id], []) == [id];
      var s1 := Launch(g, o, s, [id]);
      OneInvoked(g, o, s.cursors, id, s.idx);
      OnePosted(g, o, s1, s.idx, id);
      SinglePost(g, o, s1, s.idx, id);
    }
  }

  lemma NothingPosted(g: Canvas, o: Oracle, s: State, i: nat)
    ensures PostAll(g, o, s, i, []) == s
  {
  }

  lemma OnePosted(g: Canvas, o: Oracle, s: State, i: nat, id: Id)
    ensures PostAll(g, o, s, i, [id]) == Post(g, o, s, i, id)
  {
    hide Post;
    assert [id][1..] == [];
    NothingPosted(g, o, Post(g, o, s, i, id), i + 1);
  }

  lemma OneInvoked(g: Canvas, o: Oracle, cursors: map<Id, int>, id: Id, p: nat)
    ensures Invoke(g, o, cursors, [id], p) == InvokeOne(g, o, cursors, id, p)
  {
    hide InvokeOne;
    assert [id][1..] == [];
    assert Invoke(g, o, InvokeOne(g, o, cursors, id, p), [], p + 1) == InvokeOne(g, o, cursors, id, p);
  }

  lemma SinglePost(g: Canvas, o: Oracle, s: State, i: nat, id: Id)
    requires !HasGoto(Of(g, id).handler)
    ensures var r, c := Post(g, o, s, i, id), CursorOf(s.cursors, id);
      && r.path == ExtendPath(s.path, Successors(g, o, i, id, c))
      && r.cursors == (if Ends(g, o, i, id, c) then s.cursors[id := -1] else s.cursors)
  {
    hide Successors, Ready, Deferrals, Defers, Unhandled, Ends, ExtendPath, Of;
    var s1 := MessageStage(g, o, s, i, id);
    var s2 := ErrorStage(g, o, s1, i, id);
    var s3 := FinishStage(g, o, s2, i, id);
    assert s3.path == s.path && s3.cursors == s.cursors;
    hide MessageStage, ErrorStage, FinishStage;
  }

  // ---------- What a turn leads to ----------

  lemma AtMostOne(path: seq<Id>, ids: seq<Id>)
    requires path != [] && |ids| <= 1
    ensures var r := ExtendPath(path, ids);
      r == path || (|ids| == 1 && r == path + ids && ids[0] != path[|path| - 1])
  {
    if |ids| == 1 {
      assert ids[1..] == [];
      assert ExtendPath(AppendPath(path, ids[0]), []) == AppendPath(path, ids[0]);
      assert ids == [ids[0]];
    }
  }

  lemma StartIsItem(g: Canvas, owner: Id)
    requires Start(g, owner).Some?
    ensures var item := Start(g, owner).value;
      IsItem(Of(g, item).kind) && Of(g, item).parent == Some(owner) && ItemOf(g, item) == item
  {
    FirstIsItem(g, g.order, owner);
    hide FirstItem;
  }

  lemma {:induction false} FirstIsItem(g: Canvas, ids: seq<Id>, owner: Id)
    ensures FirstItem(g, ids, owner).Some? ==> IsItemOf(g, owner, FirstItem(g, ids, owner).value)
    decreases |ids|
  {
    if ids != [] && !IsItemOf(g, owner, ids[0]) {
      FirstIsItem(g, ids[1..], owner);
    }
  }

  lemma RanksDown(m: Measure, a: nat, b: nat)
    requires a < b
    ensures a * Cost(m) + Cost(m) <= b * Cost(m)
  {
    assert (a + 1) * Cost(m) <= b * Cost(m) by { Grows(a + 1, b, Cost(m)); }
    assert (a + 1) * Cost(m) == a * Cost(m) + Cost(m);
  }

  lemma Grows(a: nat, b: nat, n: nat)
    requires a <= b
    ensures a * n <= b * n
  {
    assert b * n == a * n + (b - a) * n;
  }

  /** What follows leaves fewer turns: `cursors` are those after the turn at `id`, `before` those it began with. */
  ghost predicate Fewer(g: Canvas, m: Measure, before: map<Id, int>, id: Id, cursors: map<Id, int>, next: Id) {
    Placed(g, m, next) && Left(g, m, cursors, next) < Left(g, m, before, id)
  }

  /** Outside bodies: down in rank, or into the container. */
  lemma OutsideLeadsOn(g: Canvas, o: Oracle, m: Measure, cursors: map<Id, int>, p: nat, id: Id, d: Id)
    requires OrderlyAt(g, o, m, id) && Of(g, id).parent == None && CursorsStand(g, cursors)
    requires d in Successors(g, o, p, id, CursorOf(cursors, id))
    ensures |Successors(g, o, p, id, CursorOf(cursors, id))| == 1 && Fewer(g, m, cursors, id, cursors, d)
  {
    hide Start, CursorOf;
    var c := Of(g, id);
    if IsContainer(c.kind) {
      StartIsItem(g, id);
      EnoughRounds(m, CursorOf(cursors, d));
      hide Cost;
    } else {
      assert Outside(g, m, d, m.rank(id));
      RanksDown(m, m.rank(d), m.rank(id));
      hide Cost;
    }
  }

  lemma EnoughRounds(m: Measure, c: int)
    requires c >= -1
    ensures RoundsLeft(m, c) * (m.width + 1) + 1 < Cost(m)
  {
    Grows(RoundsLeft(m, c), m.rounds + 2, m.width + 1);
  }

  /** Out of a container: behind its end. */
  lemma EndLeadsOut(
      g: Canvas, o: Oracle, m: Measure, before: map<Id, int>, cursors: map<Id, int>, id: Id, owner: Id, d: Id)
    requires OrderlyAt(g, o, m, owner) && Of(g, owner).parent == None && Of(g, id).parent == Some(owner)
    requires d in Of(g, owner).downstream
    ensures |Of(g, owner).downstream| == 1 && Fewer(g, m, before, id, cursors, d)
  {
    hide Start, CursorOf, RoundsLeft;
    assert Outside(g, m, d, m.rank(owner));
    RanksDown(m, m.rank(d), m.rank(owner));
    hide Cost;
  }

  /** From an item that goes on into its body. */
  lemma ItemLeadsOn(g: Canvas, o: Oracle, m: Measure, before: map<Id, int>, p: nat, id: Id, d: Id)
    requires OrderlyAt(g, o, m, id) && IsItem(Of(g, id).kind) && Of(g, id).parent.Some? && CursorsStand(g, before)
    requires Placed(g, m, id) && Of(g, id).downstream != []
    requires var cursors := InvokeOne(g, o, before, id, p);
      !Ends(g, o, p, id, CursorOf(cursors, id)) && d in Successors(g, o, p, id, CursorOf(cursors, id))
    ensures var cursors := InvokeOne(g, o, before, id, p);
      |Successors(g, o, p, id, CursorOf(cursors, id))| == 1 && Fewer(g, m, before, id, cursors, d)
  {
    var owner, cursors := Of(g, id).parent.value, InvokeOne(g, o, before, id, p);
    var c, next := CursorOf(before, id), CursorOf(cursors, id);
    assert next == StepCursor(g, o, p, id, c);
    hide StepCursor, Start, Ends, InvokeOne;
    assert next != -1 ==> next == c + 1 && next <= m.rounds;
    assert next != -1 by { NotAtEnd(g, o, p, id, next); }
    assert Inside(g, m, d, owner, m.width);
    assert ItemOf(g, d) == ItemOf(g, id) == id;
    OneRoundLess(m, c);
    hide Cost;
  }

  lemma NotAtEnd(g: Canvas, o: Oracle, p: nat, id: Id, c: int)
    requires IsItem(Of(g, id).kind) && !Ends(g, o, p, id, c)
    ensures c != -1
  {
  }

  lemma OneRoundLess(m: Measure, c: int)
    requires -1 <= c && c + 1 <= m.rounds
    ensures RoundsLeft(m, c) * (m.width + 1) == RoundsLeft(m, c + 1) * (m.width + 1) + m.width + 1
  {
    assert RoundsLeft(m, c) == RoundsLeft(m, c + 1) + 1;
    Adds(RoundsLeft(m, c + 1), m.width + 1);
  }

  lemma Adds(a: nat, n: nat)
    ensures (a + 1) * n == a * n + n
  {
  }

  /** Inside a body: on to the next place, back to the item, or out of the loop. */
  lemma BodyLeadsOn(g: Canvas, o: Oracle, m: Measure, cursors: map<Id, int>, p: nat, id: Id, d: Id)
    requires Orderly(g, o, m) && !IsItem(Of(g, id).kind) && Of(g, id).parent.Some?
    requires d in Successors(g, o, p, id, CursorOf(cursors, id))
    ensures |Successors(g, o, p, id, CursorOf(cursors, id))| == 1 && Fewer(g, m, cursors, id, cursors, d)
  {
    var c := Of(g, id);
    var owner := c.parent.value;
    assert OrderlyAt(g, o, m, id) && OrderlyAt(g, o, m, owner);
    hide Start, CursorOf, RoundsLeft, Orderly, Cost;
    if c.kind == Categorize || c.kind == Switch {
      StaysInside(g, m, cursors, id, owner, d);
    } else if c.kind == ExitLoop && Of(g, owner).kind == Loop {
      EndLeadsOut(g, o, m, cursors, cursors, id, owner, d);
    } else if c.downstream == [] {
      StartIsItem(g, owner);
      assert d == ItemOf(g, id);
    } else {
      StaysInside(g, m, cursors, id, owner, d);
    }
  }

  lemma StaysInside(g: Canvas, m: Measure, cursors: map<Id, int>, id: Id, owner: Id, d: Id)
    requires !IsItem(Of(g, id).kind) && Of(g, id).parent == Some(owner) && Inside(g, m, d, owner, m.place(id))
    ensures Fewer(g, m, cursors, id, cursors, d)
  {
    hide Start, CursorOf, RoundsLeft, Cost;
  }

  // ---------- Whole runs ----------

  /** The run is over, or one component is pending where it may stand. */
  ghost predicate OnePending(g: Canvas, m: Measure, s: State) {
    Live(s) ==> |s.path| == s.idx + 1 && Placed(g, m, s.path[s.idx]) && CursorsStand(g, s.cursors)
  }

  lemma TurnLeavesFewer(g: Canvas, o: Oracle, m: Measure, s: State)
    requires Orderly(g, o, m) && Live(s) && OnePending(g, m, s)
    ensures var r := Step(g, o, s);
      && OnePending(g, m, r)
      && (Live(r) ==> Left(g, m, r.cursors, r.path[r.idx]) < Left(g, m, s.cursors, s.path[s.idx]))
  {
    var id, p := s.path[s.idx], s.idx;
    var r := Step(g, o, s);
    var cursors := InvokeOne(g, o, s.cursors, id, p);
    var offered := Successors(g, o, p, id, CursorOf(cursors, id));
    assert OrderlyAt(g, o, m, id);
    SingleTurn(g, o, s);
    if Live(r) {
      CursorsStayUp(g, o, m, s.cursors, id, p);
      assert r.path != s.path;
      OfferedLeadsOn(g, o, m, s.cursors, p, id, s.path);
      hide Orderly, OrderlyAt, Step, Successors, InvokeOne, Ends, ExtendPath, Left, CursorOf, Of, Placed;
      AtMostOne(s.path, offered);
    }
  }

  lemma CursorsStayUp(g: Canvas, o: Oracle, m: Measure, before: map<Id, int>, id: Id, p: nat)
    requires OrderlyAt(g, o, m, id) && CursorsStand(g, before)
    ensures CursorsStand(g, InvokeOne(g, o, before, id, p)) && CursorsStand(g, InvokeOne(g, o, before, id, p)[id := -1])
  {
    hide StepCursor, Start;
    var cursors := InvokeOne(g, o, before, id, p);
    forall x ensures CursorOf(cursors, x) >= -1 {
      assert CursorOf(before, x) >= -1;
      if x == id && IsItem(Of(g, id).kind) {
        assert CursorOf(cursors, x) == StepCursor(g, o, p, id, CursorOf(before, id));
      }
    }
    var ended := cursors[id := -1];
    forall x ensures CursorOf(ended, x) >= -1 {
      assert CursorOf(cursors, x) >= -1;
    }
  }

  /** At most one component is offered, and if it is another one than `id`, fewer turns are left. */
  lemma OfferedLeadsOn(g: Canvas, o: Oracle, m: Measure, before: map<Id, int>, p: nat, id: Id, path: seq<Id>)
    requires Orderly(g, o, m) && Placed(g, m, id) && CursorsStand(g, before)
    ensures var cursors := InvokeOne(g, o, before, id, p);
      var c := CursorOf(cursors, id);
      var offered := Successors(g, o, p, id, c);
      && |offered| <= 1
      && (|offered| == 1 && offered[0] != id ==>
            Fewer(g, m, before, id, if Ends(g, o, p, id, c) then cursors[id := -1] else cursors, offered[0]))
  {
    assert OrderlyAt(g, o, m, id);
    var cursors := InvokeOne(g, o, before, id, p);
    var c := CursorOf(cursors, id);
    var offered := Successors(g, o, p, id, c);
    var parent := Of(g, id).parent;
    if offered != [] {
      var d := offered[0];
      if parent == None {
        OutsideLeadsOn(g, o, m, before, p, id, d);
      } else if !IsItem(Of(g, id).kind) {
        BodyLeadsOn(g, o, m, before, p, id, d);
      } else {
        assert OrderlyAt(g, o, m, parent.value);
        if Ends(g, o, p, id, c) {
          EndLeadsOut(g, o, m, before, cursors[id := -1], id, parent.value, d);
        } else if Of(g, id).downstream == [] {
          assert d == ItemOf(g, id) == id;
        } else {
          ItemLeadsOn(g, o, m, before, p, id, d);
        }
      }
    }
  }

  lemma {:induction false} StopsWithin(g: Canvas, o: Oracle, m: Measure, s: State, n: nat)
    requires Orderly(g, o, m) && OnePending(g, m, s)
    requires Live(s) ==> Left(g, m, s.cursors, s.path[s.idx]) <= n
    ensures !Live(Steps(g, o, s, n))
    decreases n
  {
    hide Orderly, Step, Left, Placed, CursorsStand;
    if Live(s) {
      TurnLeavesFewer(g, o, m, s);
      var r := Step(g, o, s);
      if n > 0 {
        if Live(r) {
          StopsWithin(g, o, m, r, n - 1);
        } else {
          assert Steps(g, o, r, n - 1) == r;
        }
      } else {
        LeftIsPositive(g, m, s.cursors, s.path[s.idx]);
      }
    }
  }

  lemma LeftIsPositive(g: Canvas, m: Measure, cursors: map<Id, int>, id: Id)
    ensures Left(g, m, cursors, id) > 0
  {
    assert Cost(m) > 0;
    hide RoundsLeft, CursorOf, Start;
  }

  /** The bound of a whole run that starts at a component outside bodies. */
  function Bound(m: Measure, id: Id): nat {
    (m.rank(id) + 1) * Cost(m)
  }

  lemma LeftOutside(g: Canvas, m: Measure, cursors: map<Id, int>, id: Id)
    requires Of(g, id).parent == None
    ensures Left(g, m, cursors, id) == Bound(m, id)
  {
    Adds(m.rank(id), Cost(m));
    hide Cost, RoundsLeft, CursorOf, Start;
  }

  lemma BegunStands(path: seq<Id>, cursors: map<Id, int>)
    ensures var s := Begun(path, cursors);
      Live(s) && |s.path| == s.idx + 1 && s.cursors == cursors
  {
    hide NamedFillUp;
  }

  /** Whatever the components do, a run of such a canvas takes at most (rank + 1) times the cost of one container:
      with R rounds and bodies of at most W places, (R + 2) (W + 1) + 2 turns. */
  lemma ContainersStop(g: Canvas, o: Oracle, m: Measure, path: seq<Id>, cursors: map<Id, int>)
    requires Orderly(g, o, m) && CursorsStand(g, cursors)
    requires var s0 := Begun(path, cursors); Of(g, s0.path[s0.idx]).parent == None
    ensures var s0 := Begun(path, cursors);
      !Live(Steps(g, o, s0, Bound(m, s0.path[s0.idx])))
  {
    var s0 := Begun(path, cursors);
    var id := s0.path[s0.idx];
    BegunStands(path, cursors);
    LeftOutside(g, m, cursors, id);
    assert Placed(g, m, id);
    hide Steps, Orderly, Bound, CursorsStand, Of, Left, Placed, Begun;
    StopsWithin(g, o, m, s0, Bound(m, id));
  }
}
