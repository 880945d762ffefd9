/** A loop of at most two rounds that goes on for four without an end: its body branches, the branches come back at
    different times, and one batch launches the item twice, so that its cursor passes the end unseen. */
module CanvasMissedEnd {
  import opened Common
  import opened CanvasModel
  import opened CanvasLoopRuns

  // ---------- Turns that only move on ----------

  /** The path after the batch was post-processed, when nothing fails and no item ends. */
  function Route(g: Canvas, o: Oracle, cursors: map<Id, int>, path: seq<Id>, i: nat, batch: seq<Id>): seq<Id>
    decreases |batch|
  {
    if batch == [] then path
    else
      Route(g, o, cursors, ExtendPath(path, Successors(g, o, i, batch[0], CursorOf(cursors, batch[0]))), i + 1,
          batch[1..])
  }

  ghost predicate NoErrors(o: Oracle) {
    forall p: nat, id :: !o(p, id).errored
  }

  ghost predicate NoEnds(g: Canvas, o: Oracle, cursors: map<Id, int>, i: nat, batch: seq<Id>) {
    forall k :: 0 <= k < |batch| ==> !Ends(g, o, i + k, batch[k], CursorOf(cursors, batch[k]))
  }

  lemma PlainPost(g: Canvas, o: Oracle, s: State, i: nat, id: Id)
    requires NoErrors(o) && !s.error && !Ends(g, o, i, id, CursorOf(s.cursors, id))
    ensures var r := Post(g, o, s, i, id);
      && r.path == ExtendPath(s.path, Successors(g, o, i, id, CursorOf(s.cursors, id)))
      && r.cursors == s.cursors && !r.error && r.idx == s.idx && r.status == s.status && r.launched == s.launched
  {
    hide Successors, Ready, Deferrals, Defers, Ends, HasGoto, ExtendPath, Of;
    var s1 := MessageStage(g, o, s, i, id);
    assert s1.path == s.path && s1.cursors == s.cursors && !s1.error;
    assert !o(i, id).errored;
    assert ErrorStage(g, o, s1, i, id) == s1;
    var s3 := FinishStage(g, o, s1, i, id);
    assert s3.path == s.path && s3.cursors == s.cursors && !s3.error;
  }

  lemma {:induction false} PlainPosts(g: Canvas, o: Oracle, s: State, i: nat, batch: seq<Id>)
    requires NoErrors(o) && !s.error && NoEnds(g, o, s.cursors, i, batch)
    ensures var r := PostAll(g, o, s, i, batch);
      && r.path == Route(g, o, s.cursors, s.path, i, batch)
      && r.cursors == s.cursors && !r.error && r.idx == s.idx && r.status == s.status && r.launched == s.launched
    decreases |batch|
  {
    hide Post, Ends, Successors, ExtendPath, NoErrors, CursorOf;
    if batch != [] {
      assert !Ends(g, o, i + 0, batch[0], CursorOf(s.cursors, batch[0]));
      PlainPost(g, o, s, i, batch[0]);
      var rest := batch[1..];
      forall k | 0 <= k < |rest| ensures !Ends(g, o, i + 1 + k, rest[k], CursorOf(s.cursors, rest[k])) {
        assert !Ends(g, o, i + (k + 1), batch[k + 1], CursorOf(s.cursors, batch[k + 1]));
      }
      PlainPosts(g, o, Post(g, o, s, i, batch[0]), i + 1, rest);
    }
  }

  ghost predicate Needless(g: Canvas, ids: seq<Id>) {
    forall id <- ids :: Of(g, id).refs == {}
  }

  lemma {:induction false} NeedlessIsKept(g: Canvas, done: seq<Id>, pending: seq<Id>)
    requires Needless(g, pending)
    ensures Kept(g, done, pending) == pending
    decreases |pending|
  {
    hide NamedFillUp;
    if pending != [] {
      assert pending[0] in pending && forall id <- pending[1..] :: id in pending;
      NeedlessIsKept(g, done + [pending[0]], pending[1..]);
    }
  }

  lemma PlainTurn(g: Canvas, o: Oracle, s: State)
    requires Live(s) && !s.error && NoErrors(o) && Needless(g, s.path[s.idx..])
    requires NoEnds(g, o, Invoke(g, o, s.cursors, s.path[s.idx..], s.idx), s.idx, s.path[s.idx..])
    requires var route := Route(g, o, Invoke(g, o, s.cursors, s.path[s.idx..], s.idx), s.path, s.idx, s.path[s.idx..]);
      Forms(g, Drop(route, |s.path|), true) == []
    ensures Batch(g, s) == s.path[s.idx..]
    ensures var cursors := Invoke(g, o, s.cursors, s.path[s.idx..], s.idx);
      var r := Step(g, o, s);
      && r.path == Route(g, o, cursors, s.path, s.idx, s.path[s.idx..]) && r.idx == |s.path|
      && r.cursors == cursors && r.status == Running && !r.error
  {
    hide Route, Invoke, Kept, Post, PostAll, Forms, Starts, NoEnds, Needless, NoErrors;
    var batch := s.path[s.idx..];
    NeedlessIsKept(g, s.path[..s.idx], batch);
    var s1 := Launch(g, o, s, batch);
    assert s1.path == s.path;
    PlainPosts(g, o, s1, s.idx, batch);
  }

  // ---------- The canvas ----------

  const BODY := Component(Kind.Plain, [], Some("L"), {}, NoHandler, 0)

  /** L with its item S, whose body branches into A, B, C and C. */
  const CANVAS := Canvas(
    ["begin", "L", "S", "A", "B", "C"],
    map["begin" := Component(Begin, ["L"], None, {}, NoHandler, 0),
        "L" := Component(Loop, [], None, {}, NoHandler, 2),
        "S" := Component(LoopItem, ["A", "C"], Some("L"), {}, NoHandler, 0),
        "A" := BODY.(downstream := ["B"]), "B" := BODY.(downstream := ["C"]), "C" := BODY])

  /** Nothing fails, nothing is cancelled, and the conditions never hold. */
  const QUIET: Oracle := (p: nat, id: Id) => Outcome(false, false, [], {}, None, false, false)

  /** Where each component leads while the loop goes on. */
  function Leads(id: Id): seq<Id> {
    if id == "begin" then ["L"]
    else if id == "L" then ["S"]
    else if id == "S" then ["A", "C"]
    else if id == "A" then ["B"]
    else if id == "B" then ["C"]
    else ["S"]
  }

  predicate Known(id: Id) {
    id == "begin" || id == "L" || id == "S" || id == "A" || id == "B" || id == "C"
  }

  lemma StartOfLoop()
    ensures Start(CANVAS, "L") == Some("S")
  {
    var ids := CANVAS.order;
    assert ids[1..][0] == "L" && ids[1..][1..][0] == "S";
    assert !IsItemOf(CANVAS, "L", "begin") && !IsItemOf(CANVAS, "L", "L") && IsItemOf(CANVAS, "L", "S");
    assert FirstItem(CANVAS, ids[1..][1..], "L") == Some("S");
    assert FirstItem(CANVAS, ids[1..], "L") == Some("S");
  }

  lemma SuccessorsLead(i: nat, id: Id, c: int)
    requires Known(id) && !Ends(CANVAS, QUIET, i, id, c)
    ensures Successors(CANVAS, QUIET, i, id, c) == Leads(id)
  {
    StartOfLoop();
    hide FirstItem, Start;
  }

  function Walk(path: seq<Id>, batch: seq<Id>): seq<Id>
    decreases |batch|
  {
    if batch == [] then path else Walk(ExtendPath(path, Leads(batch[0])), batch[1..])
  }

  lemma {:induction false} RouteIsWalk(cursors: map<Id, int>, path: seq<Id>, i: nat, batch: seq<Id>)
    requires forall id <- batch :: Known(id)
    requires NoEnds(CANVAS, QUIET, cursors, i, batch)
    ensures Route(CANVAS, QUIET, cursors, path, i, batch) == Walk(path, batch)
    decreases |batch|
  {
    hide Ends, Successors, ExtendPath, Leads, Known, CursorOf;
    if batch != [] {
      var rest := batch[1..];
      assert batch[0] in batch && forall id <- rest :: id in batch;
      assert !Ends(CANVAS, QUIET, i + 0, batch[0], CursorOf(cursors, batch[0]));
      SuccessorsLead(i, batch[0], CursorOf(cursors, batch[0]));
      forall k | 0 <= k < |rest| ensures !Ends(CANVAS, QUIET, i + 1 + k, rest[k], CursorOf(cursors, rest[k])) {
        assert !Ends(CANVAS, QUIET, i + (k + 1), batch[k + 1], CursorOf(cursors, batch[k + 1]));
      }
      RouteIsWalk(cursors, ExtendPath(path, Leads(batch[0])), i + 1, rest);
    }
  }

  // ---------- Its run ----------

  lemma ItemIsLimited()
    ensures Limited(CANVAS, QUIET, "S", 2)
  {
    LoopIsLimited(CANVAS, QUIET, "L", "S");
  }

  lemma OnlyTheItemEnds(cursors: map<Id, int>, i: nat, batch: seq<Id>)
    requires (forall id <- batch :: Known(id)) && CursorOf(cursors, "S") != -1
    ensures NoEnds(CANVAS, QUIET, cursors, i, batch)
  {
    forall k | 0 <= k < |batch| ensures !Ends(CANVAS, QUIET, i + k, batch[k], CursorOf(cursors, batch[k])) {
      assert batch[k] in batch && Known(batch[k]);
      assert batch[k] != "S" ==> !IsItem(Of(CANVAS, batch[k]).kind);
    }
  }

  /** The run stands before `pending`, behind `done`, with the item's cursor at `c`. */
  ghost predicate Stands(s: State, done: seq<Id>, pending: seq<Id>, c: int) {
    && s.status == Running && !s.error && s.path == done + pending && s.idx == |done|
    && CursorOf(s.cursors, "S") == c
  }

  lemma KnownIsPlain(ids: seq<Id>)
    requires forall id <- ids :: Known(id)
    ensures Needless(CANVAS, ids) && Forms(CANVAS, ids, true) == []
    decreases |ids|
  {
    if ids != [] {
      assert ids[0] in ids && forall id <- ids[1..] :: id in ids;
      KnownIsPlain(ids[1..]);
      assert Of(CANVAS, ids[0]).refs == {} && !IsForm(CANVAS, ids[0]);
      assert ids == [ids[0]] + ids[1..];
    }
  }

  /** A turn that is no end: the batch walks on and its launches of the item are counted. */
  lemma Turn(s: State, done: seq<Id>, pending: seq<Id>, next: seq<Id>, c: int, t: Tally)
    requires Stands(s, done, pending, c) && c >= -1 && pending != []
    requires (forall id <- pending :: Known(id)) && (forall id <- next :: Known(id))
    requires Walk(done + pending, pending) == done + pending + next
    requires Launches(c, 2, Times(pending, "S")) != -1
    ensures Live(s) && Stands(Step(CANVAS, QUIET, s), done + pending, next, Launches(c, 2, Times(pending, "S")))
    ensures TallyTurn(CANVAS, QUIET, s, "S", t) == Tally(t.going + Times(pending, "S"), t.again)
  {
    hide Walk, Known, Route, NoEnds, Needless, NoErrors, Limited, Launches, Times, CursorOf, Invoke, EndSeen, Forms,
      Step, Batch, TallyBatch, ConditionsHold;
    var cursors := Invoke(CANVAS, QUIET, s.cursors, pending, s.idx);
    assert s.path[s.idx..] == pending;
    ItemIsLimited();
    InvokeLaunches(CANVAS, QUIET, s.cursors, pending, s.idx, "S", 2);
    OnlyTheItemEnds(cursors, s.idx, pending);
    RouteIsWalk(cursors, s.path, s.idx, pending);
    assert Drop(s.path + next, |s.path|) == next;
    KnownIsPlain(pending);
    KnownIsPlain(next);
    QuietHasNoErrors();
    PlainTurn(CANVAS, QUIET, s);
    var s1 := Launch(CANVAS, QUIET, s, pending);
    TurnCursor(CANVAS, QUIET, s);
    LimitedIsItem(CANVAS, QUIET, "S", 2);
    NoConditions(s.idx, pending);
    EndIsSeenIff(CANVAS, QUIET, s1, s.idx, pending, "S");
    TallyIs(CANVAS, QUIET, s1, s.idx, pending, "S", t);
  }

  lemma QuietHasNoErrors()
    ensures NoErrors(QUIET)
  {
  }

  lemma NoConditions(p: nat, batch: seq<Id>)
    ensures !ConditionsHold(CANVAS, QUIET, p, batch, "S")
  {
  }

  lemma Extends1(path: seq<Id>, a: Id)
    requires path != [] && path[|path| - 1] != a
    ensures ExtendPath(path, [a]) == path + [a]
  {
    assert ExtendPath(path + [a], []) == path + [a];
  }

  lemma Suppressed(path: seq<Id>, a: Id)
    requires path != [] && path[|path| - 1] == a
    ensures ExtendPath(path, [a]) == path
  {
    assert ExtendPath(path, []) == path;
  }

  lemma Extends2(path: seq<Id>, a: Id, b: Id)
    requires path != [] && path[|path| - 1] != a && a != b
    ensures ExtendPath(path, [a, b]) == path + [a, b]
  {
    var p := path + [a];
    assert [a, b][0] == a && [a, b][1..] == [b];
    assert AppendPath(path, a) == p && p[|p| - 1] == a;
    assert ExtendPath(path, [a, b]) == ExtendPath(p, [b]);
    hide ExtendPath, AppendPath;
    Extends1(p, b);
    assert p + [b] == path + [a, b];
  }

  /** One component walks on. */
  lemma Walk1(path: seq<Id>, a: Id)
    ensures Walk(path, [a]) == ExtendPath(path, Leads(a))
  {
    assert [a][1..] == [];
    assert Walk(ExtendPath(path, Leads(a)), []) == ExtendPath(path, Leads(a));
  }

  lemma WalkFirst(path: seq<Id>, a: Id, rest: seq<Id>)
    ensures Walk(path, [a] + rest) == Walk(ExtendPath(path, Leads(a)), rest)
  {
    assert ([a] + rest)[1..] == rest;
  }

  /** The batches of the first seven turns. */
  lemma WalkFromAC(done: seq<Id>)
    ensures Walk(done + ["A", "C"], ["A", "C"]) == done + ["A", "C"] + ["B", "S"]
  {
    hide Walk, ExtendPath, Leads;
    LeadsAre();
    var p := done + ["A", "C"];
    assert ["A", "C"] == ["A"] + ["C"];
    WalkFirst(p, "A", ["C"]);
    Extends1(p, "B");
    Walk1(p + ["B"], "C");
    Extends1(p + ["B"], "S");
    assert p + ["B"] + ["S"] == p + ["B", "S"];
  }

  lemma WalkFromBS(done: seq<Id>)
    ensures Walk(done + ["B", "S"], ["B", "S"]) == done + ["B", "S"] + ["C", "A", "C"]
  {
    hide Walk, ExtendPath, Leads;
    LeadsAre();
    var p := done + ["B", "S"];
    assert ["B", "S"] == ["B"] + ["S"];
    WalkFirst(p, "B", ["S"]);
    Extends1(p, "C");
    Walk1(p + ["C"], "S");
    Extends2(p + ["C"], "A", "C");
    assert p + ["C"] + ["A", "C"] == p + ["C", "A", "C"];
  }

  lemma WalkFromCAC(done: seq<Id>)
    ensures Walk(done + ["C", "A", "C"], ["C", "A", "C"]) == done + ["C", "A", "C"] + ["S", "B", "S"]
  {
    hide Walk, ExtendPath, Leads;
    LeadsAre();
    var p := done + ["C", "A", "C"];
    assert ["C", "A", "C"] == ["C"] + (["A"] + ["C"]);
    WalkFirst(p, "C", ["A"] + ["C"]);
    Extends1(p, "S");
    WalkFirst(p + ["S"], "A", ["C"]);
    Extends1(p + ["S"], "B");
    Walk1(p + ["S"] + ["B"], "C");
    Extends1(p + ["S"] + ["B"], "S");
    assert p + ["S"] + ["B"] + ["S"] == p + ["S", "B", "S"];
  }

  lemma WalkFromSBS(done: seq<Id>)
    ensures Walk(done + ["S", "B", "S"], ["S", "B", "S"]) == done + ["S", "B", "S"] + ["A", "C", "A", "C"]
  {
    hide Walk, ExtendPath, Leads;
    LeadsAre();
    var p := done + ["S", "B", "S"];
    assert ["S", "B", "S"] == ["S"] + (["B"] + ["S"]);
    WalkFirst(p, "S", ["B"] + ["S"]);
    Extends2(p, "A", "C");
    var q := p + ["A", "C"];
    WalkFirst(q, "B", ["S"]);
    Suppressed(q, "C");
    Walk1(q, "S");
    Extends2(q, "A", "C");
    assert q + ["A", "C"] == p + ["A", "C", "A", "C"];
  }

  lemma WalkAlone(done: seq<Id>, a: Id)
    requires Known(a)
    ensures Walk(done + [a], [a]) == done + [a] + Leads(a)
  {
    Walk1(done + [a], a);
    if a == "S" {
      Extends2(done + [a], "A", "C");
    } else {
      Extends1(done + [a], Leads(a)[0]);
    }
  }

  lemma Counts()
    ensures Times(["begin"], "S") == Times(["L"], "S") == Times(["A", "C"], "S") == Times(["C", "A", "C"], "S") == 0
    ensures Times(["S"], "S") == Times(["B", "S"], "S") == 1 && Times(["S", "B", "S"], "S") == 2
  {
    assert ["A", "C"] == ["A"] + ["C"] && ["C", "A", "C"] == ["C"] + (["A"] + ["C"]);
    assert ["B", "S"] == ["B"] + ["S"] && ["S", "B", "S"] == ["S"] + (["B"] + ["S"]);
    TimesFirst("begin", []);
    TimesFirst("L", []);
    TimesFirst("S", []);
    TimesFirst("C", []);
    TimesFirst("A", ["C"]);
    TimesFirst("C", ["A"] + ["C"]);
    TimesFirst("B", ["S"]);
    TimesFirst("S", ["B"] + ["S"]);
    hide Times;
  }

  lemma TimesFirst(a: Id, rest: seq<Id>)
    ensures Times([a] + rest, "S") == (if a == "S" then 1 else 0) + Times(rest, "S")
    ensures [a] + [] == [a] && Times([], "S") == 0
  {
    assert ([a] + rest)[1..] == rest;
  }

  lemma Cursors()
    ensures Launches(0, 2, 0) == 0 && Launches(0, 2, 1) == 1 && Launches(1, 2, 0) == 1
    ensures Launches(1, 2, 1) == 2 && Launches(2, 2, 0) == 2 && Launches(2, 2, 1) == -1 && Launches(2, 2, 2) == 0
  {
    CountsUp(0, 2, 0);
    CountsUp(0, 2, 1);
    CountsUp(1, 2, 0);
    CountsUp(1, 2, 1);
    CountsUp(2, 2, 0);
    LaunchesAreModular(2, 2, 1);
    LaunchesAreModular(2, 2, 2);
  }

  lemma TallyFirst(g: Canvas, o: Oracle, s: State, n: nat, item: Id, t: Tally)
    requires Live(s)
    ensures TallyRun(g, o, s, n + 1, item, t) == TallyRun(g, o, Step(g, o, s), n, item, TallyTurn(g, o, s, item, t))
  {
    hide Step, TallyTurn;
  }

  /** After seven turns from "begin" the item, whose loop allows two rounds, has gone on four times; the scheduler saw
      no end, although the last batch led the cursor over it. */
  lemma FourRoundsOfTwo()
    ensures TallyRun(CANVAS, QUIET, Begun([], map[]), 7, "S", Tally(0, false)) == Tally(4, false)
  {
    hide TallyRun, Step, Stands, TallyTurn, Walk, Times, Launches, Live, Leads, Known;
    Counts();
    Cursors();
    LeadsAre();
    AllKnown();
    var s0 := Begun([], map[]);
    StandsAtBegin();
    var p0: seq<Id> := [];
    WalkAlone(p0, "begin");
    var s1 := MovesOn(s0, p0, ["begin"], ["L"], 0, Tally(0, false), 6);
    var p1 := p0 + ["begin"];
    WalkAlone(p1, "L");
    var s2 := MovesOn(s1, p1, ["L"], ["S"], 0, Tally(0, false), 5);
    var p2 := p1 + ["L"];
    WalkAlone(p2, "S");
    var s3 := MovesOn(s2, p2, ["S"], ["A", "C"], 0, Tally(0, false), 4);
    var p3 := p2 + ["S"];
    WalkFromAC(p3);
    var s4 := MovesOn(s3, p3, ["A", "C"], ["B", "S"], 1, Tally(1, false), 3);
    var p4 := p3 + ["A", "C"];
    WalkFromBS(p4);
    var s5 := MovesOn(s4, p4, ["B", "S"], ["C", "A", "C"], 1, Tally(1, false), 2);
    var p5 := p4 + ["B", "S"];
    WalkFromCAC(p5);
    var s6 := MovesOn(s5, p5, ["C", "A", "C"], ["S", "B", "S"], 2, Tally(2, false), 1);
    var p6 := p5 + ["C", "A", "C"];
    WalkFromSBS(p6);
    var s7 := MovesOn(s6, p6, ["S", "B", "S"], ["A", "C", "A", "C"], 2, Tally(2, false), 0);
    NoTurns(s7, Tally(4, false));
  }

  lemma NoTurns(s: State, t: Tally)
    ensures TallyRun(CANVAS, QUIET, s, 0, "S", t) == t
  {
  }

  lemma LeadsAre()
    ensures Leads("begin") == ["L"] && Leads("L") == ["S"] && Leads("S") == ["A", "C"]
    ensures Leads("A") == ["B"] && Leads("B") == ["C"] && Leads("C") == ["S"]
  {
  }

  ghost predicate AllKnownIn(ids: seq<Id>) {
    forall id <- ids :: Known(id)
  }

  lemma AllKnown()
    ensures Known("begin") && Known("L") && Known("S")
    ensures AllKnownIn(["begin"]) && AllKnownIn(["L"]) && AllKnownIn(["S"]) && AllKnownIn(["A", "C"])
    ensures AllKnownIn(["B", "S"]) && AllKnownIn(["C", "A", "C"]) && AllKnownIn(["S", "B", "S"])
    ensures AllKnownIn(["A", "C", "A", "C"])
  {
  }

  lemma StandsAtBegin()
    ensures Stands(Begun([], map[]), [], ["begin"], 0)
  {
    assert [] + ["begin"] == ["begin"];
  }

  lemma MovesOn(s: State, done: seq<Id>, pending: seq<Id>, next: seq<Id>, c: int, t: Tally, n: nat) returns (r: State)
    requires Stands(s, done, pending, c) && c >= -1 && pending != [] && AllKnownIn(pending) && AllKnownIn(next)
    requires Walk(done + pending, pending) == done + pending + next
    requires Launches(c, 2, Times(pending, "S")) != -1
    ensures Stands(r, done + pending, next, Launches(c, 2, Times(pending, "S")))
    ensures TallyRun(CANVAS, QUIET, s, n + 1, "S", t)
         == TallyRun(CANVAS, QUIET, r, n, "S", Tally(t.going + Times(pending, "S"), t.again))
  {
    hide Walk, Times, Launches, Known, Stands, TallyRun, Step, TallyTurn;
    Turn(s, done, pending, next, c, t);
    TallyFirst(CANVAS, QUIET, s, n, "S", t);
    r := Step(CANVAS, QUIET, s);
  }
}
