/** Where the path can go: everything appended is offered by a component of the batch.  From this
    follow termination of acyclic canvases with a real bound, and that a closed canvas stays closed. */
module CanvasTermination {
  import opened Common
  import opened CanvasModel
  import CanvasSafety
  import CanvasPause

  /** Whatever `id` may append to the path, at any position and cursor, has property `P`. */
  ghost predicate OffersOnly(g: Canvas, o: Oracle, id: Id, P: Id -> bool) {
    && (forall i: nat, c: int, d <- Successors(g, o, i, id, c) :: P(d))
    && (HasGoto(Of(g, id).handler) ==> forall d <- Of(g, id).handler.goto :: P(d))
  }

  ghost predicate All(ids: seq<Id>, P: Id -> bool) {
    forall id <- ids :: P(id)
  }

  lemma {:induction false} ExtendAddsOnly(path: seq<Id>, ids: seq<Id>, P: Id -> bool)
    requires All(ids, P)
    ensures All(ExtendPath(path, ids)[|path|..], P)
    decreases |ids|
  {
    if ids != [] {
      var next := AppendPath(path, ids[0]);
      assert P(ids[0]) && All(ids[1..], P);
      ExtendAddsOnly(next, ids[1..], P);
      var r := ExtendPath(path, ids);
      assert r[|path|..] == next[|path|..] + r[|next|..];
    }
  }

  lemma PostAddsOnly(g: Canvas, o: Oracle, s: State, i: nat, id: Id, P: Id -> bool)
    requires OffersOnly(g, o, id, P)
    ensures s.path <= Post(g, o, s, i, id).path
    ensures All(Post(g, o, s, i, id).path[|s.path|..], P)
  {
    PostFrame(g, o, s, i, id);
    var s1 := MessageStage(g, o, s, i, id);
    var s2 := ErrorStage(g, o, s1, i, id);
    var s3 := FinishStage(g, o, s2, i, id);
    assert s1.path == s.path && s3.path == s2.path;
    if Diverts(g, o, i, id) {
      assert s2.path[|s.path|..] == Of(g, id).handler.goto;
    } else {
      assert s3.path == s.path;
      hide MessageStage, ErrorStage, FinishStage;
      var offered := Successors(g, o, i, id, CursorOf(s3.cursors, id));
      assert All(offered, P);
      ExtendAddsOnly(s3.path, offered, P);
    }
  }

  lemma {:induction false} PostAllAddsOnly(g: Canvas, o: Oracle, s: State, i: nat, batch: seq<Id>, P: Id -> bool)
    requires forall id <- batch :: OffersOnly(g, o, id, P)
    ensures s.path <= PostAll(g, o, s, i, batch).path
    ensures All(PostAll(g, o, s, i, batch).path[|s.path|..], P)
    decreases |batch|
  {
    hide Post, OffersOnly;
    if batch != [] {
      PostAddsOnly(g, o, s, i, batch[0], P);
      var s1 := Post(g, o, s, i, batch[0]);
      PostAllAddsOnly(g, o, s1, i + 1, batch[1..], P);
      var r := PostAll(g, o, s, i, batch).path;
      assert r[|s.path|..] == s1.path[|s.path|..] + r[|s1.path|..];
    }
  }

  lemma {:induction false} KeptComesFromPending(g: Canvas, done: seq<Id>, pending: seq<Id>)
    ensures forall id <- Kept(g, done, pending) :: id in pending
    decreases |pending|
  {
    hide Blocked;
    if pending == [] {
    } else if Blocked(g, done, pending[0]) {
      KeptComesFromPending(g, done, pending[1..]);
    } else {
      KeptComesFromPending(g, done + [pending[0]], pending[1..]);
    }
  }

  /** What a turn leaves pending was offered by the batch. */
  lemma {:induction false} StepAddsOnly(g: Canvas, o: Oracle, s: State, P: Id -> bool)
    requires Live(s)
    requires forall id <- s.path[s.idx..] :: OffersOnly(g, o, id, P)
    ensures Step(g, o, s).status == Running ==>
              s.idx <= Step(g, o, s).idx <= |Step(g, o, s).path| && All(Step(g, o, s).path[Step(g, o, s).idx..], P)
  {
    var batch := Batch(g, s);
    KeptComesFromPending(g, s.path[..s.idx], s.path[s.idx..]);
    hide Kept, Post, OffersOnly, Starts, Invoke;
    var s1 := Launch(g, o, s, batch);
    PostAllAddsOnly(g, o, s1, s.idx, batch, P);
    CanvasSafety.StepShape(g, o, s);
  }

  // ---------- Termination ----------

  /** No containers, and every edge the scheduler may follow (downstream, exception goto, `_next`)
      goes down in rank: the graph is acyclic. */
  ghost predicate Ranked(g: Canvas, o: Oracle, rank: Id -> nat) {
    forall id ::
      var c := Of(g, id);
      && !IsContainer(c.kind) && !IsItem(c.kind) && c.parent == None
      && (forall d <- c.downstream :: rank(d) < rank(id))
      && (HasGoto(c.handler) ==> forall d <- c.handler.goto :: rank(d) < rank(id))
      && (c.kind == Categorize || c.kind == Switch ==> forall p: nat, d <- o(p, id).next :: rank(d) < rank(id))
  }

  /** Every pending entry has a rank below `bound`. */
  ghost predicate PendingBelow(s: State, rank: Id -> nat, bound: nat) {
    s.idx <= |s.path| ==> forall id <- s.path[s.idx..] :: rank(id) < bound
  }

  lemma RankedOffers(g: Canvas, o: Oracle, rank: Id -> nat, id: Id, bound: nat)
    requires Ranked(g, o, rank) && rank(id) <= bound
    ensures OffersOnly(g, o, id, d => rank(d) < bound)
  {
    assert Of(g, "").kind != Loop by { assert !IsContainer(Of(g, "").kind); }
    forall i: nat, c: int, d | d in Successors(g, o, i, id, c) ensures rank(d) < bound {
    }
  }

  lemma {:induction false} RankDecreases(g: Canvas, o: Oracle, s: State, rank: Id -> nat, bound: nat)
    requires Ranked(g, o, rank) && Live(s) && PendingBelow(s, rank, bound)
    ensures bound > 0
    ensures Step(g, o, s).status == Running ==> PendingBelow(Step(g, o, s), rank, bound - 1)
  {
    hide Step, Ranked, OffersOnly;
    assert s.path[s.idx] in s.path[s.idx..];
    forall id | id in s.path[s.idx..] ensures OffersOnly(g, o, id, d => rank(d) < bound - 1) {
      RankedOffers(g, o, rank, id, bound - 1);
    }
    StepAddsOnly(g, o, s, d => rank(d) < bound - 1);
  }

  /** The largest pending rank drops with every batch, so the loop is over after `bound` batches. */
  lemma {:induction false} RunStops(g: Canvas, o: Oracle, s: State, rank: Id -> nat, bound: nat)
    requires Ranked(g, o, rank) && PendingBelow(s, rank, bound)
    ensures !Live(Steps(g, o, s, bound))
    decreases bound
  {
    hide Step, Ranked;
    if Live(s) {
      RankDecreases(g, o, s, rank, bound);
      if Live(Step(g, o, s)) {
        RunStops(g, o, Step(g, o, s), rank, bound - 1);
      } else if bound > 1 {
        assert Steps(g, o, Step(g, o, s), bound - 1) == Step(g, o, s);
      }
    }
  }

  /** An acyclic canvas without containers: whatever the components do, a run takes at most one batch
      more than the rank of the component it starts at. */
  lemma AcyclicRunsTerminate(g: Canvas, o: Oracle, rank: Id -> nat, path: seq<Id>, cursors: map<Id, int>)
    requires Ranked(g, o, rank)
    ensures var s0 := Begun(path, cursors);
      !Live(Steps(g, o, s0, rank(s0.path[s0.idx]) + 1))
  {
    var s0 := Begun(path, cursors);
    assert s0.path[s0.idx..] == [s0.path[s0.idx]];
    hide Steps, Ranked;
    RunStops(g, o, s0, rank, rank(s0.path[s0.idx]) + 1);
  }

  /** A batch in which everything was dropped ends the loop instead of stalling it. */
  lemma FullyDroppedBatchExits(g: Canvas, o: Oracle, s: State)
    requires Live(s) && !s.error && Batch(g, s) == []
    ensures var r := Step(g, o, s);
      r.status == Running && !Live(r) && r.path == s.path[..s.idx] && r.launched == s.launched
  {
    assert PostAll(g, o, Launch(g, o, s, []), s.idx, []) == Launch(g, o, s, []);
    hide Kept;
    assert Drop(s.path[..s.idx] + [], s.idx) == [];
  }

  // ---------- Staying inside the canvas ----------

  lemma {:induction false} StartIsAComponent(g: Canvas, ids: seq<Id>, owner: Id)
    ensures FirstItem(g, ids, owner).Some? ==> FirstItem(g, ids, owner).value in ids
  {
    if ids != [] && !IsItemOf(g, owner, ids[0]) {
      StartIsAComponent(g, ids[1..], owner);
    }
  }

  lemma ClosedOffers(g: Canvas, o: Oracle, id: Id)
    requires Closed(g) && OracleInCanvas(g, o) && id in g.cpns
    ensures OffersOnly(g, o, id, d => d in g.cpns)
  {
    var c := g.cpns[id];
    StartIsAComponent(g, g.order, id);
    if c.parent.Some? {
      StartIsAComponent(g, g.order, c.parent.value);
    }
    forall i: nat, cur: int, d | d in Successors(g, o, i, id, cur) ensures d in g.cpns {
    }
  }

  lemma InCanvasParts(g: Canvas, ids: seq<Id>, k: nat)
    requires k <= |ids|
    ensures InCanvas(g, ids) <==> InCanvas(g, ids[..k]) && InCanvas(g, ids[k..])
  {
    assert ids == ids[..k] + ids[k..];
  }

  lemma StepStaysInCanvas(g: Canvas, o: Oracle, s: State)
    requires Closed(g) && OracleInCanvas(g, o) && Live(s) && InCanvas(g, s.path)
    ensures var r := Step(g, o, s);
      InCanvas(g, r.path) && (r.status == Running ==> r.idx <= |r.path|)
  {
    hide Closed, OracleInCanvas, OffersOnly, Step, Kept, Post, Starts, Invoke, FormsFirst, InCanvas, PostAll;
    var batch := Batch(g, s);
    InCanvasParts(g, s.path, s.idx);
    BatchStaysInCanvas(g, s);
    forall id | id in batch ensures OffersOnly(g, o, id, d => d in g.cpns) {
      MemberInCanvas(g, batch, id);
      ClosedOffers(g, o, id);
    }
    var s1 := Launch(g, o, s, batch);
    LaunchPath(g, o, s, batch);
    InCanvasParts(g, s1.path, s.idx);
    PostAllAddsOnly(g, o, s1, s.idx, batch, d => d in g.cpns);
    var end := PostAll(g, o, s1, s.idx, batch).path;
    AllInCanvas(g, end[|s1.path|..]);
    assert end[..|s1.path|] == s1.path;
    InCanvasParts(g, end, |s1.path|);
    CanvasSafety.StepShape(g, o, s);
    InCanvasParts(g, end, s.idx + |batch|);
    CanvasPause.FormsCount(g, end[s.idx + |batch|..]);
    SameMembers(g, end[s.idx + |batch|..], FormsFirst(g, end[s.idx + |batch|..]));
  }

  lemma MemberInCanvas(g: Canvas, ids: seq<Id>, id: Id)
    requires InCanvas(g, ids) && id in ids
    ensures id in g.cpns
  {
  }

  lemma LaunchPath(g: Canvas, o: Oracle, s: State, batch: seq<Id>)
    requires s.idx <= |s.path|
    ensures var p := Launch(g, o, s, batch).path;
      |p| == s.idx + |batch| && p[..s.idx] == s.path[..s.idx] && p[s.idx..] == batch
  {
    hide Invoke, Starts;
  }

  lemma BatchStaysInCanvas(g: Canvas, s: State)
    requires s.idx <= |s.path| && InCanvas(g, s.path[s.idx..])
    ensures InCanvas(g, Batch(g, s))
  {
    KeptComesFromPending(g, s.path[..s.idx], s.path[s.idx..]);
    hide Kept;
  }

  lemma AllInCanvas(g: Canvas, ids: seq<Id>)
    requires All(ids, d => d in g.cpns)
    ensures InCanvas(g, ids)
  {
  }

  lemma SameMembers(g: Canvas, a: seq<Id>, b: seq<Id>)
    requires InCanvas(g, a) && multiset(a) == multiset(b)
    ensures InCanvas(g, b)
  {
    forall id | id in b ensures id in a {
      assert id in multiset(b);
    }
  }

  /** In a closed canvas the scheduler looks up components only: whatever the run does and however it stands, paused
      or failed, every entry of its path is a component, and a container's start and an item's parent exist. */
  lemma {:induction false} StaysInCanvas(g: Canvas, o: Oracle, s: State, n: nat)
    requires Closed(g) && OracleInCanvas(g, o)
    requires s.idx <= |s.path| && InCanvas(g, s.path)
    ensures var r := Steps(g, o, s, n);
      InCanvas(g, r.path) && (r.status == Running ==> s.status != Running || r.idx <= |r.path|)
    decreases n
  {
    hide Step, Closed, OracleInCanvas, InCanvas;
    if n > 0 && Live(s) {
      StepStaysInCanvas(g, o, s);
      var s1 := Step(g, o, s);
      if s1.status == Running {
        StaysInCanvas(g, o, s1, n - 1);
      } else {
        assert Steps(g, o, s1, n - 1) == s1;
      }
    }
  }
}
