/** Conservation of `node_finished` events: nothing that ran is reported twice or forgotten, and
    deferred reports leave the `partials` queue in the order they entered it. */
module CanvasEvents {
  import opened Common
  import opened CanvasModel
  import CanvasSafety

  /** The ids reported finished in one of the three ways, in order. */
  function Reports(events: seq<Event>, how: How): seq<Id> {
    if events == [] then []
    else (if events[0].NodeFinished? && events[0].how == how then [events[0].id] else []) + Reports(events[1..], how)
  }

  lemma {:induction false} ReportsAppend(a: seq<Event>, b: seq<Event>, how: How)
    ensures Reports(a + b, how) == Reports(a, how) + Reports(b, how)
  {
    if a == [] {
      assert a + b == b;
    } else {
      assert (a + b)[1..] == a[1..] + b;
      ReportsAppend(a[1..], b, how);
    }
  }

  lemma {:induction false} StartsReportNothing(ids: seq<Id>, how: How)
    ensures Reports(Starts(ids), how) == []
  {
    if ids != [] {
      StartsReportNothing(ids[1..], how);
    }
  }

  lemma {:induction false} DeferralsReport(ids: seq<Id>)
    ensures Reports(Deferrals(ids), Deferred) == ids
    ensures Reports(Deferrals(ids), Direct) == [] && Reports(Deferrals(ids), Container) == []
  {
    if ids != [] {
      DeferralsReport(ids[1..]);
    }
  }

  // ---------- What should be reported, read off the launched ids and the oracle ----------

  /** The failures up to and including position `p` that nothing handled. */
  predicate ErrorAfter(g: Canvas, o: Oracle, p: nat, id: Id, err: bool) {
    err || Unhandled(g, o, p, id)
  }

  /** Position `p` waits in the queue: lazy content, and no unhandled failure so far. */
  predicate Queues(g: Canvas, o: Oracle, p: nat, id: Id, err: bool) {
    !IsContainer(Of(g, id).kind) && Defers(g, o, p, id) && !ErrorAfter(g, o, p, id, err)
  }

  predicate ReportsDirectly(g: Canvas, o: Oracle, p: nat, id: Id, err: bool) {
    !IsContainer(Of(g, id).kind) && !Queues(g, o, p, id, err)
  }

  /** The report position `p` owes: itself, at once or through the queue, or nothing. */
  function Mine(g: Canvas, o: Oracle, p: nat, id: Id, err: bool, queued: bool): seq<Id> {
    if (if queued then Queues(g, o, p, id, err) else ReportsDirectly(g, o, p, id, err)) then [id] else []
  }

  /** Of the launches `ids` at positions `p..`, those that must enter the queue (or, for `queued`
      false, those that must be reported at once), in path order. */
  function Due(g: Canvas, o: Oracle, p: nat, ids: seq<Id>, err: bool, queued: bool): seq<Id>
    decreases |ids|
  {
    if ids == [] then []
    else Mine(g, o, p, ids[0], err, queued) + Due(g, o, p + 1, ids[1..], ErrorAfter(g, o, p, ids[0], err), queued)
  }

  function AnyError(g: Canvas, o: Oracle, p: nat, ids: seq<Id>, err: bool): bool
    decreases |ids|
  {
    if ids == [] then err else AnyError(g, o, p + 1, ids[1..], ErrorAfter(g, o, p, ids[0], err))
  }

  lemma {:induction false} DueAppend(g: Canvas, o: Oracle, p: nat, a: seq<Id>, b: seq<Id>, err: bool, queued: bool)
    ensures Due(g, o, p, a + b, err, queued)
         == Due(g, o, p, a, err, queued) + Due(g, o, p + |a|, b, AnyError(g, o, p, a, err), queued)
    ensures AnyError(g, o, p, a + b, err) == AnyError(g, o, p + |a|, b, AnyError(g, o, p, a, err))
    decreases |a|
  {
    hide Mine, ErrorAfter;
    if a == [] {
      assert a + b == b;
    } else {
      var rest, e := a[1..], ErrorAfter(g, o, p, a[0], err);
      assert (a + b)[1..] == rest + b && (a + b)[0] == a[0];
      DueAppend(g, o, p + 1, rest, b, e, queued);
      var mine := Mine(g, o, p, a[0], err, queued);
      var tail := Due(g, o, p + |a|, b, AnyError(g, o, p, a, err), queued);
      assert Due(g, o, p, a, err, queued) == mine + Due(g, o, p + 1, rest, e, queued);
      assert mine + (Due(g, o, p + 1, rest, e, queued) + tail) == (mine + Due(g, o, p + 1, rest, e, queued)) + tail;
    }
  }

  // ---------- The invariant ----------

  /** The reports and the queue are exactly what the launches call for: `direct` and `queue` are the
      ids due at once and the ids due through the queue. */
  ghost predicate Conserved(s: State, direct: seq<Id>, queue: seq<Id>) {
    && Reports(s.events, Direct) == direct
    && Reports(s.events, Deferred) + s.partials == queue
  }

  lemma Requeue(done: seq<Id>, queue: seq<Id>, n: nat)
    requires n <= |queue|
    ensures done + queue[..n] + queue[n..] == done + queue
  {
    assert queue == queue[..n] + queue[n..];
  }

  lemma NoMore(done: seq<Id>)
    ensures done + [] == done
  {
  }

  /** Draining the queue moves its head into the log and changes no total. */
  lemma ReleaseReports(s: State, resolved: set<Id>)
    ensures var r := Release(s, resolved);
      && Reports(r.events, Direct) == Reports(s.events, Direct)
      && Reports(r.events, Container) == Reports(s.events, Container)
      && Reports(r.events, Deferred) + r.partials == Reports(s.events, Deferred) + s.partials
  {
    hide Ready, Reports, Deferrals;
    var n := Ready(s.partials, resolved);
    var late := Deferrals(s.partials[..n]);
    DeferralsReport(s.partials[..n]);
    ReportsAppend(s.events, late, Direct);
    ReportsAppend(s.events, late, Deferred);
    ReportsAppend(s.events, late, Container);
    Requeue(Reports(s.events, Deferred), s.partials, n);
    NoMore(Reports(s.events, Direct));
    NoMore(Reports(s.events, Container));
  }

  lemma MessageKeeps(g: Canvas, o: Oracle, s: State, i: nat, id: Id, direct: seq<Id>, queue: seq<Id>)
    requires Conserved(s, direct, queue)
    ensures Conserved(MessageStage(g, o, s, i, id), direct, queue)
    ensures MessageStage(g, o, s, i, id).error == s.error
  {
    if Of(g, id).kind == Message {
      ReportsAppend(s.events, [MessageEnd(id)], Direct);
      ReportsAppend(s.events, [MessageEnd(id)], Deferred);
      assert Reports(s.events, Direct) + [] == Reports(s.events, Direct);
      assert Reports(s.events, Deferred) + [] == Reports(s.events, Deferred);
      ReleaseReports(s.(events := s.events + [MessageEnd(id)]), o(i, id).resolved);
    }
  }

  lemma ErrorKeeps(g: Canvas, o: Oracle, s: State, i: nat, id: Id, direct: seq<Id>, queue: seq<Id>)
    requires Conserved(s, direct, queue)
    ensures Conserved(ErrorStage(g, o, s, i, id), direct, queue)
    ensures ErrorStage(g, o, s, i, id).error == ErrorAfter(g, o, i, id, s.error)
  {
    ReportsAppend(s.events, [DefaultAnswer(id)], Direct);
    ReportsAppend(s.events, [DefaultAnswer(id)], Deferred);
  }

  lemma FinishKeeps(g: Canvas, o: Oracle, s: State, i: nat, id: Id, err: bool, direct: seq<Id>, queue: seq<Id>)
    requires Conserved(s, direct, queue)
    requires s.error == ErrorAfter(g, o, i, id, err)
    ensures Conserved(FinishStage(g, o, s, i, id),
                      direct + Mine(g, o, i, id, err, false),
                      queue + Mine(g, o, i, id, err, true))
    ensures FinishStage(g, o, s, i, id).error == s.error
  {
    ReportsAppend(s.events, [NodeFinished(id, Direct)], Direct);
    ReportsAppend(s.events, [NodeFinished(id, Direct)], Deferred);
    assert Reports(s.events, Deferred) + (s.partials + [id]) == (Reports(s.events, Deferred) + s.partials) + [id];
  }

  lemma ExtendKeeps(g: Canvas, o: Oracle, s: State, i: nat, id: Id, direct: seq<Id>, queue: seq<Id>)
    requires Conserved(s, direct, queue)
    ensures Conserved(ExtendStage(g, o, s, i, id), direct, queue)
    ensures ExtendStage(g, o, s, i, id).error == s.error
  {
    var note := [NodeFinished(Of(g, id).parent.GetOr(""), Container)];
    ReportsAppend(s.events, note, Direct);
    ReportsAppend(s.events, note, Deferred);
    assert Reports(s.events, Direct) + [] == Reports(s.events, Direct);
    assert Reports(s.events, Deferred) + [] == Reports(s.events, Deferred);
    hide Successors, ExtendPath;
  }

  /** One post-processed position adds exactly its own report, to the log or to the queue. */
  lemma PostKeeps(g: Canvas, o: Oracle, s: State, i: nat, id: Id, direct: seq<Id>, queue: seq<Id>)
    requires Conserved(s, direct, queue)
    ensures Conserved(Post(g, o, s, i, id),
                      direct + Mine(g, o, i, id, s.error, false),
                      queue + Mine(g, o, i, id, s.error, true))
    ensures Post(g, o, s, i, id).error == ErrorAfter(g, o, i, id, s.error)
  {
    hide MessageStage, ErrorStage, FinishStage, ExtendStage, Conserved, ErrorAfter, Mine;
    var s1 := MessageStage(g, o, s, i, id);
    var s2 := ErrorStage(g, o, s1, i, id);
    var s3 := FinishStage(g, o, s2, i, id);
    MessageKeeps(g, o, s, i, id, direct, queue);
    ErrorKeeps(g, o, s1, i, id, direct, queue);
    FinishKeeps(g, o, s2, i, id, s.error, direct, queue);
    ExtendKeeps(g, o, s3, i, id,
                direct + Mine(g, o, i, id, s.error, false),
                queue + Mine(g, o, i, id, s.error, true));
  }

  lemma {:induction false} PostAllKeeps(
      g: Canvas, o: Oracle, s: State, i: nat, batch: seq<Id>, direct: seq<Id>, queue: seq<Id>)
    requires Conserved(s, direct, queue)
    ensures var r := PostAll(g, o, s, i, batch);
      && Conserved(r, direct + Due(g, o, i, batch, s.error, false), queue + Due(g, o, i, batch, s.error, true))
      && r.error == AnyError(g, o, i, batch, s.error)
    decreases |batch|
  {
    hide Post, Conserved, Mine, ErrorAfter;
    if batch == [] {
      assert direct + [] == direct && queue + [] == queue;
    } else {
      var id := batch[0];
      PostKeeps(g, o, s, i, id, direct, queue);
      var s1 := Post(g, o, s, i, id);
      var d, q := Mine(g, o, i, id, s.error, false), Mine(g, o, i, id, s.error, true);
      PostAllKeeps(g, o, s1, i + 1, batch[1..], direct + d, queue + q);
      var dues, waits := Due(g, o, i + 1, batch[1..], s1.error, false), Due(g, o, i + 1, batch[1..], s1.error, true);
      assert (direct + d) + dues == direct + (d + dues);
      assert (queue + q) + waits == queue + (q + waits);
    }
  }

  lemma LaunchKeeps(g: Canvas, o: Oracle, s: State, batch: seq<Id>, direct: seq<Id>, queue: seq<Id>)
    requires s.idx <= |s.path| && Conserved(s, direct, queue)
    ensures Conserved(Launch(g, o, s, batch), direct, queue)
    ensures Launch(g, o, s, batch).error == s.error
  {
    hide Invoke;
    var starts := Starts(s.path[s.idx..]);
    ReportsAppend(s.events, starts, Direct);
    ReportsAppend(s.events, starts, Deferred);
    StartsReportNothing(s.path[s.idx..], Direct);
    StartsReportNothing(s.path[s.idx..], Deferred);
    assert Reports(s.events, Direct) + [] == Reports(s.events, Direct);
    assert Reports(s.events, Deferred) + [] == Reports(s.events, Deferred);
  }

  /** The state of a run whose first launch is at position `start`. */
  ghost predicate Balanced(g: Canvas, o: Oracle, start: nat, s: State) {
    && Conserved(s, Due(g, o, start, s.launched, false, false), Due(g, o, start, s.launched, false, true))
    && s.error == AnyError(g, o, start, s.launched, false)
    && (s.status == Running ==> s.idx == start + |s.launched|)
  }

  /** The batch of a turn adds exactly its own dues. */
  lemma BatchBalances(g: Canvas, o: Oracle, s: State, direct: seq<Id>, queue: seq<Id>)
    requires s.idx <= |s.path| && Conserved(s, direct, queue)
    ensures var batch := Batch(g, s);
      && Conserved(Step(g, o, s), direct + Due(g, o, s.idx, batch, s.error, false),
        queue + Due(g, o, s.idx, batch, s.error, true))
      && Step(g, o, s).error == AnyError(g, o, s.idx, batch, s.error)
  {
    var batch := Batch(g, s);
    var s1 := Launch(g, o, s, batch);
    LaunchKeeps(g, o, s, batch, direct, queue);
    hide Kept, Launch, Post, Conserved, Due, AnyError;
    PostAllKeeps(g, o, s1, s.idx, batch, direct, queue);
    hide PostAll, Conclude;
    ConcludeKeeps(g, PostAll(g, o, s1, s.idx, batch), s.idx + |batch|,
                  direct + Due(g, o, s.idx, batch, s.error, false), queue + Due(g, o, s.idx, batch, s.error, true));
  }

  lemma {:induction false} StepBalances(g: Canvas, o: Oracle, start: nat, s: State)
    requires Live(s) && Balanced(g, o, start, s)
    ensures Balanced(g, o, start, Step(g, o, s))
  {
    hide Step, PostAll, Launch, Conserved, Due, AnyError, Kept, FormsFirst;
    var batch := Batch(g, s);
    BatchBalances(g, o, s, Due(g, o, start, s.launched, false, false), Due(g, o, start, s.launched, false, true));
    CanvasSafety.StepShape(g, o, s);
    DueAppend(g, o, start, s.launched, batch, false, false);
    DueAppend(g, o, start, s.launched, batch, false, true);
  }

  lemma ConcludeKeeps(g: Canvas, s: State, upto: nat, direct: seq<Id>, queue: seq<Id>)
    requires Conserved(s, direct, queue)
    ensures Conserved(Conclude(g, s, upto), direct, queue)
    ensures Conclude(g, s, upto).error == s.error
  {
    hide Forms, FormsFirst;
  }

  lemma {:induction false} StepsBalance(g: Canvas, o: Oracle, start: nat, s: State, n: nat)
    requires Balanced(g, o, start, s)
    ensures Balanced(g, o, start, Steps(g, o, s, n))
    decreases n
  {
    hide Step, Balanced;
    if n > 0 && Live(s) {
      StepBalances(g, o, start, s);
      StepsBalance(g, o, start, Step(g, o, s), n - 1);
    }
  }

  /** Conservation over whole runs.  The components reported at once are exactly the launches due at
      once; those reported late, followed by those still queued, are exactly the launches due through
      the queue, in launch order (first in, first out); and the run has failed exactly when some launch
      failed with nothing to handle it. */
  lemma {:induction false} FinishesAreConserved(g: Canvas, o: Oracle, path: seq<Id>, cursors: map<Id, int>, n: nat)
    ensures var s0 := Begun(path, cursors);
      var s := Steps(g, o, s0, n);
      && Reports(s.events, Direct) == Due(g, o, s0.idx, s.launched, false, false)
      && Reports(s.events, Deferred) + s.partials == Due(g, o, s0.idx, s.launched, false, true)
      && s.error == AnyError(g, o, s0.idx, s.launched, false)
  {
    var s0 := Begun(path, cursors);
    StepsBalance(g, o, s0.idx, s0, n);
    hide Steps;
  }

  /** How many launches are not containers. */
  function Reportable(g: Canvas, ids: seq<Id>): nat {
    if ids == [] then 0 else (if IsContainer(Of(g, ids[0]).kind) then 0 else 1) + Reportable(g, ids[1..])
  }

  lemma {:induction false} DueCounts(g: Canvas, o: Oracle, p: nat, ids: seq<Id>, err: bool)
    ensures |Due(g, o, p, ids, err, false)| + |Due(g, o, p, ids, err, true)| == Reportable(g, ids)
    decreases |ids|
  {
    if ids != [] {
      DueCounts(g, o, p + 1, ids[1..], ErrorAfter(g, o, p, ids[0], err));
    }
  }

  /** In numbers: reports of components plus the length of the queue is the number of launches that
      are not containers. */
  lemma FinishesBalance(g: Canvas, o: Oracle, path: seq<Id>, cursors: map<Id, int>, n: nat)
    ensures var s := Steps(g, o, Begun(path, cursors), n);
      |Reports(s.events, Direct)| + |Reports(s.events, Deferred)| + |s.partials| == Reportable(g, s.launched)
  {
    FinishesAreConserved(g, o, path, cursors, n);
    var s := Steps(g, o, Begun(path, cursors), n);
    hide Steps;
    DueCounts(g, o, Begun(path, cursors).idx, s.launched, false);
  }

  /** A position reports a container exactly when it holds an ending item, and then the item's own parent. */
  lemma ContainerReportsComeFromEndingItems(g: Canvas, o: Oracle, s: State, i: nat, id: Id)
    ensures Reports(Post(g, o, s, i, id).events, Container)
         == Reports(s.events, Container)
            + (if Ends(g, o, i, id, CursorOf(s.cursors, id)) then [Of(g, id).parent.GetOr("")] else [])
  {
    MessageReportsNoContainer(g, o, s, i, id);
    var s1 := MessageStage(g, o, s, i, id);
    ErrorAndFinishReportNoContainer(g, o, s1, i, id);
    hide MessageStage, ErrorStage, FinishStage, Successors, ExtendPath;
    var s3 := FinishStage(g, o, ErrorStage(g, o, s1, i, id), i, id);
    ReportsAppend(s3.events, [NodeFinished(Of(g, id).parent.GetOr(""), Container)], Container);
    assert Reports(s.events, Container) + [] == Reports(s.events, Container);
  }

  lemma MessageReportsNoContainer(g: Canvas, o: Oracle, s: State, i: nat, id: Id)
    ensures var r := MessageStage(g, o, s, i, id);
      Reports(r.events, Container) == Reports(s.events, Container) && r.cursors == s.cursors
  {
    if Of(g, id).kind == Message {
      ReportsAppend(s.events, [MessageEnd(id)], Container);
      assert Reports(s.events, Container) + [] == Reports(s.events, Container);
      ReleaseReports(s.(events := s.events + [MessageEnd(id)]), o(i, id).resolved);
    }
  }

  lemma ErrorAndFinishReportNoContainer(g: Canvas, o: Oracle, s: State, i: nat, id: Id)
    ensures var r := FinishStage(g, o, ErrorStage(g, o, s, i, id), i, id);
      Reports(r.events, Container) == Reports(s.events, Container) && r.cursors == s.cursors
  {
    var s2 := ErrorStage(g, o, s, i, id);
    assert Reports(s2.events, Container) == Reports(s.events, Container) by {
      ReportsAppend(s.events, [DefaultAnswer(id)], Container);
      assert Reports(s.events, Container) + [] == Reports(s.events, Container);
    }
    assert s2.cursors == s.cursors;
    hide ErrorStage;
    ReportsAppend(s2.events, [NodeFinished(id, Direct)], Container);
    assert Reports(s2.events, Container) + [] == Reports(s2.events, Container);
  }
}
