/** The event log: what every position adds to it, and what a whole run has said so far. */
module CanvasReports {
  import opened Common
  import opened CanvasModel
  import CanvasSafety
  import CanvasSteps

  // ---------- One position ----------

  /** How many entries at the head of the queue are available: all of them are, and the one behind them is not. */
  function Front(queue: seq<Id>, resolved: set<Id>): (n: nat)
    ensures n <= |queue|
    ensures forall k :: 0 <= k < n ==> queue[k] in resolved
    ensures n < |queue| ==> queue[n] !in resolved
  {
    if queue == [] || queue[0] !in resolved then 0 else 1 + Front(queue[1..], resolved)
  }

  /** The two properties of `Front` determine it. */
  lemma FrontIsUnique(queue: seq<Id>, resolved: set<Id>, n: nat)
    requires n <= |queue| && forall k :: 0 <= k < n ==> queue[k] in resolved
    requires n < |queue| ==> queue[n] !in resolved
    ensures n == Front(queue, resolved)
  {
  }

  /** The component failed, its handler names no other branch, and it has an answer to give instead. */
  predicate AnswersByDefault(g: Canvas, o: Oracle, p: nat, id: Id) {
    var h := Of(g, id).handler;
    o(p, id).errored && h.Handler? && h.goto == [] && h.hasDefault
  }

  /** The component failed, and its handler has neither a branch nor an answer. */
  predicate FailsTheRun(g: Canvas, o: Oracle, p: nat, id: Id) {
    var h := Of(g, id).handler;
    o(p, id).errored && (h == NoHandler || (h.goto == [] && !h.hasDefault))
  }

  /** The component's content is not there yet; a Message has been streamed by now. */
  predicate WaitsForContent(g: Canvas, o: Oracle, p: nat, id: Id, err: bool) {
    && Of(g, id).kind !in {Iteration, Loop, Message}
    && o(p, id).lazy && !err && !FailsTheRun(g, o, p, id)
  }

  function Late(ids: seq<Id>): (r: seq<Event>)
    ensures |r| == |ids| && forall k :: 0 <= k < |ids| ==> r[k] == NodeFinished(ids[k], Deferred)
  {
    seq(|ids|, k requires 0 <= k < |ids| => NodeFinished(ids[k], Deferred))
  }

  function When(b: bool, e: Event): seq<Event> {
    if b then [e] else []
  }

  function Released(g: Canvas, o: Oracle, p: nat, id: Id, queue: seq<Id>): (n: nat)
    ensures n <= |queue|
  {
    if Of(g, id).kind == Message then Front(queue, o(p, id).resolved) else 0
  }

  /** What a position adds: the end of a message and the late reports it makes possible, an answer by default, its own
      report, and that of a container that is over. */
  function PositionLog(g: Canvas, o: Oracle, p: nat, id: Id, queue: seq<Id>, err: bool, cursor: int): seq<Event> {
    When(Of(g, id).kind == Message, MessageEnd(id))
    + Late(queue[..Released(g, o, p, id, queue)])
    + When(AnswersByDefault(g, o, p, id), DefaultAnswer(id))
    + When(Of(g, id).kind !in {Iteration, Loop} && !WaitsForContent(g, o, p, id, err), NodeFinished(id, Direct))
    + When(CanvasSteps.IsOver(g, o, p, id, cursor), NodeFinished(Of(g, id).parent.GetOr(""), Container))
  }

  function QueueAfter(g: Canvas, o: Oracle, p: nat, id: Id, queue: seq<Id>, err: bool): seq<Id> {
    queue[Released(g, o, p, id, queue)..] + (if WaitsForContent(g, o, p, id, err) then [id] else [])
  }

  lemma {:induction false} DeferralsAreLate(ids: seq<Id>)
    ensures Deferrals(ids) == Late(ids)
    decreases |ids|
  {
    if ids != [] {
      DeferralsAreLate(ids[1..]);
      assert Late(ids) == [NodeFinished(ids[0], Deferred)] + Late(ids[1..]);
    }
  }

  lemma {:induction false} ReadyIsFront(queue: seq<Id>, resolved: set<Id>)
    ensures Ready(queue, resolved) == Front(queue, resolved)
    decreases |queue|
  {
    if queue != [] && queue[0] in resolved {
      ReadyIsFront(queue[1..], resolved);
    }
  }

  lemma MessageLogs(g: Canvas, o: Oracle, s: State, p: nat, id: Id)
    ensures var r, n := MessageStage(g, o, s, p, id), Released(g, o, p, id, s.partials);
      && r.events == s.events + When(Of(g, id).kind == Message, MessageEnd(id)) + Late(s.partials[..n])
      && r == s.(events := r.events, partials := s.partials[n..])
  {
    ReadyIsFront(s.partials, o(p, id).resolved);
    DeferralsAreLate(s.partials[..Released(g, o, p, id, s.partials)]);
    hide Ready, Front, Deferrals, Late;
    if Of(g, id).kind != Message {
      assert Late(s.partials[..0]) == [];
      assert s.partials[0..] == s.partials;
      assert s.events + [] + [] == s.events;
    }
  }

  lemma ErrorLogs(g: Canvas, o: Oracle, s: State, p: nat, id: Id)
    ensures var r := ErrorStage(g, o, s, p, id);
      && r.events == s.events + When(AnswersByDefault(g, o, p, id), DefaultAnswer(id))
      && r.error == (s.error || FailsTheRun(g, o, p, id))
      && r.partials == s.partials && r.cursors == s.cursors
  {
    assert s.events + [] == s.events;
  }

  lemma FinishLogs(g: Canvas, o: Oracle, s: State, p: nat, id: Id, err: bool)
    requires s.error == (err || FailsTheRun(g, o, p, id))
    ensures var r, waits := FinishStage(g, o, s, p, id), WaitsForContent(g, o, p, id, err);
      && r.events == s.events + When(Of(g, id).kind !in {Iteration, Loop} && !waits, NodeFinished(id, Direct))
      && r.partials == s.partials + (if waits then [id] else [])
      && r.error == s.error && r.cursors == s.cursors
  {
    assert s.events + [] == s.events && s.partials + [] == s.partials;
    hide FailsTheRun;
  }

  lemma ExtendLogs(g: Canvas, o: Oracle, s: State, p: nat, id: Id)
    ensures var r := ExtendStage(g, o, s, p, id);
      && r.events == s.events + When(CanvasSteps.IsOver(g, o, p, id, CursorOf(s.cursors, id)),
                                     NodeFinished(Of(g, id).parent.GetOr(""), Container))
      && r.partials == s.partials && r.error == s.error
  {
    assert s.events + [] == s.events;
    hide Successors, ExtendPath, Diverts;
  }

  /** The log, the queue and the error flag after one position: every entry in its place, and nothing else. */
  lemma PositionLogs(g: Canvas, o: Oracle, s: State, p: nat, id: Id)
    ensures var r := Post(g, o, s, p, id);
      && r.events == s.events + PositionLog(g, o, p, id, s.partials, s.error, CursorOf(s.cursors, id))
      && r.partials == QueueAfter(g, o, p, id, s.partials, s.error)
      && r.error == (s.error || FailsTheRun(g, o, p, id))
  {
    var s1 := MessageStage(g, o, s, p, id);
    var s2 := ErrorStage(g, o, s1, p, id);
    var s3 := FinishStage(g, o, s2, p, id);
    MessageLogs(g, o, s, p, id);
    ErrorLogs(g, o, s1, p, id);
    FinishLogs(g, o, s2, p, id, s.error);
    ExtendLogs(g, o, s3, p, id);
    hide MessageStage, ErrorStage, FinishStage, ExtendStage, Late, When, Released, AnswersByDefault, FailsTheRun;
    hide WaitsForContent, CanvasSteps.IsOver;
    Joined(s.events, When(Of(g, id).kind == Message, MessageEnd(id)),
           Late(s.partials[..Released(g, o, p, id, s.partials)]),
           When(AnswersByDefault(g, o, p, id), DefaultAnswer(id)),
           When(Of(g, id).kind !in {Iteration, Loop} && !WaitsForContent(g, o, p, id, s.error),
                NodeFinished(id, Direct)),
           When(CanvasSteps.IsOver(g, o, p, id, CursorOf(s.cursors, id)),
                NodeFinished(Of(g, id).parent.GetOr(""), Container)));
  }

  lemma Joined(a: seq<Event>, b: seq<Event>, c: seq<Event>, d: seq<Event>, e: seq<Event>, f: seq<Event>)
    ensures a + b + c + d + e + f == a + (b + c + d + e + f)
  {
  }

  // ---------- Runs ----------

  /** What a run has said of its launches, read off the launched ids: the messages that ended, the answers by
      default, the late reports, and who still waits. */
  datatype Book = Book(messages: seq<Id>, defaults: seq<Id>, late: seq<Id>, queue: seq<Id>, err: bool)

  const BLANK := Book([], [], [], [], false)

  function Entered(g: Canvas, o: Oracle, p: nat, id: Id, b: Book): Book {
    var n := Released(g, o, p, id, b.queue);
    Book(b.messages + (if Of(g, id).kind == Message then [id] else []),
         b.defaults + (if AnswersByDefault(g, o, p, id) then [id] else []),
         b.late + b.queue[..n],
         QueueAfter(g, o, p, id, b.queue, b.err),
         b.err || FailsTheRun(g, o, p, id))
  }

  function Booked(g: Canvas, o: Oracle, p: nat, ids: seq<Id>, b: Book): Book
    decreases |ids|
  {
    if ids == [] then b else Booked(g, o, p + 1, ids[1..], Entered(g, o, p, ids[0], b))
  }

  lemma {:induction false} BookedConcat(g: Canvas, o: Oracle, p: nat, x: seq<Id>, y: seq<Id>, b: Book)
    ensures Booked(g, o, p, x + y, b) == Booked(g, o, p + |x|, y, Booked(g, o, p, x, b))
    decreases |x|
  {
    hide Entered;
    if x == [] {
      assert x + y == y;
    } else {
      assert (x + y)[0] == x[0] && (x + y)[1..] == x[1..] + y;
      BookedConcat(g, o, p + 1, x[1..], y, Entered(g, o, p, x[0], b));
    }
  }

  datatype Sort = Started | Ended | Defaulted | ReportedLate

  predicate IsOf(e: Event, sort: Sort) {
    match sort
    case Started => e.NodeStarted?
    case Ended => e.MessageEnd?
    case Defaulted => e.DefaultAnswer?
    case ReportedLate => e.NodeFinished? && e.how == Deferred
  }

  /** The ids of the events of one sort, in order. */
  function Said(events: seq<Event>, sort: Sort): seq<Id> {
    if events == [] then [] else (if IsOf(events[0], sort) then [events[0].id] else []) + Said(events[1..], sort)
  }

  lemma {:induction false} SaidConcat(a: seq<Event>, b: seq<Event>, sort: Sort)
    ensures Said(a + b, sort) == Said(a, sort) + Said(b, sort)
    decreases |a|
  {
    hide IsOf;
    if a == [] {
      assert a + b == b;
    } else {
      assert (a + b)[0] == a[0] && (a + b)[1..] == a[1..] + b;
      SaidConcat(a[1..], b, sort);
    }
  }

  lemma {:induction false} StartsSay(ids: seq<Id>, sort: Sort)
    ensures Said(Starts(ids), sort) == if sort == Started then ids else []
    decreases |ids|
  {
    if ids != [] {
      StartsSay(ids[1..], sort);
    }
  }

  lemma {:induction false} LateSays(ids: seq<Id>, sort: Sort)
    ensures Said(Late(ids), sort) == if sort == ReportedLate then ids else []
    decreases |ids|
  {
    if ids != [] {
      LateSays(ids[1..], sort);
      assert Late(ids) == [NodeFinished(ids[0], Deferred)] + Late(ids[1..]);
      assert Late(ids)[1..] == Late(ids[1..]);
    }
  }

  lemma WhenSays(b: bool, e: Event, sort: Sort)
    ensures Said(When(b, e), sort) == if b && IsOf(e, sort) then [e.id] else []
  {
    assert [e][1..] == [];
  }

  /** The log has said of the launches what the book holds. */
  ghost predicate Agrees(s: State, b: Book) {
    && Said(s.events, Ended) == b.messages && Said(s.events, Defaulted) == b.defaults
    && Said(s.events, ReportedLate) == b.late && s.partials == b.queue && s.error == b.err
  }

  lemma FiveSay(a: seq<Event>, b: seq<Event>, c: seq<Event>, d: seq<Event>, e: seq<Event>, sort: Sort)
    ensures Said(a + b + c + d + e, sort)
         == Said(a, sort) + Said(b, sort) + Said(c, sort) + Said(d, sort) + Said(e, sort)
  {
    hide Said;
    SaidConcat(a + b + c + d, e, sort);
    SaidConcat(a + b + c, d, sort);
    SaidConcat(a + b, c, sort);
    SaidConcat(a, b, sort);
  }

  /** What one position says of one sort. */
  lemma PositionSays(g: Canvas, o: Oracle, p: nat, id: Id, queue: seq<Id>, err: bool, cursor: int, sort: Sort)
    ensures Said(PositionLog(g, o, p, id, queue, err, cursor), sort)
         == match sort
            case Started => []
            case Ended => if Of(g, id).kind == Message then [id] else []
            case Defaulted => if AnswersByDefault(g, o, p, id) then [id] else []
            case ReportedLate => queue[..Released(g, o, p, id, queue)]
  {
    hide Said, Late, When, Released, AnswersByDefault, WaitsForContent, CanvasSteps.IsOver, Of;
    var n := Released(g, o, p, id, queue);
    var message := Of(g, id).kind == Message;
    var direct := Of(g, id).kind !in {Iteration, Loop} && !WaitsForContent(g, o, p, id, err);
    var over, owner := CanvasSteps.IsOver(g, o, p, id, cursor), Of(g, id).parent.GetOr("");
    FiveSay(When(message, MessageEnd(id)), Late(queue[..n]), When(AnswersByDefault(g, o, p, id), DefaultAnswer(id)),
            When(direct, NodeFinished(id, Direct)), When(over, NodeFinished(owner, Container)), sort);
    WhenSays(message, MessageEnd(id), sort);
    LateSays(queue[..n], sort);
    WhenSays(AnswersByDefault(g, o, p, id), DefaultAnswer(id), sort);
    WhenSays(direct, NodeFinished(id, Direct), sort);
    WhenSays(over, NodeFinished(owner, Container), sort);
  }

  lemma PositionAgrees(g: Canvas, o: Oracle, s: State, p: nat, id: Id, b: Book)
    requires Agrees(s, b)
    ensures Agrees(Post(g, o, s, p, id), Entered(g, o, p, id, b))
    ensures Said(Post(g, o, s, p, id).events, Started) == Said(s.events, Started)
  {
    PositionLogs(g, o, s, p, id);
    var log := PositionLog(g, o, p, id, s.partials, s.error, CursorOf(s.cursors, id));
    forall sort: Sort ensures Said(s.events + log, sort) == Said(s.events, sort) + Said(log, sort) {
      SaidConcat(s.events, log, sort);
    }
    PositionSays(g, o, p, id, s.partials, s.error, CursorOf(s.cursors, id), Started);
    PositionSays(g, o, p, id, s.partials, s.error, CursorOf(s.cursors, id), Ended);
    PositionSays(g, o, p, id, s.partials, s.error, CursorOf(s.cursors, id), Defaulted);
    PositionSays(g, o, p, id, s.partials, s.error, CursorOf(s.cursors, id), ReportedLate);
    hide Post, Said, PositionLog, Released, AnswersByDefault, FailsTheRun, QueueAfter;
  }

  lemma {:induction false} BatchAgrees(g: Canvas, o: Oracle, s: State, p: nat, batch: seq<Id>, b: Book)
    requires Agrees(s, b)
    ensures Agrees(PostAll(g, o, s, p, batch), Booked(g, o, p, batch, b))
    ensures Said(PostAll(g, o, s, p, batch).events, Started) == Said(s.events, Started)
    decreases |batch|
  {
    hide Post, Agrees, Entered, Said;
    if batch != [] {
      PositionAgrees(g, o, s, p, batch[0], b);
      BatchAgrees(g, o, Post(g, o, s, p, batch[0]), p + 1, batch[1..], Entered(g, o, p, batch[0], b));
    }
  }

  lemma LaunchSays(g: Canvas, o: Oracle, s: State, batch: seq<Id>, b: Book)
    requires s.idx <= |s.path| && Agrees(s, b)
    ensures var r := Launch(g, o, s, batch);
      Agrees(r, b) && Said(r.events, Started) == Said(s.events, Started) + s.path[s.idx..]
  {
    var pending := s.path[s.idx..];
    forall sort: Sort ensures Said(s.events + Starts(pending), sort)
                           == Said(s.events, sort) + if sort == Started then pending else []
    {
      SaidConcat(s.events, Starts(pending), sort);
      StartsSay(pending, sort);
    }
    hide Said, Starts, Invoke;
  }

  /** A turn announces every pending entry, dropped ones included, and enters the launched ones in the book. */
  lemma TurnAgrees(g: Canvas, o: Oracle, s: State, b: Book)
    requires Live(s) && Agrees(s, b)
    ensures var r := Step(g, o, s);
      && Agrees(r, Booked(g, o, s.idx, Batch(g, s), b))
      && Said(r.events, Started) == Said(s.events, Started) + s.path[s.idx..]
  {
    hide Said, Kept, Launch, PostAll, Booked, Forms, FormsFirst;
    var batch := Batch(g, s);
    LaunchSays(g, o, s, batch, b);
    var s1 := Launch(g, o, s, batch);
    BatchAgrees(g, o, s1, s.idx, batch, b);
    assert s1.idx == s.idx by { LaunchIdx(g, o, s, batch); }
  }

  lemma LaunchIdx(g: Canvas, o: Oracle, s: State, batch: seq<Id>)
    requires s.idx <= |s.path|
    ensures Launch(g, o, s, batch).idx == s.idx
  {
    hide Invoke, Starts;
  }

  lemma {:induction false} StepsAgree(g: Canvas, o: Oracle, s0: State, s: State, n: nat)
    requires s0.idx <= |s0.path| && CanvasSafety.Accounted(s0, s) && CanvasSafety.DependencySafe(g, s0, s)
    requires Agrees(s, Booked(g, o, s0.idx, s.launched, BLANK))
    ensures Agrees(Steps(g, o, s, n), Booked(g, o, s0.idx, Steps(g, o, s, n).launched, BLANK))
    decreases n
  {
    hide Step, Agrees, Booked, CanvasSafety.DependencySafe, Kept, PostAll, Launch;
    if n > 0 && Live(s) {
      var batch := Batch(g, s);
      TurnAgrees(g, o, s, Booked(g, o, s0.idx, s.launched, BLANK));
      BookedConcat(g, o, s0.idx, s.launched, batch, BLANK);
      LaunchedFits(s0, s);
      CanvasSafety.StepShape(g, o, s);
      CanvasSafety.StepKeeps(g, o, s0, s);
      StepsAgree(g, o, s0, Step(g, o, s), n - 1);
    }
  }

  lemma LaunchedFits(s0: State, s: State)
    requires s0.idx <= |s0.path| && CanvasSafety.Accounted(s0, s) && s.status == Running
    ensures s.idx == s0.idx + |s.launched|
  {
    assert |s.path[..s.idx]| == |s0.path[..s0.idx] + s.launched|;
  }

  /** Over every run: the messages that ended are the launched Messages, the answers by default those of the
      launches that failed and have one, the late reports and the queue are what the launches and the contents that
      became available at each Message make of them, and the run has failed exactly if some launch failed without a
      handler. */
  lemma RunIsBooked(g: Canvas, o: Oracle, path: seq<Id>, cursors: map<Id, int>, n: nat)
    ensures var s0 := Begun(path, cursors);
      var s := Steps(g, o, s0, n);
      Agrees(s, Booked(g, o, s0.idx, s.launched, BLANK))
  {
    var s0 := Begun(path, cursors);
    assert s0.path[..s0.idx] + [] == s0.path[..s0.idx];
    hide Steps;
    StepsAgree(g, o, s0, s0, n);
  }

  /** A launch that waits in the queue is reported late by the first Message behind which it and everything in front of
      it are available, and not before. */
  lemma LateExactly(g: Canvas, o: Oracle, p: nat, id: Id, b: Book, k: nat)
    requires k < |b.queue|
    ensures var r := Entered(g, o, p, id, b);
      && (|r.late| > |b.late| + k
          <==> Of(g, id).kind == Message && forall j :: 0 <= j <= k ==> b.queue[j] in o(p, id).resolved)
      && (|r.late| > |b.late| + k ==> r.late[|b.late| + k] == b.queue[k])
  {
    hide QueueAfter, AnswersByDefault, FailsTheRun;
    if Of(g, id).kind == Message {
      var n := Front(b.queue, o(p, id).resolved);
      hide Front;
    }
  }
}
