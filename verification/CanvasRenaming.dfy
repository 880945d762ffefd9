/** Runs do not depend on the names of components: a canvas whose ids are renamed without collisions
    runs exactly as before, name for name.  The DSL migration is such a renaming, which `CanvasLoading` proves. */
module CanvasRenaming {
  import opened Common
  import opened CanvasModel
  import CanvasTermination

  type Renaming = Id -> Id

  function Ren(f: Renaming, ids: seq<Id>): (r: seq<Id>)
    ensures |r| == |ids|
  {
    if ids == [] then [] else [f(ids[0])] + Ren(f, ids[1..])
  }

  function RenEvent(f: Renaming, e: Event): Event {
    match e
    case NodeStarted(id) => NodeStarted(f(id))
    case MessageEnd(id) => MessageEnd(f(id))
    case DefaultAnswer(id) => DefaultAnswer(f(id))
    case NodeFinished(id, how) => NodeFinished(f(id), how)
  }

  function RenEvents(f: Renaming, es: seq<Event>): seq<Event> {
    if es == [] then [] else [RenEvent(f, es[0])] + RenEvents(f, es[1..])
  }

  ghost predicate Injective(f: Renaming, g: Canvas) {
    forall a <- g.cpns, b <- g.cpns :: f(a) == f(b) ==> a == b
  }

  ghost predicate SameHandler(f: Renaming, a: Handler, b: Handler) {
    && a.Handler? == b.Handler?
    && (a.Handler? ==> b.goto == Ren(f, a.goto) && b.hasDefault == a.hasDefault)
  }

  ghost predicate SameComponent(f: Renaming, a: Component, b: Component) {
    && b.kind == a.kind && b.maxCount == a.maxCount
    && b.downstream == Ren(f, a.downstream)
    && b.parent == (if a.parent.Some? then Some(f(a.parent.value)) else None)
    && b.refs == (set r <- a.refs :: f(r))
    && SameHandler(f, a.handler, b.handler)
  }

  /** `h` is the canvas `g` with every id renamed by `f`: no two ids collide, and renaming neither makes
      nor hides a user form's name. */
  ghost predicate Renames(f: Renaming, g: Canvas, h: Canvas) {
    && Closed(g)
    && h.order == Ren(f, g.order)
    && (forall id <- g.cpns :: f(id) in h.cpns && SameComponent(f, g.cpns[id], h.cpns[f(id)]))
    && Injective(f, g)
    && (forall id <- g.cpns :: NamedFillUp(f(id)) == NamedFillUp(id))
  }

  /** The components behave the same under either name. */
  ghost predicate SameOracle(f: Renaming, g: Canvas, o: Oracle, q: Oracle) {
    forall p: nat, id <- g.cpns ::
      var a, b := o(p, id), q(p, f(id));
      && b.errored == a.errored && b.lazy == a.lazy && b.items == a.items
      && b.condsHold == a.condsHold && b.canceled == a.canceled
      && InCanvas(g, a.next) && b.next == Ren(f, a.next)
      && (forall x <- g.cpns :: f(x) in b.resolved <==> x in a.resolved)
  }

  ghost predicate SameCursors(f: Renaming, g: Canvas, a: map<Id, int>, b: map<Id, int>) {
    forall id <- g.cpns :: CursorOf(b, f(id)) == CursorOf(a, id)
  }

  /** `t` is the state `s` under the new names. */
  ghost predicate SameState(f: Renaming, g: Canvas, s: State, t: State) {
    && InCanvas(g, s.path) && InCanvas(g, s.partials)
    && t.path == Ren(f, s.path) && t.idx == s.idx && t.error == s.error
    && t.partials == Ren(f, s.partials) && SameCursors(f, g, s.cursors, t.cursors)
    && t.events == RenEvents(f, s.events) && t.launched == Ren(f, s.launched) && t.status == s.status
  }

  // ---------- Renaming lists ----------

  lemma {:induction false} RenConcat(f: Renaming, a: seq<Id>, b: seq<Id>)
    ensures Ren(f, a + b) == Ren(f, a) + Ren(f, b)
  {
    if a == [] {
      assert a + b == b;
    } else {
      assert (a + b)[1..] == a[1..] + b;
      RenConcat(f, a[1..], b);
    }
  }

  lemma {:induction false} RenEventsConcat(f: Renaming, a: seq<Event>, b: seq<Event>)
    ensures RenEvents(f, a + b) == RenEvents(f, a) + RenEvents(f, b)
  {
    if a == [] {
      assert a + b == b;
    } else {
      assert (a + b)[1..] == a[1..] + b;
      RenEventsConcat(f, a[1..], b);
    }
  }

  lemma {:induction false} RenAt(f: Renaming, ids: seq<Id>, k: nat)
    requires k < |ids|
    ensures Ren(f, ids)[k] == f(ids[k])
  {
    if k > 0 {
      RenAt(f, ids[1..], k - 1);
    }
  }

  lemma RenSlices(f: Renaming, ids: seq<Id>, k: nat)
    requires k <= |ids|
    ensures Ren(f, ids)[..k] == Ren(f, ids[..k]) && Ren(f, ids)[k..] == Ren(f, ids[k..])
  {
    assert ids == ids[..k] + ids[k..];
    RenConcat(f, ids[..k], ids[k..]);
  }

  lemma {:induction false} RenMembers(f: Renaming, g: Canvas, ids: seq<Id>, id: Id)
    requires InCanvas(g, ids) && id in g.cpns
    requires Injective(f, g)
    ensures f(id) in Ren(f, ids) <==> id in ids
  {
    if ids != [] {
      assert ids[0] in ids;
      RenMembers(f, g, ids[1..], id);
      assert Ren(f, ids) == [f(ids[0])] + Ren(f, ids[1..]);
      assert ids == [ids[0]] + ids[1..];
    }
  }

  // ---------- The pieces of a turn ----------

  lemma LookupRenames(f: Renaming, g: Canvas, h: Canvas, id: Id)
    requires Renames(f, g, h) && id in g.cpns
    ensures SameComponent(f, Of(g, id), Of(h, f(id)))
    ensures Of(g, id) == g.cpns[id]
  {
  }

  lemma BlockedRenames(f: Renaming, g: Canvas, h: Canvas, done: seq<Id>, id: Id)
    requires Renames(f, g, h) && InCanvas(g, done) && id in g.cpns
    ensures Blocked(h, Ren(f, done), f(id)) == Blocked(g, done, id)
  {
    LookupRenames(f, g, h, id);
    var refs := g.cpns[id].refs;
    if done != [] {
      assert done[0] in done;
      RenAt(f, done, 0);
    }
    assert refs <= Members(done) <==> Of(h, f(id)).refs <= Members(Ren(f, done)) by {
      forall r <- refs ensures r in done <==> f(r) in Ren(f, done) {
        RenMembers(f, g, done, r);
      }
      if refs <= Members(done) {
        forall x <- Of(h, f(id)).refs ensures x in Ren(f, done) {
          var r :| r in refs && x == f(r);
          assert r in Members(done);
        }
      }
      if Of(h, f(id)).refs <= Members(Ren(f, done)) {
        forall r <- refs ensures r in done {
          assert f(r) in Of(h, f(id)).refs;
        }
      }
    }
    hide NamedFillUp, Closed;
  }

  lemma {:induction false} KeptRenames(f: Renaming, g: Canvas, h: Canvas, done: seq<Id>, pending: seq<Id>)
    requires Renames(f, g, h) && InCanvas(g, done) && InCanvas(g, pending)
    ensures Kept(h, Ren(f, done), Ren(f, pending)) == Ren(f, Kept(g, done, pending))
    ensures InCanvas(g, Kept(g, done, pending))
    decreases |pending|
  {
    hide Blocked, Renames;
    if pending != [] {
      var id, rest := pending[0], pending[1..];
      BlockedRenames(f, g, h, done, id);
      assert Ren(f, pending)[0] == f(id) && Ren(f, pending)[1..] == Ren(f, rest);
      if Blocked(g, done, id) {
        KeptRenames(f, g, h, done, rest);
      } else {
        RenConcat(f, done, [id]);
        assert Ren(f, [id]) == [f(id)];
        KeptRenames(f, g, h, done + [id], rest);
        var kept := Kept(g, done + [id], rest);
        assert Ren(f, [id] + kept) == [f(id)] + Ren(f, kept);
      }
    }
  }

  lemma CursorsUpdate(f: Renaming, g: Canvas, a: map<Id, int>, b: map<Id, int>, id: Id, c: int)
    requires SameCursors(f, g, a, b) && id in g.cpns
    requires Injective(f, g)
    ensures SameCursors(f, g, a[id := c], b[f(id) := c])
  {
    forall x <- g.cpns ensures CursorOf(b[f(id) := c], f(x)) == CursorOf(a[id := c], x) {
      if x != id {
        assert f(x) != f(id);
        assert CursorOf(b, f(x)) == CursorOf(a, x);
      }
    }
  }

  lemma StepCursorRenames(f: Renaming, g: Canvas, h: Canvas, o: Oracle, q: Oracle, p: nat, id: Id, c: int)
    requires Renames(f, g, h) && SameOracle(f, g, o, q) && id in g.cpns && IsItem(Of(g, id).kind)
    ensures StepCursor(h, q, p, f(id), c) == StepCursor(g, o, p, id, c)
  {
    LookupRenames(f, g, h, id);
    LookupRenames(f, g, h, g.cpns[id].parent.value);
    hide Renames, NamedFillUp;
    assert q(p, f(id)).items == o(p, id).items && q(p, f(id)).canceled == o(p, id).canceled;
    hide SameOracle;
  }

  lemma InvokeOneRenames(
      f: Renaming, g: Canvas, h: Canvas, o: Oracle, q: Oracle, a: map<Id, int>, b: map<Id, int>, id: Id, p: nat)
    requires Renames(f, g, h) && SameOracle(f, g, o, q) && SameCursors(f, g, a, b) && id in g.cpns
    ensures SameCursors(f, g, InvokeOne(g, o, a, id, p), InvokeOne(h, q, b, f(id), p))
  {
    LookupRenames(f, g, h, id);
    var c := CursorOf(a, id);
    assert CursorOf(b, f(id)) == c;
    if IsItem(Of(g, id).kind) {
      StepCursorRenames(f, g, h, o, q, p, id, c);
      CursorsUpdate(f, g, a, b, id, StepCursor(g, o, p, id, c));
    }
    hide Renames, SameOracle, SameCursors, StepCursor;
  }

  lemma {:induction false} InvokeRenames(
      f: Renaming, g: Canvas, h: Canvas, o: Oracle, q: Oracle, a: map<Id, int>, b: map<Id, int>, batch: seq<Id>,
      p: nat)
    requires Renames(f, g, h) && SameOracle(f, g, o, q) && SameCursors(f, g, a, b) && InCanvas(g, batch)
    ensures SameCursors(f, g, Invoke(g, o, a, batch, p), Invoke(h, q, b, Ren(f, batch), p))
    decreases |batch|
  {
    hide Renames, SameOracle, SameCursors, InvokeOne;
    if batch != [] {
      InvokeOneRenames(f, g, h, o, q, a, b, batch[0], p);
      assert Ren(f, batch)[0] == f(batch[0]) && Ren(f, batch)[1..] == Ren(f, batch[1..]);
      InvokeRenames(f, g, h, o, q, InvokeOne(g, o, a, batch[0], p), InvokeOne(h, q, b, f(batch[0]), p), batch[1..],
          p + 1);
    }
  }

  lemma {:induction false} StartsRename(f: Renaming, ids: seq<Id>)
    ensures Starts(Ren(f, ids)) == RenEvents(f, Starts(ids))
  {
    if ids != [] {
      StartsRename(f, ids[1..]);
    }
  }

  lemma {:induction false} DeferralsRename(f: Renaming, ids: seq<Id>)
    ensures Deferrals(Ren(f, ids)) == RenEvents(f, Deferrals(ids))
  {
    if ids != [] {
      DeferralsRename(f, ids[1..]);
    }
  }

  lemma {:induction false} ReadyRenames(f: Renaming, g: Canvas, ids: seq<Id>, a: set<Id>, b: set<Id>)
    requires InCanvas(g, ids) && forall x <- g.cpns :: f(x) in b <==> x in a
    ensures Ready(Ren(f, ids), b) == Ready(ids, a)
  {
    if ids != [] {
      assert ids[0] in ids;
      ReadyRenames(f, g, ids[1..], a, b);
    }
  }

  lemma LaunchRenames(f: Renaming, g: Canvas, h: Canvas, o: Oracle, q: Oracle, s: State, t: State, batch: seq<Id>)
    requires Renames(f, g, h) && SameOracle(f, g, o, q) && SameState(f, g, s, t)
    requires s.idx <= |s.path| && InCanvas(g, batch)
    ensures SameState(f, g, Launch(g, o, s, batch), Launch(h, q, t, Ren(f, batch)))
  {
    RenSlices(f, s.path, s.idx);
    RenConcat(f, s.path[..s.idx], batch);
    RenConcat(f, s.launched, batch);
    StartsRename(f, s.path[s.idx..]);
    RenEventsConcat(f, s.events, Starts(s.path[s.idx..]));
    InvokeRenames(f, g, h, o, q, s.cursors, t.cursors, batch, s.idx);
    hide Renames, SameOracle, SameCursors, Invoke, Starts, Ren, RenEvents;
  }

  lemma NoteRenames(f: Renaming, es: seq<Event>, e: Event)
    ensures RenEvents(f, es + [e]) == RenEvents(f, es) + [RenEvent(f, e)]
  {
    RenEventsConcat(f, es, [e]);
    assert RenEvents(f, [e]) == [RenEvent(f, e)] + RenEvents(f, []);
  }

  lemma MessageRenames(f: Renaming, g: Canvas, h: Canvas, o: Oracle, q: Oracle, s: State, t: State, i: nat, id: Id)
    requires Renames(f, g, h) && SameOracle(f, g, o, q) && SameState(f, g, s, t) && id in g.cpns
    ensures SameState(f, g, MessageStage(g, o, s, i, id), MessageStage(h, q, t, i, f(id)))
  {
    LookupRenames(f, g, h, id);
    NoteRenames(f, s.events, MessageEnd(id));
    var a, b := o(i, id).resolved, q(i, f(id)).resolved;
    ReadyRenames(f, g, s.partials, a, b);
    var n := Ready(s.partials, a);
    RenSlices(f, s.partials, n);
    DeferralsRename(f, s.partials[..n]);
    RenEventsConcat(f, s.events + [MessageEnd(id)], Deferrals(s.partials[..n]));
    hide Renames, SameOracle, SameCursors, Ready, Deferrals, Ren, RenEvents;
  }

  lemma HandlerRenames(f: Renaming, g: Canvas, h: Canvas, o: Oracle, q: Oracle, i: nat, id: Id)
    requires Renames(f, g, h) && SameOracle(f, g, o, q) && id in g.cpns
    ensures SameHandler(f, Of(g, id).handler, Of(h, f(id)).handler)
    ensures Of(g, id).handler.Handler? ==> InCanvas(g, Of(g, id).handler.goto)
    ensures q(i, f(id)).errored == o(i, id).errored && q(i, f(id)).lazy == o(i, id).lazy
    ensures Diverts(h, q, i, f(id)) == Diverts(g, o, i, id)
    ensures Unhandled(h, q, i, f(id)) == Unhandled(g, o, i, id)
  {
    LookupRenames(f, g, h, id);
    hide NamedFillUp;
  }

  lemma ErrorRenames(f: Renaming, g: Canvas, h: Canvas, o: Oracle, q: Oracle, s: State, t: State, i: nat, id: Id)
    requires Renames(f, g, h) && SameOracle(f, g, o, q) && SameState(f, g, s, t) && id in g.cpns
    ensures SameState(f, g, ErrorStage(g, o, s, i, id), ErrorStage(h, q, t, i, f(id)))
  {
    hide Renames, SameOracle, SameCursors, Ren, RenEvents, Of, Diverts, Unhandled;
    HandlerRenames(f, g, h, o, q, i, id);
    NoteRenames(f, s.events, DefaultAnswer(id));
    var a := Of(g, id).handler;
    if a.Handler? {
      RenConcat(f, s.path, a.goto);
    }
  }

  lemma SameFacts(f: Renaming, g: Canvas, h: Canvas, o: Oracle, q: Oracle, i: nat, id: Id)
    requires Renames(f, g, h) && SameOracle(f, g, o, q) && id in g.cpns
    ensures q(i, f(id)).lazy == o(i, id).lazy && Of(h, f(id)).kind == Of(g, id).kind
  {
    LookupRenames(f, g, h, id);
    hide Renames;
  }

  lemma FinishRenames(f: Renaming, g: Canvas, h: Canvas, o: Oracle, q: Oracle, s: State, t: State, i: nat, id: Id)
    requires Renames(f, g, h) && SameOracle(f, g, o, q) && SameState(f, g, s, t) && id in g.cpns
    ensures SameState(f, g, FinishStage(g, o, s, i, id), FinishStage(h, q, t, i, f(id)))
  {
    hide Renames, SameOracle, SameCursors, Ren, RenEvents, Of;
    SameFacts(f, g, h, o, q, i, id);
    NoteRenames(f, s.events, NodeFinished(id, Direct));
    RenSnoc(f, s.partials, id);
  }

  lemma {:induction false} FirstItemRenames(f: Renaming, g: Canvas, h: Canvas, ids: seq<Id>, owner: Id)
    requires Renames(f, g, h) && InCanvas(g, ids) && owner in g.cpns
    ensures var a := FirstItem(g, ids, owner);
      FirstItem(h, Ren(f, ids), f(owner)) == if a.Some? then Some(f(a.value)) else None
  {
    if ids != [] {
      assert ids[0] in ids;
      LookupRenames(f, g, h, ids[0]);
      LookupRenames(f, g, h, owner);
      assert IsItemOf(h, f(owner), f(ids[0])) == IsItemOf(g, owner, ids[0]);
      hide Renames;
      FirstItemRenames(f, g, h, ids[1..], owner);
    }
  }

  lemma StartRenames(f: Renaming, g: Canvas, h: Canvas, owner: Id)
    requires Renames(f, g, h) && owner in g.cpns
    ensures Start(h, f(owner)).ToSeq() == Ren(f, Start(g, owner).ToSeq())
    ensures InCanvas(g, Start(g, owner).ToSeq())
  {
    FirstItemRenames(f, g, h, g.order, owner);
    CanvasTermination.StartIsAComponent(g, g.order, owner);
    hide FirstItem, NamedFillUp;
  }

  lemma EndsRename(f: Renaming, g: Canvas, h: Canvas, o: Oracle, q: Oracle, i: nat, id: Id, c: int)
    requires Renames(f, g, h) && SameOracle(f, g, o, q) && id in g.cpns
    ensures Ends(h, q, i, f(id), c) == Ends(g, o, i, id, c)
    ensures Ends(g, o, i, id, c) ==> IsItem(Of(g, id).kind)
  {
    LookupRenames(f, g, h, id);
    hide Renames;
  }

  lemma SuccessorsRename(f: Renaming, g: Canvas, h: Canvas, o: Oracle, q: Oracle, i: nat, id: Id, c: int)
    requires Renames(f, g, h) && SameOracle(f, g, o, q) && id in g.cpns
    ensures Successors(h, q, i, f(id), c) == Ren(f, Successors(g, o, i, id, c))
    ensures InCanvas(g, Successors(g, o, i, id, c))
  {
    hide Renames, SameOracle, Start, Of, Ends, Ren;
    ComponentRenames(f, g, h, o, q, i, id);
    EndsRename(f, g, h, o, q, i, id, c);
    StartRenames(f, g, h, id);
    var a := Of(g, id);
    if a.parent.Some? {
      ComponentRenames(f, g, h, o, q, i, a.parent.value);
      StartRenames(f, g, h, a.parent.value);
    }
  }

  /** What `Successors` reads of a component, under both names. */
  lemma ComponentRenames(f: Renaming, g: Canvas, h: Canvas, o: Oracle, q: Oracle, i: nat, id: Id)
    requires Renames(f, g, h) && SameOracle(f, g, o, q) && id in g.cpns
    ensures var a, b := Of(g, id), Of(h, f(id));
      && b.kind == a.kind
      && b.downstream == Ren(f, a.downstream) && InCanvas(g, a.downstream)
      && (b.downstream == [] <==> a.downstream == [])
      && b.parent == (if a.parent.Some? then Some(f(a.parent.value)) else None)
      && (a.parent.Some? ==> a.parent.value in g.cpns)
      && (IsItem(a.kind) || a.kind == ExitLoop ==> a.parent.Some?)
      && q(i, f(id)).next == Ren(f, o(i, id).next) && InCanvas(g, o(i, id).next)
  {
    LookupRenames(f, g, h, id);
    hide NamedFillUp;
  }

  lemma {:induction false} ExtendRenames(f: Renaming, g: Canvas, path: seq<Id>, ids: seq<Id>)
    requires InCanvas(g, path) && InCanvas(g, ids) && Injective(f, g)
    ensures ExtendPath(Ren(f, path), Ren(f, ids)) == Ren(f, ExtendPath(path, ids))
    ensures InCanvas(g, ExtendPath(path, ids))
    decreases |ids|
  {
    if ids != [] {
      var id := ids[0];
      assert id in ids;
      RenConcat(f, path, [id]);
      assert Ren(f, [id]) == [f(id)];
      if path != [] {
        RenAt(f, path, |path| - 1);
        assert path[|path| - 1] in path;
      }
      assert AppendPath(Ren(f, path), f(id)) == Ren(f, AppendPath(path, id));
      ExtendRenames(f, g, AppendPath(path, id), ids[1..]);
    }
  }

  lemma ExtendStageRenames(f: Renaming, g: Canvas, h: Canvas, o: Oracle, q: Oracle, s: State, t: State, i: nat, id: Id)
    requires Renames(f, g, h) && SameOracle(f, g, o, q) && SameState(f, g, s, t) && id in g.cpns
    ensures SameState(f, g, ExtendStage(g, o, s, i, id), ExtendStage(h, q, t, i, f(id)))
  {
    hide Renames, SameOracle, SameCursors, InCanvas, Successors, ExtendPath, Ren, RenEvents, Ends, Diverts, Of,
      CursorOf;
    var c := CursorOf(s.cursors, id);
    ExtendPiecesRename(f, g, h, o, q, s.path, i, id, c);
    CursorsRename(f, g, h, s.cursors, t.cursors, id);
    NoteRenames(f, s.events, NodeFinished(Of(g, id).parent.GetOr(""), Container));
  }

  lemma CursorsRename(f: Renaming, g: Canvas, h: Canvas, a: map<Id, int>, b: map<Id, int>, id: Id)
    requires Renames(f, g, h) && SameCursors(f, g, a, b) && id in g.cpns
    ensures SameCursors(f, g, a[id := -1], b[f(id) := -1])
    ensures CursorOf(b, f(id)) == CursorOf(a, id)
  {
    CursorsUpdate(f, g, a, b, id, -1);
  }

  lemma ExtendPiecesRename(
      f: Renaming, g: Canvas, h: Canvas, o: Oracle, q: Oracle, path: seq<Id>, i: nat, id: Id, c: int)
    requires Renames(f, g, h) && SameOracle(f, g, o, q) && InCanvas(g, path) && id in g.cpns
    ensures Diverts(h, q, i, f(id)) == Diverts(g, o, i, id)
    ensures Ends(h, q, i, f(id), c) == Ends(g, o, i, id, c)
    ensures Ends(g, o, i, id, c) ==> Of(h, f(id)).parent.GetOr("") == f(Of(g, id).parent.GetOr(""))
    ensures ExtendPath(Ren(f, path), Successors(h, q, i, f(id), c))
        == Ren(f, ExtendPath(path, Successors(g, o, i, id, c)))
    ensures InCanvas(g, ExtendPath(path, Successors(g, o, i, id, c)))
  {
    assert Injective(f, g);
    hide Renames, SameOracle, Successors, ExtendPath, Ren, Ends, Diverts, Of, Injective;
    ComponentRenames(f, g, h, o, q, i, id);
    EndsRename(f, g, h, o, q, i, id, c);
    SuccessorsRename(f, g, h, o, q, i, id, c);
    HandlerRenames(f, g, h, o, q, i, id);
    ExtendRenames(f, g, path, Successors(g, o, i, id, c));
  }

  lemma PostRenames(f: Renaming, g: Canvas, h: Canvas, o: Oracle, q: Oracle, s: State, t: State, i: nat, id: Id)
    requires Renames(f, g, h) && SameOracle(f, g, o, q) && SameState(f, g, s, t) && id in g.cpns
    ensures SameState(f, g, Post(g, o, s, i, id), Post(h, q, t, i, f(id)))
  {
    hide Renames, SameOracle, SameState, MessageStage, ErrorStage, FinishStage, ExtendStage;
    MessageRenames(f, g, h, o, q, s, t, i, id);
    var s1, t1 := MessageStage(g, o, s, i, id), MessageStage(h, q, t, i, f(id));
    ErrorRenames(f, g, h, o, q, s1, t1, i, id);
    var s2, t2 := ErrorStage(g, o, s1, i, id), ErrorStage(h, q, t1, i, f(id));
    FinishRenames(f, g, h, o, q, s2, t2, i, id);
    ExtendStageRenames(f, g, h, o, q, FinishStage(g, o, s2, i, id), FinishStage(h, q, t2, i, f(id)), i, id);
  }

  lemma {:induction false} PostAllRenames(
      f: Renaming, g: Canvas, h: Canvas, o: Oracle, q: Oracle, s: State, t: State, i: nat, batch: seq<Id>)
    requires Renames(f, g, h) && SameOracle(f, g, o, q) && SameState(f, g, s, t) && InCanvas(g, batch)
    ensures SameState(f, g, PostAll(g, o, s, i, batch), PostAll(h, q, t, i, Ren(f, batch)))
    decreases |batch|
  {
    hide Renames, SameOracle, SameState, Post;
    if batch != [] {
      PostRenames(f, g, h, o, q, s, t, i, batch[0]);
      assert Ren(f, batch)[0] == f(batch[0]) && Ren(f, batch)[1..] == Ren(f, batch[1..]);
      PostAllRenames(f, g, h, o, q, Post(g, o, s, i, batch[0]), Post(h, q, t, i, f(batch[0])), i + 1, batch[1..]);
    }
  }

  lemma {:induction false} FormsRename(f: Renaming, g: Canvas, h: Canvas, ids: seq<Id>, wanted: bool)
    requires Renames(f, g, h) && InCanvas(g, ids)
    ensures Forms(h, Ren(f, ids), wanted) == Ren(f, Forms(g, ids, wanted))
    ensures InCanvas(g, Forms(g, ids, wanted))
  {
    if ids != [] {
      assert ids[0] in ids;
      LookupRenames(f, g, h, ids[0]);
      assert IsForm(h, f(ids[0])) == IsForm(g, ids[0]);
      hide Renames, IsForm;
      FormsRename(f, g, h, ids[1..], wanted);
      var kept := Forms(g, ids[1..], wanted);
      assert Ren(f, [ids[0]] + kept) == [f(ids[0])] + Ren(f, kept);
    }
  }

  lemma SlicesRename(f: Renaming, g: Canvas, path: seq<Id>, n: nat)
    requires InCanvas(g, path)
    ensures Drop(Ren(f, path), n) == Ren(f, Drop(path, n)) && InCanvas(g, Drop(path, n))
    ensures Take(Ren(f, path), n) == Ren(f, Take(path, n)) && InCanvas(g, Take(path, n))
  {
    if n <= |path| {
      RenSlices(f, path, n);
    }
  }

  lemma FormsFirstRenames(f: Renaming, g: Canvas, h: Canvas, ids: seq<Id>)
    requires Renames(f, g, h) && InCanvas(g, ids)
    ensures FormsFirst(h, Ren(f, ids)) == Ren(f, FormsFirst(g, ids)) && InCanvas(g, FormsFirst(g, ids))
    ensures Forms(h, Ren(f, ids), true) == [] <==> Forms(g, ids, true) == []
  {
    hide Renames, Forms, Ren;
    FormsRename(f, g, h, ids, true);
    FormsRename(f, g, h, ids, false);
    RenConcat(f, Forms(g, ids, true), Forms(g, ids, false));
  }

  lemma ConcludeRenames(f: Renaming, g: Canvas, h: Canvas, s: State, t: State, upto: nat)
    requires Renames(f, g, h) && SameState(f, g, s, t)
    ensures SameState(f, g, Conclude(g, s, upto), Conclude(h, t, upto))
  {
    hide Renames, SameCursors, RenEvents, Forms, Ren, FormsFirst;
    SlicesRename(f, g, s.path, s.idx);
    SlicesRename(f, g, s.path, upto);
    FormsFirstRenames(f, g, h, Drop(s.path, upto));
  }

  lemma {:induction false} StepRenames(f: Renaming, g: Canvas, h: Canvas, o: Oracle, q: Oracle, s: State, t: State)
    requires Renames(f, g, h) && SameOracle(f, g, o, q) && SameState(f, g, s, t) && Live(s)
    ensures Live(t) && SameState(f, g, Step(g, o, s), Step(h, q, t))
  {
    hide Renames, SameOracle, SameCursors, Kept, Launch, PostAll, Conclude, RenEvents, Ren;
    var batch := Batch(g, s);
    RenSlices(f, s.path, s.idx);
    KeptRenames(f, g, h, s.path[..s.idx], s.path[s.idx..]);
    assert Batch(h, t) == Ren(f, batch);
    LaunchRenames(f, g, h, o, q, s, t, batch);
    var s1, t1 := Launch(g, o, s, batch), Launch(h, q, t, Ren(f, batch));
    PostAllRenames(f, g, h, o, q, s1, t1, s.idx, batch);
    ConcludeRenames(f, g, h, PostAll(g, o, s1, s.idx, batch), PostAll(h, q, t1, s.idx, Ren(f, batch)), s.idx + |batch|);
  }

  /** Runs commute with renaming: path, launches, events, queue, cursors and outcome of the renamed canvas
      are those of the original under the new names, after every number of batches. */
  lemma {:induction false} RunsCommuteWithRenaming(
      f: Renaming, g: Canvas, h: Canvas, o: Oracle, q: Oracle, s: State, t: State, n: nat)
    requires Renames(f, g, h) && SameOracle(f, g, o, q) && SameState(f, g, s, t)
    ensures SameState(f, g, Steps(g, o, s, n), Steps(h, q, t, n))
    decreases n
  {
    hide Renames, SameOracle, Step;
    if n > 0 && Live(s) {
      StepRenames(f, g, h, o, q, s, t);
      RunsCommuteWithRenaming(f, g, h, o, q, Step(g, o, s), Step(h, q, t), n - 1);
    } else {
      assert Live(t) == Live(s);
    }
  }

  lemma ResumesRenames(f: Renaming, g: Canvas, h: Canvas, path: seq<Id>)
    requires Renames(f, g, h) && InCanvas(g, path)
    ensures Resumes(Ren(f, path)) == Resumes(path)
  {
    hide NamedFillUp, SameComponent, Injective, Closed;
    if path != [] {
      RenAt(f, path, |path| - 1);
      assert path[|path| - 1] in path;
    }
  }

  lemma RenSnoc(f: Renaming, path: seq<Id>, id: Id)
    ensures Ren(f, path + [id]) == Ren(f, path) + [f(id)]
  {
    RenConcat(f, path, [id]);
    assert Ren(f, [id]) == [f(id)];
  }

  lemma NoEvents(f: Renaming)
    ensures RenEvents(f, []) == [] && Ren(f, []) == []
  {
  }

  lemma BegunRenames(
      f: Renaming, g: Canvas, h: Canvas, o: Oracle, q: Oracle, path: seq<Id>, a: map<Id, int>, b: map<Id, int>)
    requires Renames(f, g, h) && SameOracle(f, g, o, q) && SameCursors(f, g, a, b)
    requires InCanvas(g, path) && "begin" in g.cpns && f("begin") == "begin"
    ensures SameState(f, g, Begun(path, a), Begun(Ren(f, path), b))
  {
    hide SameOracle, SameCursors, Renames, Resumes, RenEvents, Ren;
    ResumesRenames(f, g, h, path);
    RenSnoc(f, path, "begin");
    NoEvents(f);
  }

  /** In particular a whole call of `run` does, from the path and cursors the canvas holds. */
  lemma RenamedRun(
      f: Renaming, g: Canvas, h: Canvas, o: Oracle, q: Oracle, path: seq<Id>, a: map<Id, int>, b: map<Id, int>,
      n: nat)
    requires Renames(f, g, h) && SameOracle(f, g, o, q) && SameCursors(f, g, a, b)
    requires InCanvas(g, path) && "begin" in g.cpns && f("begin") == "begin"
    ensures SameState(f, g, Steps(g, o, Begun(path, a), n), Steps(h, q, Begun(Ren(f, path), b), n))
  {
    BegunRenames(f, g, h, o, q, path, a, b);
    hide *;
    RunsCommuteWithRenaming(f, g, h, o, q, Begun(path, a), Begun(Ren(f, path), b), n);
  }
}
