/** `Canvas.run` as the imperative scheduler it is, proved equal, method by method, to the
    functions of `CanvasModel`. */
module CanvasRun {
  import opened Common
  import opened CanvasModel

  /** The fields of the canvas and the locals of one call of `run`. */
  class Scheduler {
    const g: Canvas
    var path: seq<Id>
    var idx: nat
    var error: bool
    var partials: seq<Id>
    var cursors: map<Id, int>
    var events: seq<Event>
    var launched: seq<Id>
    var status: Status

    function Snapshot(): State
      reads this
    {
      State(path, idx, error, partials, cursors, events, launched, status)
    }

    /** Entering `run` with the path and item cursors a previous call left behind. */
    constructor (g: Canvas, path: seq<Id>, cursors: map<Id, int>)
      ensures this.g == g
      ensures Snapshot() == Begun(path, cursors)
    {
      this.g := g;
      var p := path;
      if p == [] || !NamedFillUp(p[|p| - 1]) {
        p := p + ["begin"];
      }
      this.path := p;
      idx := |p| - 1;
      error := false;
      partials := [];
      this.cursors := cursors;
      events := [];
      launched := [];
      status := Running;
    }

    /** Announces the batch: one `node_started` for each entry, dropped ones included. */
    method Announce(upto: nat)
      requires idx <= upto == |path|
      modifies this`events
      ensures Snapshot() == old(Snapshot()).(events := old(events) + Starts(path[idx..]))
    {
      var i := idx;
      while i < upto
        invariant idx <= i <= upto
        invariant events + Starts(path[i..]) == old(events) + Starts(path[idx..])
      {
        events := events + [NodeStarted(path[i])];
        assert path[i..] == [path[i]] + path[i + 1..];
        i := i + 1;
      }
    }

    /** `_run_batch(f, t)`: pop what is blocked, create a task for the rest, then await the tasks. */
    method RunBatch(o: Oracle, f: nat, t: nat)
      requires f <= t == |path|
      modifies this`path, this`cursors, this`launched
      ensures var batch := Kept(g, old(path)[..f], old(path)[f..]);
        Snapshot() == old(Snapshot()).(path := old(path)[..f] + batch,
                                       cursors := Invoke(g, o, old(cursors), batch, f),
                                       launched := old(launched) + batch)
    {
      hide Invoke;
      var tasks := CreateTasks(f, t);
      launched := launched + tasks;
      Await(o, tasks, f);
    }

    method CreateTasks(f: nat, t: nat) returns (tasks: seq<Id>)
      requires f <= t == |path|
      modifies this`path
      ensures tasks == Kept(g, old(path)[..f], old(path)[f..])
      ensures path == old(path)[..f] + tasks
    {
      hide Blocked;
      var i, end := f, t;
      tasks := [];
      ghost var done, rest := path[..f], path[f..];
      while i < end
        invariant path == done + rest && |done| == i && end == |path|
        invariant done == old(path)[..f] + tasks
        invariant tasks + Kept(g, done, rest) == Kept(g, old(path)[..f], old(path)[f..])
        decreases end - i
      {
        assert path[i] == rest[0] && path[..i] == done;
        if Blocked(g, path[..i], path[i]) {
          assert path[..i] + path[i + 1..] == done + rest[1..];
          path := path[..i] + path[i + 1..];
          end := end - 1;
        } else {
          tasks := tasks + [path[i]];
          assert done + rest == (done + [rest[0]]) + rest[1..];
          done := done + [rest[0]];
          i := i + 1;
        }
        rest := rest[1..];
      }
      assert rest == [] && tasks + [] == tasks;
    }

    /** The tasks run; which order they are served in does not matter, each item moves its own cursor. */
    method Await(o: Oracle, tasks: seq<Id>, f: nat)
      modifies this`cursors
      ensures cursors == Invoke(g, o, old(cursors), tasks, f)
    {
      var k := 0;
      assert tasks[0..] == tasks;
      while k < |tasks|
        invariant 0 <= k <= |tasks|
        invariant Invoke(g, o, cursors, tasks[k..], f + k) == Invoke(g, o, old(cursors), tasks, f)
      {
        assert tasks[k..][0] == tasks[k] && tasks[k..][1..] == tasks[k + 1..];
        if IsItem(Of(g, tasks[k]).kind) {
          cursors := cursors[tasks[k] := StepCursor(g, o, f + k, tasks[k], CursorOf(cursors, tasks[k]))];
        }
        k := k + 1;
      }
    }

    /** `_append_path`. */
    method AppendTo(otherBranch: bool, id: Id)
      requires path != []
      modifies this`path
      ensures Snapshot() == old(Snapshot()).(path := if otherBranch then old(path) else AppendPath(old(path), id))
    {
      if otherBranch { return; }
      if path[|path| - 1] == id { return; }
      path := path + [id];
    }

    /** `_extend_path`. */
    method ExtendBy(otherBranch: bool, ids: seq<Id>)
      requires path != []
      modifies this`path
      ensures Snapshot() == old(Snapshot()).(path := if otherBranch then old(path) else ExtendPath(old(path), ids))
    {
      if otherBranch { return; }
      var k := 0;
      while k < |ids|
        invariant 0 <= k <= |ids|
        invariant path != []
        invariant ExtendPath(path, ids[k..]) == ExtendPath(old(path), ids)
      {
        assert ids[k..][0] == ids[k] && ids[k..][1..] == ids[k + 1..];
        AppendTo(false, ids[k]);
        k := k + 1;
      }
    }

    /** Reports queued components, oldest first, until one is still lazy. */
    method ReleasePartials(resolved: set<Id>)
      modifies this`partials, this`events
      ensures Snapshot() == Release(old(Snapshot()), resolved)
    {
      ghost var n := 0;
      while partials != []
        invariant n <= |old(partials)| && partials == old(partials)[n..]
        invariant events == old(events) + Deferrals(old(partials)[..n])
        invariant n + Ready(partials, resolved) == Ready(old(partials), resolved)
        decreases |partials|
      {
        if partials[0] !in resolved { break; }
        DeferralsSnoc(old(partials)[..n], partials[0]);
        assert old(partials)[..n + 1] == old(partials)[..n] + [partials[0]];
        events := events + [NodeFinished(partials[0], Deferred)];
        partials := partials[1..];
        n := n + 1;
      }
    }

    /** The message part of post-processing: the answer ends and the queue drains. */
    method FinishMessage(o: Oracle, i: nat, id: Id)
      modifies this`partials, this`events
      ensures Snapshot() == MessageStage(g, o, old(Snapshot()), i, id)
    {
      if Of(g, id).kind == Message {
        events := events + [MessageEnd(id)];
        ReleasePartials(o(i, id).resolved);
      }
    }

    /** The error part: take the handler's branch, answer with its default, or record the error. */
    method HandleError(o: Oracle, i: nat, id: Id) returns (otherBranch: bool)
      modifies this`path, this`error, this`events
      ensures Snapshot() == ErrorStage(g, o, old(Snapshot()), i, id)
      ensures otherBranch == Diverts(g, o, i, id)
      ensures old(path) <= path
    {
      otherBranch := false;
      if o(i, id).errored {
        var handler := Of(g, id).handler;
        if handler.Handler? && handler.goto != [] {
          path := path + handler.goto;
          otherBranch := true;
        } else if handler.Handler? && handler.hasDefault {
          events := events + [DefaultAnswer(id)];
        } else {
          error := true;
        }
      }
    }

    /** The `node_finished` part: containers wait, lazy content is queued, the rest is reported. */
    method ReportFinished(o: Oracle, i: nat, id: Id)
      modifies this`partials, this`events
      ensures Snapshot() == FinishStage(g, o, old(Snapshot()), i, id)
    {
      if !IsContainer(Of(g, id).kind) {
        if o(i, id).lazy && Of(g, id).kind != Message && !error {
          partials := partials + [id];
        } else {
          events := events + [NodeFinished(id, Direct)];
        }
      }
    }

    /** The branch that decides what is appended to the path. */
    method Continue(o: Oracle, i: nat, id: Id, otherBranch: bool)
      requires path != []
      requires otherBranch == Diverts(g, o, i, id)
      modifies this`path, this`cursors, this`events
      ensures Snapshot() == ExtendStage(g, o, old(Snapshot()), i, id)
    {
      var cpn := Of(g, id);
      var cursor := CursorOf(cursors, id);
      if IsItem(cpn.kind) && (cursor == -1 || (cpn.kind == LoopItem && o(i, id).condsHold)) {
        cursors := cursors[id := -1];
        var owner := cpn.parent.GetOr("");
        events := events + [NodeFinished(owner, Container)];
        ExtendBy(otherBranch, Of(g, owner).downstream);
      } else if cpn.kind == Categorize || cpn.kind == Switch {
        ExtendBy(otherBranch, o(i, id).next);
      } else if IsContainer(cpn.kind) {
        ExtendBy(otherBranch, Start(g, id).ToSeq());
      } else if cpn.kind == ExitLoop && Of(g, cpn.parent.GetOr("")).kind == Loop {
        ExtendBy(otherBranch, Of(g, cpn.parent.GetOr("")).downstream);
      } else if cpn.downstream == [] && cpn.parent.Some? {
        ExtendBy(otherBranch, Start(g, cpn.parent.value).ToSeq());
      } else {
        ExtendBy(otherBranch, cpn.downstream);
      }
    }

    /** The body of the post-processing loop for position `i`. */
    method PostProcess(o: Oracle, i: nat)
      requires i < |path|
      modifies this`path, this`error, this`partials, this`cursors, this`events
      ensures Snapshot() == Post(g, o, old(Snapshot()), i, old(path)[i])
    {
      hide MessageStage, ErrorStage, FinishStage, ExtendStage;
      var id := path[i];
      FinishMessage(o, i, id);
      var otherBranch := HandleError(o, i, id);
      ReportFinished(o, i, id);
      Continue(o, i, id, otherBranch);
    }

    /** Post-processes the positions of the batch that was just awaited. */
    method PostBatch(o: Oracle, ghost batch: seq<Id>)
      requires idx + |batch| == |path| && path[idx..] == batch
      modifies this`path, this`error, this`partials, this`cursors, this`events
      ensures Snapshot() == PostAll(g, o, old(Snapshot()), idx, batch)
      ensures old(path) <= path
    {
      hide Post;
      var i, upto := idx, |path|;
      assert batch[0..] == batch;
      while i < upto
        invariant idx <= i <= upto == |old(path)|
        invariant old(path) <= path
        invariant PostAll(g, o, Snapshot(), i, batch[i - idx..]) == PostAll(g, o, old(Snapshot()), idx, batch)
      {
        assert batch[i - idx..][0] == path[i] && batch[i - idx..][1..] == batch[i + 1 - idx..];
        PostFrame(g, o, Snapshot(), i, path[i]);
        PostProcess(o, i);
        i := i + 1;
      }
    }

    /** One turn of the main loop. */
    method Turn(o: Oracle)
      requires Live(Snapshot())
      modifies this
      ensures Snapshot() == Step(g, o, old(Snapshot()))
    {
      hide PostAll, Kept, Invoke, Starts;
      ghost var s := Snapshot();
      ghost var batch := Batch(g, s);
      Announce(|path|);
      RunBatch(o, idx, |path|);
      assert Snapshot() == Launch(g, o, s, batch);
      var upto := |path|;
      PostBatch(o, batch);
      if error {
        path := path[..idx];
        status := Failed;
        return;
      }
      idx := upto;
      var forms := Pending(true);
      if forms != [] {
        var others := Pending(false);
        path := forms + others;
        status := Paused;
      }
    }

    /** The entries of `path[idx..]` that are, or are not, user forms. */
    method Pending(wanted: bool) returns (r: seq<Id>)
      requires idx <= |path|
      ensures r == Forms(g, path[idx..], wanted)
    {
      r := [];
      var i := idx;
      while i < |path|
        invariant idx <= i <= |path|
        invariant r + Forms(g, path[i..], wanted) == Forms(g, path[idx..], wanted)
      {
        assert path[i..][0] == path[i] && path[i..][1..] == path[i + 1..];
        if IsForm(g, path[i]) == wanted {
          assert r + ([path[i]] + Forms(g, path[i + 1..], wanted)) == r + [path[i]] + Forms(g, path[i + 1..], wanted);
          r := r + [path[i]];
        }
        i := i + 1;
      }
    }

    /** The main loop, for at most `fuel` turns (cyclic canvases need not stop). */
    method Run(o: Oracle, fuel: nat)
      requires status == Running
      modifies this
      ensures Snapshot() == Steps(g, o, old(Snapshot()), fuel)
    {
      hide Step;
      var left: nat := fuel;
      while left > 0 && status == Running && idx < |path|
        invariant Steps(g, o, Snapshot(), left) == Steps(g, o, old(Snapshot()), fuel)
      {
        Turn(o);
        left := left - 1;
      }
    }
  }

  lemma DeferralsSnoc(ids: seq<Id>, id: Id)
    ensures Deferrals(ids + [id]) == Deferrals(ids) + [NodeFinished(id, Deferred)]
  {
    if ids != [] {
      assert (ids + [id])[1..] == ids[1..] + [id];
      DeferralsSnoc(ids[1..], id);
    }
  }
}
