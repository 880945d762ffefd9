/** What every run of the scheduler keeps: the account of launches, the dependency rule, the
    shape a failed or paused run leaves behind, and staying inside the canvas. */
module CanvasSafety {
  import opened Common
  import opened CanvasModel

  // ---------- One batch ----------

  /** Every member of `batch` finds its references scheduled earlier when the batch follows `done`. */
  ghost predicate Satisfied(g: Canvas, done: seq<Id>, batch: seq<Id>) {
    forall i :: 0 <= i < |batch| ==> !Blocked(g, done + batch[..i], batch[i])
  }

  lemma {:induction false} SatisfiedCons(g: Canvas, done: seq<Id>, id: Id, rest: seq<Id>)
    requires !Blocked(g, done, id)
    requires Satisfied(g, done + [id], rest)
    ensures Satisfied(g, done, [id] + rest)
  {
    hide Blocked;
    var all := [id] + rest;
    forall i | 0 <= i < |all| ensures !Blocked(g, done + all[..i], all[i]) {
      if i == 0 {
        assert done + all[..0] == done;
      } else {
        assert done + all[..i] == (done + [id]) + rest[..i - 1];
      }
    }
  }

  lemma {:induction false} SatisfiedAppend(g: Canvas, done: seq<Id>, a: seq<Id>, b: seq<Id>)
    requires Satisfied(g, done, a) && Satisfied(g, done + a, b)
    ensures Satisfied(g, done, a + b)
  {
    hide Blocked;
    forall i | 0 <= i < |a + b| ensures !Blocked(g, done + (a + b)[..i], (a + b)[i]) {
      if i < |a| {
        assert (a + b)[..i] == a[..i];
      } else {
        assert done + (a + b)[..i] == (done + a) + b[..i - |a|];
      }
    }
  }

  /** What is launched has its references scheduled earlier. */
  lemma {:induction false} KeptIsSatisfied(g: Canvas, done: seq<Id>, pending: seq<Id>)
    ensures Satisfied(g, done, Kept(g, done, pending))
    decreases |pending|
  {
    hide Blocked;
    if pending == [] {
    } else if Blocked(g, done, pending[0]) {
      KeptIsSatisfied(g, done, pending[1..]);
    } else {
      KeptIsSatisfied(g, done + [pending[0]], pending[1..]);
      SatisfiedCons(g, done, pending[0], Kept(g, done + [pending[0]], pending[1..]));
    }
  }

  /** A batch is launched whole exactly when nothing in it waits for a later entry. */
  lemma {:induction false} KeptWhole(g: Canvas, done: seq<Id>, pending: seq<Id>)
    ensures Kept(g, done, pending) == pending <==> Satisfied(g, done, pending)
    ensures |Kept(g, done, pending)| <= |pending|
    decreases |pending|
  {
    KeptIsSatisfied(g, done, pending);
    hide Blocked;
    if pending == [] {
    } else if Blocked(g, done, pending[0]) {
      KeptWhole(g, done, pending[1..]);
      assert done + pending[..0] == done;
    } else {
      var id, rest := pending[0], pending[1..];
      KeptWhole(g, done + [id], rest);
      assert pending == [id] + rest;
      if Satisfied(g, done, pending) {
        forall i | 0 <= i < |rest| ensures !Blocked(g, (done + [id]) + rest[..i], rest[i]) {
          assert done + pending[..i + 1] == (done + [id]) + rest[..i];
          assert pending[i + 1] == rest[i];
        }
      }
    }
  }

  lemma {:induction false} PostAllFrame(g: Canvas, o: Oracle, s: State, i: nat, batch: seq<Id>)
    ensures var r := PostAll(g, o, s, i, batch);
      s.path <= r.path && r.idx == s.idx && r.launched == s.launched && r.status == s.status
    decreases |batch|
  {
    if batch != [] {
      PostFrame(g, o, s, i, batch[0]);
      hide Post;
      PostAllFrame(g, o, Post(g, o, s, i, batch[0]), i + 1, batch[1..]);
    }
  }

  /** Everything one turn does to path, position and log. */
  lemma {:induction false} StepShape(g: Canvas, o: Oracle, s: State)
    requires Live(s)
    ensures var batch := Batch(g, s);
      var end := PostAll(g, o, Launch(g, o, s, batch), s.idx, batch);
      var r := Step(g, o, s);
      && s.path[..s.idx] + batch <= end.path
      && r.launched == s.launched + batch
      && (r.status == Running ==> !end.error && r.path == end.path && r.idx == s.idx + |batch|)
      && (r.status == Failed ==> end.error && r.path == s.path[..s.idx] && r.idx == s.idx)
      && (r.status == Paused ==> !end.error && r.path == FormsFirst(g, end.path[s.idx + |batch|..]))
  {
    hide Kept, Invoke, Starts, Post;
    var batch := Batch(g, s);
    var s1 := Launch(g, o, s, batch);
    PostAllFrame(g, o, s1, s.idx, batch);
    hide PostAll;
    var end := PostAll(g, o, s1, s.idx, batch);
    assert end.path[..s.idx] == s.path[..s.idx];
  }

  // ---------- Whole runs ----------

  /** The account a run started in `s0` keeps in `s`: while it runs, the launches are the path between
      the start and `idx`; a failed run kept the launches before its last batch. */
  ghost predicate Accounted(s0: State, s: State)
    requires s0.idx <= |s0.path|
  {
    && (s.status == Running ==>
          && s0.idx <= s.idx <= |s.path|
          && s.path[..s.idx] == s0.path[..s0.idx] + s.launched)
    && (s.status == Failed ==>
          && s0.idx <= |s.path| == s.idx
          && s0.path[..s0.idx] <= s.path
          && s.path <= s0.path[..s0.idx] + s.launched)
  }

  /** The dependency rule over everything launched since `s0`. */
  ghost predicate DependencySafe(g: Canvas, s0: State, s: State)
    requires s0.idx <= |s0.path|
  {
    Satisfied(g, s0.path[..s0.idx], s.launched)
  }

  /** The account survives a turn that launched `batch` and ended in `r`. */
  lemma AccountAdvances(s0: State, s: State, batch: seq<Id>, r: State, grown: seq<Id>)
    requires s0.idx <= |s0.path| && s.status == Running && s.idx <= |s.path|
    requires Accounted(s0, s)
    requires r.launched == s.launched + batch && s.path[..s.idx] + batch <= grown
    requires r.status == Running ==> r.path == grown && r.idx == s.idx + |batch|
    requires r.status == Failed ==> r.path == s.path[..s.idx] && r.idx == s.idx
    ensures Accounted(s0, r)
  {
    assert (s0.path[..s0.idx] + s.launched) + batch == s0.path[..s0.idx] + r.launched;
    if r.status == Running {
      assert r.path[..r.idx] == s.path[..s.idx] + batch;
    }
  }

  lemma {:induction false} StepKeeps(g: Canvas, o: Oracle, s0: State, s: State)
    requires s0.idx <= |s0.path| && Live(s)
    requires Accounted(s0, s) && DependencySafe(g, s0, s)
    ensures Accounted(s0, Step(g, o, s)) && DependencySafe(g, s0, Step(g, o, s))
    ensures s.launched <= Step(g, o, s).launched
  {
    hide Step, PostAll, Kept, Blocked, Launch, Satisfied;
    var batch := Batch(g, s);
    var done := s0.path[..s0.idx];
    StepShape(g, o, s);
    AccountAdvances(s0, s, batch, Step(g, o, s), PostAll(g, o, Launch(g, o, s, batch), s.idx, batch).path);
    KeptIsSatisfied(g, s.path[..s.idx], s.path[s.idx..]);
    SatisfiedAppend(g, done, s.launched, batch);
  }

  /** `s` is a failed or paused state that the turn from `last` ended in.  A failure leaves exactly what was executed
      before its batch; a pause leaves the entries that were pending behind everything launched, forms first. */
  ghost predicate EndedIn(g: Canvas, o: Oracle, s0: State, last: State, s: State)
    requires s0.idx <= |s0.path|
  {
    && Live(last) && Accounted(s0, last) && s == Step(g, o, last)
    && s.launched == last.launched + Batch(g, last)
    && (s.status == Failed ==> s.path == s0.path[..s0.idx] + last.launched)
    && (s.status == Paused ==>
          exists pending: seq<Id> ::
            && s0.path[..s0.idx] + s.launched + pending
              == PostAll(g, o, Launch(g, o, last, Batch(g, last)), last.idx, Batch(g, last)).path
            && s.path == FormsFirst(g, pending))
  }

  lemma TurnEnds(g: Canvas, o: Oracle, s0: State, s: State)
    requires s0.idx <= |s0.path| && Live(s) && Accounted(s0, s)
    ensures Step(g, o, s).status != Running ==> EndedIn(g, o, s0, s, Step(g, o, s))
  {
    hide Step, PostAll, Kept, Blocked, Launch, Batch, FormsFirst;
    StepShape(g, o, s);
    var batch, r := Batch(g, s), Step(g, o, s);
    var end := PostAll(g, o, Launch(g, o, s, batch), s.idx, batch).path;
    var done := s0.path[..s0.idx] + s.launched;
    assert s.path[..s.idx] == done;
    var pending := end[s.idx + |batch|..];
    assert end == done + batch + pending;
    assert done + batch == s0.path[..s0.idx] + r.launched;
  }

  lemma {:induction false} RunEnds(g: Canvas, o: Oracle, s0: State, s: State, n: nat) returns (last: State)
    requires s0.idx <= |s0.path| && s.status == Running && Accounted(s0, s) && DependencySafe(g, s0, s)
    ensures Steps(g, o, s, n).status != Running ==> EndedIn(g, o, s0, last, Steps(g, o, s, n))
    decreases n
  {
    hide Step, Accounted, DependencySafe, EndedIn;
    last := s;
    if n > 0 && Live(s) {
      StepKeeps(g, o, s0, s);
      var r := Step(g, o, s);
      if r.status == Running {
        last := RunEnds(g, o, s0, r, n - 1);
      } else {
        TurnEnds(g, o, s0, s);
        assert Steps(g, o, r, n - 1) == r;
      }
    }
  }

  /** Path accounting and dependency safety for every run, from wherever it starts: the launched ids
      are exactly the path between the start and `idx`, each position once and in order; every one of
      them had its references scheduled earlier; a failed run kept exactly what was launched before the
      failing batch, and a paused one what was pending. */
  lemma {:induction false} RunIsSafe(g: Canvas, o: Oracle, path: seq<Id>, cursors: map<Id, int>, n: nat)
    ensures var s0 := Begun(path, cursors);
      var s := Steps(g, o, s0, n);
      && Accounted(s0, s) && DependencySafe(g, s0, s)
      && (s.status != Running ==> exists last :: EndedIn(g, o, s0, last, s))
  {
    var s0 := Begun(path, cursors);
    assert s0.path[..s0.idx] + [] == s0.path[..s0.idx];
    hide Steps, EndedIn;
    StepsKeep(g, o, s0, s0, n);
    var last := RunEnds(g, o, s0, s0, n);
  }

  lemma {:induction false} StepsKeep(g: Canvas, o: Oracle, s0: State, s: State, n: nat)
    requires s0.idx <= |s0.path|
    requires Accounted(s0, s) && DependencySafe(g, s0, s)
    ensures Accounted(s0, Steps(g, o, s, n)) && DependencySafe(g, s0, Steps(g, o, s, n))
    ensures s.launched <= Steps(g, o, s, n).launched
    decreases n
  {
    hide Step, Accounted, DependencySafe;
    if n > 0 && Live(s) {
      StepKeeps(g, o, s0, s);
      StepsKeep(g, o, s0, Step(g, o, s), n - 1);
    }
  }

  /** The prefix the run found plus everything it launched: the path as the dependency test saw it. */
  function Executed(s0: State, s: State): seq<Id>
    requires s0.idx <= |s0.path|
  {
    s0.path[..s0.idx] + s.launched
  }

  /** The rule in the words of the source: in a run whose path does not begin with a user form, every
      launched component that is not Begin or UserFillUp has all its references strictly earlier. */
  lemma DependenciesComeFirst(g: Canvas, o: Oracle, path: seq<Id>, cursors: map<Id, int>, n: nat, i: nat)
    requires var s0 := Begun(path, cursors);
      var executed := Executed(s0, Steps(g, o, s0, n));
      && s0.idx <= i < |executed|
      && !NamedFillUp(executed[0])
      && Of(g, executed[i]).kind != Begin && Of(g, executed[i]).kind != UserFillUp
    ensures var executed := Executed(Begun(path, cursors), Steps(g, o, Begun(path, cursors), n));
      Of(g, executed[i]).refs <= Members(executed[..i])
  {
    RunIsSafe(g, o, path, cursors, n);
    hide Steps;
    var s0 := Begun(path, cursors);
    var launched := Steps(g, o, s0, n).launched;
    var executed := Executed(s0, Steps(g, o, s0, n));
    var k := i - s0.idx;
    assert !Blocked(g, s0.path[..s0.idx] + launched[..k], launched[k]);
    assert executed[..i] == s0.path[..s0.idx] + launched[..k];
  }
}
