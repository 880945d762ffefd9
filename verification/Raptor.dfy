/** RAPTOR: layers of summaries over a chunk list that concurrent tasks append to. */
module Raptor {
  import opened Common

  datatype Chunk = Chunk(text: string, embedding: seq<real>)
  datatype Input = Input(text: string, embedding: Option<seq<real>>)

  datatype Failure = Aborted | Canceled | NoClusterCount | NoLabel | EmptyCluster | CountMismatch

  /** What one summary request ends in: a chunk, an error, or the cancellation exception. */
  datatype Reply = Summary(chunk: Chunk) | Failed | Cancel

  /** `_max_cluster` and `_max_errors`, which is at least 1. */
  datatype Settings = Settings(maxCluster: int, maxErrors: nat)

  /** What the clustering libraries and the event loop decide for one layer: the number of clusters, for every
      chunk the first cluster above the threshold, the order in which the tasks get to run, and whether the
      cancellation flag is seen before the tasks are started. */
  datatype Plan = Plan(clusters: nat, labels: seq<Option<nat>>, schedule: seq<nat>, canceled: bool)

  /** `plan(k, size)` is used for layer `k` when it has `size` chunks; `ask(k, c, texts)` answers cluster `c` of
      layer `k`. */
  datatype World = World(plan: (nat, nat) -> Plan, ask: (nat, nat, seq<string>) -> Reply)

  function Min(a: int, b: int): int { if a < b then a else b }

  /** The libraries keep to the range `_get_optimal_clusters` searches and label every chunk. */
  ghost predicate Honest(e: Settings, w: World) {
    forall k: nat, size: nat :: size >= 3 && e.maxCluster >= 2 ==> HonestPlan(e, size, w.plan(k, size))
  }

  ghost predicate HonestPlan(e: Settings, size: nat, p: Plan) {
    && 1 <= p.clusters < Min(e.maxCluster, size)
    && |p.labels| == size
    && forall l <- p.labels :: l.Some? ==> l.value < p.clusters
  }

  // ---------- Clusters ----------

  /** The chunk positions labelled `c`. */
  function Cluster(labels: seq<Option<nat>>, c: nat, start: nat): seq<nat>
    decreases |labels|
  {
    if labels == [] then []
    else (if labels[0] == Some(c) then [start] else []) + Cluster(labels[1..], c, start + 1)
  }

  function LabelsOf(p: Plan, size: nat): seq<Option<nat>> {
    if p.clusters == 1 then seq(size, _ => Some(0)) else p.labels
  }

  function AllClusters(labels: seq<Option<nat>>, n: nat, start: nat): seq<seq<nat>> {
    seq(n, c requires 0 <= c < n => Cluster(labels, c, start))
  }

  datatype Decision = Split(clusters: seq<seq<nat>>) | Stop(failure: Failure)

  /** The clusters of a layer of `size` chunks from `start` on. */
  function Decide(e: Settings, p: Plan, start: nat, size: nat): Decision {
    if p.canceled then Stop(Canceled)
    else if size == 2 then Split([[start, start + 1]])
    else if Min(e.maxCluster, size) <= 1 then Stop(NoClusterCount)
    else if None in LabelsOf(p, size) then Stop(NoLabel)
    else if [] in AllClusters(LabelsOf(p, size), p.clusters, start) then Stop(EmptyCluster)
    else Split(AllClusters(LabelsOf(p, size), p.clusters, start))
  }

  // ---------- The tasks of one layer ----------

  datatype Task = Created | Asked(texts: seq<string>) | Ended(got: Option<Chunk>)

  datatype Crew = Crew(chunks: seq<Chunk>, errors: nat, tasks: seq<Task>, stop: Option<Failure>)

  /** Every position of every cluster lies below `end`. */
  ghost predicate Below(clusters: seq<seq<nat>>, end: nat) {
    forall c, i :: 0 <= c < |clusters| && 0 <= i < |clusters[c]| ==> clusters[c][i] < end
  }

  function Texts(chunks: seq<Chunk>, cluster: seq<nat>): seq<string>
    requires forall i :: 0 <= i < |cluster| ==> cluster[i] < |chunks|
  {
    seq(|cluster|, i requires 0 <= i < |cluster| => chunks[cluster[i]].text)
  }

  /** Task `c` runs until it waits again: it reads its cluster's texts, or it takes its reply. */
  function Move(e: Settings, w: World, k: nat, clusters: seq<seq<nat>>, s: Crew, c: nat): Crew
    requires |s.tasks| == |clusters| && Below(clusters, |s.chunks|)
  {
    if s.stop.Some? || c >= |s.tasks| then s
    else
      match s.tasks[c]
      case Ended(_) => s
      case Created => s.(tasks := s.tasks[c := Asked(Texts(s.chunks, clusters[c]))])
      case Asked(texts) =>
        match w.ask(k, c, texts)
        case Summary(x) => s.(chunks := s.chunks + [x], tasks := s.tasks[c := Ended(Some(x))])
        case Cancel => s.(stop := Some(Canceled))
        case Failed =>
          s.(errors := s.errors + 1, tasks := s.tasks[c := Ended(None)],
             stop := if s.errors + 1 >= e.maxErrors then Some(Aborted) else None)
  }

  function Moves(e: Settings, w: World, k: nat, clusters: seq<seq<nat>>, s: Crew, schedule: seq<nat>): (r: Crew)
    requires |s.tasks| == |clusters| && Below(clusters, |s.chunks|)
    ensures |r.tasks| == |clusters| && s.chunks <= r.chunks
    decreases |schedule|
  {
    if schedule == [] then s
    else Moves(e, w, k, clusters, Move(e, w, k, clusters, s, schedule[0]), schedule[1..])
  }

  /** Every task twice: what is left to do after any schedule. */
  function Drain(n: nat): seq<nat> {
    if n == 0 then [] else Drain(n - 1) + [n - 1, n - 1]
  }

  /** Nothing has happened to any task yet. */
  function Begin(chunks: seq<Chunk>, errors: nat, n: nat): Crew {
    Crew(chunks, errors, seq(n, _ => Created), None)
  }

  /** All tasks of a layer, interleaved as the schedule says and then run to their end. */
  function Gather(
      e: Settings, w: World, k: nat, clusters: seq<seq<nat>>, chunks: seq<Chunk>, errors: nat,
      schedule: seq<nat>): (r: Crew)
    requires Below(clusters, |chunks|)
    ensures chunks <= r.chunks
  {
    var s := Begin(chunks, errors, |clusters|);
    Moves(e, w, k, clusters, s, schedule + Drain(|clusters|))
  }

  /** A task that gets to run for the first time asks for a summary of its cluster's texts, in the order of the
      list, and changes nothing else. */
  lemma TaskAsks(e: Settings, w: World, k: nat, clusters: seq<seq<nat>>, s: Crew, c: nat)
    requires |s.tasks| == |clusters| && Below(clusters, |s.chunks|)
    requires s.stop.None? && c < |s.tasks| && s.tasks[c].Created?
    ensures var r := Move(e, w, k, clusters, s, c);
      && r.tasks[c].Asked? && |r.tasks[c].texts| == |clusters[c]|
      && (forall i :: 0 <= i < |clusters[c]| ==> r.tasks[c].texts[i] == s.chunks[clusters[c][i]].text)
      && r == s.(tasks := s.tasks[c := r.tasks[c]])
  {
  }

  // ---------- What every interleaving comes to ----------

  /** The reply to cluster `c`, asked about the chunks as they were when the layer was complete. */
  function Answer(w: World, k: nat, clusters: seq<seq<nat>>, base: seq<Chunk>, c: nat): Reply
    requires Below(clusters, |base|) && c < |clusters|
  {
    w.ask(k, c, Texts(base, clusters[c]))
  }

  function Given(r: Reply): multiset<Chunk> {
    match r case Summary(x) => multiset{x} case _ => multiset{}
  }

  /** The summaries among the first `n` replies. */
  function Summaries(w: World, k: nat, clusters: seq<seq<nat>>, base: seq<Chunk>, n: nat): multiset<Chunk>
    requires Below(clusters, |base|) && n <= |clusters|
  {
    if n == 0 then multiset{}
    else
      Summaries(w, k, clusters, base, n - 1) + Given(Answer(w, k, clusters, base, n - 1))
  }

  function Failures(w: World, k: nat, clusters: seq<seq<nat>>, base: seq<Chunk>, n: nat): nat
    requires Below(clusters, |base|) && n <= |clusters|
  {
    if n == 0 then 0
    else Failures(w, k, clusters, base, n - 1) + (if Answer(w, k, clusters, base, n - 1).Failed? then 1 else 0)
  }

  ghost predicate AnyCancel(w: World, k: nat, clusters: seq<seq<nat>>, base: seq<Chunk>)
    requires Below(clusters, |base|)
  {
    exists c: nat :: c < |clusters| && Answer(w, k, clusters, base, c).Cancel?
  }

  function Got(t: Task): multiset<Chunk> {
    match t case Ended(Some(x)) => multiset{x} case _ => multiset{}
  }

  /** What the tasks have ended with so far. */
  function Gotten(tasks: seq<Task>): multiset<Chunk> {
    if tasks == [] then multiset{}
    else Gotten(tasks[..|tasks| - 1]) + Got(tasks[|tasks| - 1])
  }

  function Lost(tasks: seq<Task>): nat {
    if tasks == [] then 0
    else Lost(tasks[..|tasks| - 1]) + (if tasks[|tasks| - 1] == Ended(None) then 1 else 0)
  }

  lemma {:induction false} GottenUpdate(tasks: seq<Task>, c: nat, t: Task)
    requires c < |tasks| && !tasks[c].Ended?
    ensures Gotten(tasks[c := t]) == Gotten(tasks) + Got(t)
    ensures Lost(tasks[c := t]) == Lost(tasks) + (if t == Ended(None) then 1 else 0)
    decreases |tasks|
  {
    hide *;
    var n := |tasks| - 1;
    var updated := tasks[c := t];
    UnfoldGotten(updated);
    UnfoldGotten(tasks);
    NothingGot(tasks[c]);
    if c == n {
      assert updated[..n] == tasks[..n];
    } else {
      assert updated[..n] == tasks[..n][c := t];
      GottenUpdate(tasks[..n], c, t);
      Swap(Gotten(tasks[..n]), Got(t), Got(tasks[n]));
    }
  }

  lemma UnfoldGotten(tasks: seq<Task>)
    requires tasks != []
    ensures Gotten(tasks) == Gotten(tasks[..|tasks| - 1]) + Got(tasks[|tasks| - 1])
    ensures Lost(tasks) == Lost(tasks[..|tasks| - 1]) + (if tasks[|tasks| - 1] == Ended(None) then 1 else 0)
  {
    hide Got;
  }

  lemma NothingGot(t: Task)
    requires !t.Ended?
    ensures Got(t) == multiset{} && forall m: multiset<Chunk> :: m + Got(t) == m
  {
  }

  lemma Swap(a: multiset<Chunk>, b: multiset<Chunk>, c: multiset<Chunk>)
    ensures a + b + c == a + c + b
  {
  }

  lemma Sizes(a: multiset<Chunk>, b: multiset<Chunk>)
    ensures |a + b| == |a| + |b|
  {
  }

  /** What a task holds is what it read from, or was answered about, the completed layer. */
  ghost predicate TaskHolds(w: World, k: nat, clusters: seq<seq<nat>>, base: seq<Chunk>, c: nat, t: Task)
    requires Below(clusters, |base|) && c < |clusters|
  {
    match t
    case Created => true
    case Asked(texts) => texts == Texts(base, clusters[c])
    case Ended(Some(x)) => Answer(w, k, clusters, base, c) == Summary(x)
    case Ended(None) => Answer(w, k, clusters, base, c).Failed?
  }

  /** In every interleaving: the completed chunks are untouched, the rest is exactly what the tasks got, and
      a stop has its cause. */
  ghost predicate CrewHolds(
      e: Settings, w: World, k: nat, clusters: seq<seq<nat>>, base: seq<Chunk>, errors: nat, s: Crew)
    requires Below(clusters, |base|)
  {
    && |s.tasks| == |clusters|
    && base <= s.chunks
    && multiset(s.chunks[|base|..]) == Gotten(s.tasks)
    && s.errors == errors + Lost(s.tasks)
    && (forall c: nat :: c < |clusters| ==> TaskHolds(w, k, clusters, base, c, s.tasks[c]))
    && match s.stop
       case None => Lost(s.tasks) == 0 || s.errors < e.maxErrors
       case Some(f) => (f == Canceled && AnyCancel(w, k, clusters, base))
                       || (f == Aborted && Lost(s.tasks) > 0 && s.errors >= e.maxErrors)
  }

  lemma CrewUnfolds(e: Settings, w: World, k: nat, clusters: seq<seq<nat>>, base: seq<Chunk>, errors: nat, s: Crew)
    requires Below(clusters, |base|) && CrewHolds(e, w, k, clusters, base, errors, s) && s.stop.None?
    ensures |s.tasks| == |clusters| && base <= s.chunks
    ensures multiset(s.chunks[|base|..]) == Gotten(s.tasks)
    ensures s.errors == errors + Lost(s.tasks)
    ensures forall c: nat :: c < |clusters| ==> TaskHolds(w, k, clusters, base, c, s.tasks[c])
    ensures Lost(s.tasks) == 0 || s.errors < e.maxErrors
  {
    hide Gotten, Lost, TaskHolds, Below, AnyCancel;
  }

  lemma CrewFolds(e: Settings, w: World, k: nat, clusters: seq<seq<nat>>, base: seq<Chunk>, errors: nat, s: Crew)
    requires Below(clusters, |base|) && |s.tasks| == |clusters| && base <= s.chunks
    requires multiset(s.chunks[|base|..]) == Gotten(s.tasks)
    requires s.errors == errors + Lost(s.tasks)
    requires forall c: nat :: c < |clusters| ==> TaskHolds(w, k, clusters, base, c, s.tasks[c])
    requires s.stop == None ==> Lost(s.tasks) == 0 || s.errors < e.maxErrors
    requires s.stop.Some? ==> s.stop == Some(Aborted) && Lost(s.tasks) > 0 && s.errors >= e.maxErrors
    ensures CrewHolds(e, w, k, clusters, base, errors, s)
  {
    hide Gotten, Lost, TaskHolds, Below, AnyCancel;
  }

  lemma AddedChunks(chunks: seq<Chunk>, n: nat, added: seq<Chunk>, grown: seq<Chunk>, t: Task)
    requires n <= |chunks| && grown == chunks + added
    requires added == match t case Ended(Some(x)) => [x] case _ => []
    ensures multiset(grown[n..]) == multiset(chunks[n..]) + Got(t)
  {
    assert grown[n..] == chunks[n..] + added;
  }

  /** A task moves to `t`, and the chunks, the errors and the stop change with it. */
  lemma TaskMoves(
      e: Settings, w: World, k: nat, clusters: seq<seq<nat>>, base: seq<Chunk>, errors: nat, s: Crew, c: nat, t: Task,
      r: Crew)
    requires Below(clusters, |base|) && CrewHolds(e, w, k, clusters, base, errors, s) && s.stop.None?
    requires c < |clusters| && !s.tasks[c].Ended? && TaskHolds(w, k, clusters, base, c, t)
    requires r.tasks == s.tasks[c := t]
    requires r.chunks == s.chunks + (match t case Ended(Some(x)) => [x] case _ => [])
    requires r.errors == s.errors + (if t == Ended(None) then 1 else 0)
    requires r.stop == if t == Ended(None) && r.errors >= e.maxErrors then Some(Aborted) else None
    ensures CrewHolds(e, w, k, clusters, base, errors, r)
  {
    hide *;
    var n := |base|;
    CrewUnfolds(e, w, k, clusters, base, errors, s);
    GottenUpdate(s.tasks, c, t);
    var added := match t case Ended(Some(x)) => [x] case _ => [];
    AddedChunks(s.chunks, n, added, r.chunks, t);
    forall d: nat | d < |clusters| ensures TaskHolds(w, k, clusters, base, d, r.tasks[d]) {
    }
    CrewFolds(e, w, k, clusters, base, errors, r);
  }

  lemma MoveKeeps(
      e: Settings, w: World, k: nat, clusters: seq<seq<nat>>, base: seq<Chunk>, errors: nat, s: Crew, c: nat)
    requires Below(clusters, |base|) && CrewHolds(e, w, k, clusters, base, errors, s)
    ensures CrewHolds(e, w, k, clusters, base, errors, Move(e, w, k, clusters, s, c))
  {
    hide Gotten, Lost, Got, AnyCancel;
    if s.stop.None? && c < |s.tasks| && !s.tasks[c].Ended? {
      var r := Move(e, w, k, clusters, s, c);
      assert TaskHolds(w, k, clusters, base, c, s.tasks[c]);
      assert Texts(s.chunks, clusters[c]) == Texts(base, clusters[c]);
      if s.tasks[c].Asked? && w.ask(k, c, s.tasks[c].texts).Cancel? {
        CancelSeen(w, k, clusters, base, c);
      } else {
        assert s.chunks + [] == s.chunks;
        hide CrewHolds;
        TaskMoves(e, w, k, clusters, base, errors, s, c, r.tasks[c], r);
      }
    }
  }

  lemma CancelSeen(w: World, k: nat, clusters: seq<seq<nat>>, base: seq<Chunk>, c: nat)
    requires Below(clusters, |base|) && c < |clusters| && Answer(w, k, clusters, base, c).Cancel?
    ensures AnyCancel(w, k, clusters, base)
  {
  }

  lemma {:induction false} MovesKeep(
      e: Settings, w: World, k: nat, clusters: seq<seq<nat>>, base: seq<Chunk>, errors: nat, s: Crew,
      schedule: seq<nat>)
    requires Below(clusters, |base|) && CrewHolds(e, w, k, clusters, base, errors, s)
    ensures CrewHolds(e, w, k, clusters, base, errors, Moves(e, w, k, clusters, s, schedule))
    decreases |schedule|
  {
    if schedule != [] {
      MoveKeeps(e, w, k, clusters, base, errors, s, schedule[0]);
      hide CrewHolds, Move;
      MovesKeep(e, w, k, clusters, base, errors, Move(e, w, k, clusters, s, schedule[0]), schedule[1..]);
    }
  }

  lemma {:induction false} MovesSplit(
      e: Settings, w: World, k: nat, clusters: seq<seq<nat>>, s: Crew, a: seq<nat>, b: seq<nat>)
    requires |s.tasks| == |clusters| && Below(clusters, |s.chunks|)
    ensures Moves(e, w, k, clusters, s, a + b) == Moves(e, w, k, clusters, Moves(e, w, k, clusters, s, a), b)
    decreases |a|
  {
    if a == [] {
      assert a + b == b;
    } else {
      assert (a + b)[1..] == a[1..] + b && (a + b)[0] == a[0];
      MovesSplit(e, w, k, clusters, Move(e, w, k, clusters, s, a[0]), a[1..], b);
    }
  }

  /** A task that has ended stays ended. */
  lemma {:induction false} EndedStays(
      e: Settings, w: World, k: nat, clusters: seq<seq<nat>>, s: Crew, schedule: seq<nat>, c: nat)
    requires |s.tasks| == |clusters| && Below(clusters, |s.chunks|)
    requires c < |clusters| && s.tasks[c].Ended?
    ensures Moves(e, w, k, clusters, s, schedule).tasks[c].Ended?
    decreases |schedule|
  {
    if schedule != [] {
      EndedStays(e, w, k, clusters, Move(e, w, k, clusters, s, schedule[0]), schedule[1..], c);
    }
  }

  lemma MovesTwice(e: Settings, w: World, k: nat, clusters: seq<seq<nat>>, s: Crew, c: nat)
    requires |s.tasks| == |clusters| && Below(clusters, |s.chunks|) && c < |clusters|
    ensures var r := Moves(e, w, k, clusters, s, [c, c]);
      r.stop.None? ==> r.tasks[c].Ended?
  {
    var s1 := Move(e, w, k, clusters, s, c);
    assert [c, c][1..] == [c];
    assert [c][1..] == [];
    assert Moves(e, w, k, clusters, s, [c, c]) == Moves(e, w, k, clusters, s1, [c]) == Move(e, w, k, clusters, s1, c);
  }

  lemma {:induction false} StopStays(
      e: Settings, w: World, k: nat, clusters: seq<seq<nat>>, s: Crew, schedule: seq<nat>)
    requires |s.tasks| == |clusters| && Below(clusters, |s.chunks|) && s.stop.Some?
    ensures Moves(e, w, k, clusters, s, schedule) == s
    decreases |schedule|
  {
    if schedule != [] {
      StopStays(e, w, k, clusters, s, schedule[1..]);
    }
  }

  lemma StillBelow(clusters: seq<seq<nat>>, chunks: seq<Chunk>, grown: seq<Chunk>)
    requires Below(clusters, |chunks|) && chunks <= grown
    ensures Below(clusters, |grown|)
  {
  }

  lemma {:induction false} DrainEnds(e: Settings, w: World, k: nat, clusters: seq<seq<nat>>, s: Crew, n: nat)
    requires |s.tasks| == |clusters| && Below(clusters, |s.chunks|) && n <= |clusters|
    ensures var r := Moves(e, w, k, clusters, s, Drain(n));
      r.stop.None? ==> forall c: nat :: c < n ==> r.tasks[c].Ended?
    decreases n
  {
    hide Moves, Below, Move;
    if n > 0 {
      var last := [n - 1, n - 1];
      DrainEnds(e, w, k, clusters, s, n - 1);
      MovesSplit(e, w, k, clusters, s, Drain(n - 1), last);
      var m := Moves(e, w, k, clusters, s, Drain(n - 1));
      StillBelow(clusters, s.chunks, m.chunks);
      if m.stop.Some? {
        StopStays(e, w, k, clusters, m, last);
      } else {
        MovesTwice(e, w, k, clusters, m, n - 1);
        forall c: nat | c < n - 1 ensures Moves(e, w, k, clusters, m, last).tasks[c].Ended? {
          EndedStays(e, w, k, clusters, m, last, c);
        }
      }
    }
  }

  lemma EndedGives(w: World, k: nat, clusters: seq<seq<nat>>, base: seq<Chunk>, c: nat, t: Task)
    requires Below(clusters, |base|) && c < |clusters| && t.Ended? && TaskHolds(w, k, clusters, base, c, t)
    ensures var a := Answer(w, k, clusters, base, c);
      && Got(t) == Given(a) && (t == Ended(None) <==> a.Failed?)
      && !a.Cancel? && |Got(t)| == if t == Ended(None) then 0 else 1
  {
    hide Answer, Below;
  }

  lemma UnfoldSummaries(w: World, k: nat, clusters: seq<seq<nat>>, base: seq<Chunk>, n: nat)
    requires Below(clusters, |base|) && 0 < n <= |clusters|
    ensures Summaries(w, k, clusters, base, n)
         == Summaries(w, k, clusters, base, n - 1) + Given(Answer(w, k, clusters, base, n - 1))
    ensures Failures(w, k, clusters, base, n)
         == Failures(w, k, clusters, base, n - 1) + (if Answer(w, k, clusters, base, n - 1).Failed? then 1 else 0)
  {
    hide Answer, Given, Below;
  }

  lemma NoneEnded(w: World, k: nat, clusters: seq<seq<nat>>, base: seq<Chunk>, tasks: seq<Task>)
    requires Below(clusters, |base|)
    ensures Gotten(tasks[..0]) == Summaries(w, k, clusters, base, 0) == multiset{}
    ensures Lost(tasks[..0]) == Failures(w, k, clusters, base, 0) == 0
  {
  }

  /** When every task has ended, what they got is what the completed layer was answered. */
  lemma {:induction false} AllEnded(
      w: World, k: nat, clusters: seq<seq<nat>>, base: seq<Chunk>, tasks: seq<Task>, n: nat)
    requires Below(clusters, |base|) && n <= |clusters| == |tasks|
    requires forall c: nat :: c < n ==> tasks[c].Ended? && TaskHolds(w, k, clusters, base, c, tasks[c])
    ensures Gotten(tasks[..n]) == Summaries(w, k, clusters, base, n)
    ensures Lost(tasks[..n]) == Failures(w, k, clusters, base, n)
    ensures |Gotten(tasks[..n])| + Lost(tasks[..n]) == n
    decreases n
  {
    hide *;
    if n == 0 {
      NoneEnded(w, k, clusters, base, tasks);
    } else {
      AllEnded(w, k, clusters, base, tasks, n - 1);
      assert tasks[..n][..n - 1] == tasks[..n - 1];
      UnfoldGotten(tasks[..n]);
      UnfoldSummaries(w, k, clusters, base, n);
      EndedGives(w, k, clusters, base, n - 1, tasks[n - 1]);
      Sizes(Gotten(tasks[..n - 1]), Got(tasks[n - 1]));
    }
  }

  /** What ended with a loss was answered with a failure, so losses never exceed the failures. */
  lemma {:induction false} LostAtMost(
      w: World, k: nat, clusters: seq<seq<nat>>, base: seq<Chunk>, tasks: seq<Task>, n: nat)
    requires Below(clusters, |base|) && n <= |clusters| == |tasks|
    requires forall c: nat :: c < n ==> TaskHolds(w, k, clusters, base, c, tasks[c])
    ensures Lost(tasks[..n]) <= Failures(w, k, clusters, base, n)
    decreases n
  {
    if n > 0 {
      LostAtMost(w, k, clusters, base, tasks, n - 1);
      assert tasks[..n][..n - 1] == tasks[..n - 1];
    }
  }

  lemma CrewBegins(e: Settings, w: World, k: nat, clusters: seq<seq<nat>>, base: seq<Chunk>, errors: nat)
    requires Below(clusters, |base|)
    ensures CrewHolds(e, w, k, clusters, base, errors, Begin(base, errors, |clusters|))
  {
    NothingGotten(|clusters|);
    assert base[|base|..] == [];
    hide Gotten, Lost, Answer, Below;
  }

  lemma CrewEnds(e: Settings, w: World, k: nat, clusters: seq<seq<nat>>, base: seq<Chunk>, errors: nat, r: Crew)
    requires Below(clusters, |base|) && CrewHolds(e, w, k, clusters, base, errors, r)
    requires r.stop.None? ==> forall c: nat :: c < |clusters| ==> r.tasks[c].Ended?
    ensures var n := |clusters|;
      var failures := Failures(w, k, clusters, base, n);
      && base <= r.chunks
      && (r.stop.None? <==> !AnyCancel(w, k, clusters, base) && (failures == 0 || errors + failures < e.maxErrors))
      && (r.stop.None? ==>
            && multiset(r.chunks[|base|..]) == Summaries(w, k, clusters, base, n)
            && |r.chunks| - |base| == n - failures
            && r.errors == errors + failures)
  {
    hide Gotten, Lost, Summaries, Failures, Answer, TaskHolds, Below;
    var n := |clusters|;
    assert r.tasks[..n] == r.tasks;
    if r.stop.None? {
      AllEnded(w, k, clusters, base, r.tasks, n);
      assert |multiset(r.chunks[|base|..])| == |r.chunks| - |base|;
      forall c: nat | c < n ensures !Answer(w, k, clusters, base, c).Cancel? {
        EndedGives(w, k, clusters, base, c, r.tasks[c]);
      }
    } else {
      LostAtMost(w, k, clusters, base, r.tasks, n);
    }
  }

  /** Whatever the interleaving, a layer's tasks leave the completed chunks alone; they stop the run exactly
      if a task sees the cancellation or the failures use up the error budget; and otherwise they append one
      summary for every cluster that did not fail, made from that cluster's texts in the completed layer. */
  lemma GatherIsScheduleFree(
      e: Settings, w: World, k: nat, clusters: seq<seq<nat>>, base: seq<Chunk>, errors: nat, schedule: seq<nat>)
    requires Below(clusters, |base|)
    ensures var r := Gather(e, w, k, clusters, base, errors, schedule);
      var n := |clusters|;
      var failures := Failures(w, k, clusters, base, n);
      && base <= r.chunks
      && (r.stop.None? <==> !AnyCancel(w, k, clusters, base) && (failures == 0 || errors + failures < e.maxErrors))
      && (r.stop.None? ==>
            && multiset(r.chunks[|base|..]) == Summaries(w, k, clusters, base, n)
            && |r.chunks| - |base| == n - failures
            && r.errors == errors + failures)
  {
    hide Moves, CrewHolds, Gotten, Lost, Summaries, Failures, Answer, TaskHolds;
    var n := |clusters|;
    var s := Begin(base, errors, n);
    var r := Gather(e, w, k, clusters, base, errors, schedule);
    CrewBegins(e, w, k, clusters, base, errors);
    MovesKeep(e, w, k, clusters, base, errors, s, schedule + Drain(n));
    MovesSplit(e, w, k, clusters, s, schedule, Drain(n));
    DrainEnds(e, w, k, clusters, Moves(e, w, k, clusters, s, schedule), n);
    CrewEnds(e, w, k, clusters, base, errors, r);
  }

  lemma {:induction false} NothingGotten(n: nat)
    ensures Gotten(seq(n, _ => Created)) == multiset{} && Lost(seq(n, _ => Created)) == 0
    decreases n
  {
    if n > 0 {
      NothingGotten(n - 1);
      assert seq(n, _ => Created)[..n - 1] == seq(n - 1, _ => Created);
    }
  }

  // ---------- Clusters partition a layer ----------

  ghost predicate Covers(clusters: seq<seq<nat>>, p: nat) {
    exists c: nat :: c < |clusters| && p in clusters[c]
  }

  predicate Increasing(r: seq<nat>) {
    forall i, j :: 0 <= i < j < |r| ==> r[i] < r[j]
  }

  /** Every position of the layer occurs exactly once in exactly one cluster, and nothing else does. */
  ghost predicate Partitions(clusters: seq<seq<nat>>, start: nat, end: nat) {
    && (forall c, i :: 0 <= c < |clusters| && 0 <= i < |clusters[c]| ==> start <= clusters[c][i] < end)
    && (forall p: nat :: start <= p < end ==> Covers(clusters, p))
    && (forall c, d, p: nat ::
          0 <= c < |clusters| && 0 <= d < |clusters| && p in clusters[c] && p in clusters[d] ==> c == d)
    && (forall c :: 0 <= c < |clusters| ==> Increasing(clusters[c]))
  }

  predicate Labelled(labels: seq<Option<nat>>, c: nat, start: nat, p: nat) {
    start <= p < start + |labels| && labels[p - start] == Some(c)
  }

  lemma {:induction false} ClusterMembers(labels: seq<Option<nat>>, c: nat, start: nat)
    ensures var r := Cluster(labels, c, start);
      && (forall p: nat :: p in r <==> Labelled(labels, c, start, p))
      && (forall i :: 0 <= i < |r| ==> start <= r[i] < start + |labels|)
      && Increasing(r)
    decreases |labels|
  {
    if labels != [] {
      ClusterMembers(labels[1..], c, start + 1);
      var rest := Cluster(labels[1..], c, start + 1);
      var r := Cluster(labels, c, start);
      if labels[0] == Some(c) {
        assert r == [start] + rest;
      } else {
        assert r == rest;
      }
      forall p: nat ensures p in r <==> Labelled(labels, c, start, p) {
        assert p in r <==> (labels[0] == Some(c) && p == start) || p in rest;
        assert p > start ==> (Labelled(labels, c, start, p) <==> Labelled(labels[1..], c, start + 1, p));
      }
      hide Cluster;
    }
  }

  /** The clusters of a layer partition it, and none of them is empty. */
  lemma DecisionPartitions(e: Settings, p: Plan, start: nat, size: nat)
    requires size >= 2 && Decide(e, p, start, size).Split?
    requires size >= 3 ==> HonestPlan(e, size, p)
    ensures var cl := Decide(e, p, start, size).clusters;
      && Partitions(cl, start, start + size) && [] !in cl && 1 <= |cl|
      && (size == 2 ==> |cl| == 1) && (size > 2 ==> |cl| < Min(e.maxCluster, size))
      && Below(cl, start + size)
  {
    if size > 2 {
      var labels := LabelsOf(p, size);
      var cl := AllClusters(labels, p.clusters, start);
      assert |labels| == size;
      forall c: nat | c < |cl|
        ensures cl[c] == Cluster(labels, c, start)
        ensures forall q: nat :: q in cl[c] <==> Labelled(labels, c, start, q)
        ensures forall i :: 0 <= i < |cl[c]| ==> start <= cl[c][i] < start + size
        ensures Increasing(cl[c])
      {
        ClusterMembers(labels, c, start);
      }
      hide Cluster, AllClusters, Decide;
      forall q: nat | start <= q < start + size ensures Covers(cl, q) {
        assert labels[q - start] in labels;
        var c := labels[q - start].value;
        assert q in cl[c];
      }
      assert forall c, d, q: nat :: 0 <= c < |cl| && 0 <= d < |cl| && q in cl[c] && q in cl[d] ==> c == d;
      SplitIsAll(e, p, start, size);
    } else {
      PairPartitions(start);
    }
  }

  lemma PairPartitions(start: nat)
    ensures var cl := [[start, start + 1]]; Partitions(cl, start, start + 2) && [] !in cl
  {
    var cl := [[start, start + 1]];
    assert start in cl[0] && start + 1 in cl[0];
    assert Increasing(cl[0]);
    assert |cl[0]| == 2;
  }

  lemma SplitIsAll(e: Settings, p: Plan, start: nat, size: nat)
    requires size > 2 && Decide(e, p, start, size).Split?
    ensures Decide(e, p, start, size).clusters == AllClusters(LabelsOf(p, size), p.clusters, start)
    ensures [] !in Decide(e, p, start, size).clusters
  {
  }

  /** The `i`-th chunk of a layer is in cluster `c`: there is one cluster, or its label is `c`. */
  predicate Assigned(p: Plan, i: nat, c: nat)
    requires i < |p.labels|
  {
    c < p.clusters && (p.clusters == 1 || p.labels[i] == Some(c))
  }

  /** A layer of more than two chunks is clustered by its labels: cluster `c` holds exactly the positions labelled `c`,
      so two chunks share a cluster exactly if they have the same label, or if there is one cluster only. */
  lemma ClustersFollowLabels(e: Settings, p: Plan, start: nat, size: nat)
    requires size > 2 && HonestPlan(e, size, p) && Decide(e, p, start, size).Split?
    ensures var cl := Decide(e, p, start, size).clusters;
      && |cl| == p.clusters
      && (forall c: nat, i: nat :: c < |cl| && i < size ==> (start + i in cl[c] <==> Assigned(p, i, c)))
      && (forall i: nat, j: nat :: i < size && j < size ==>
            (Together(cl, start + i, start + j) <==> p.clusters == 1 || p.labels[i] == p.labels[j]))
  {
    var labels := LabelsOf(p, size);
    var cl := AllClusters(labels, p.clusters, start);
    SplitIsAll(e, p, start, size);
    forall c: nat, i: nat | c < |cl| && i < size ensures start + i in cl[c] <==> Assigned(p, i, c) {
      ClusterMembers(labels, c, start);
      assert start + i in cl[c] <==> Labelled(labels, c, start, start + i);
    }
    hide Decide, Cluster, AllClusters, LabelsOf;
    forall i: nat, j: nat | i < size && j < size
      ensures Together(cl, start + i, start + j) <==> p.clusters == 1 || p.labels[i] == p.labels[j]
    {
      var c := HasLabel(e, p, start, size, i);
      assert start + i in cl[c] && (start + j in cl[c] <==> Assigned(p, j, c));
      if Together(cl, start + i, start + j) {
        var d: nat :| d < |cl| && start + i in cl[d] && start + j in cl[d];
        assert Assigned(p, i, d) && Assigned(p, j, d);
      }
      if p.clusters == 1 || p.labels[i] == p.labels[j] {
        assert Assigned(p, j, c);
      }
    }
  }

  /** The two positions are in one cluster. */
  ghost predicate Together(clusters: seq<seq<nat>>, p: nat, q: nat) {
    exists c: nat :: c < |clusters| && p in clusters[c] && q in clusters[c]
  }

  lemma HasLabel(e: Settings, p: Plan, start: nat, size: nat, i: nat) returns (c: nat)
    requires size > 2 && HonestPlan(e, size, p) && Decide(e, p, start, size).Split? && i < size
    ensures Assigned(p, i, c)
  {
    var labels := LabelsOf(p, size);
    assert labels[i] in labels && labels[i] != None;
    hide AllClusters;
    if p.clusters == 1 {
      c := 0;
    } else {
      assert p.labels[i] in p.labels;
      c := p.labels[i].value;
    }
  }

  /** A layer is split exactly if the run is not cancelled and it has two chunks, or the search for the number of
      clusters has a range and every chunk has a label and every label a chunk. */
  lemma SplitIff(e: Settings, p: Plan, start: nat, size: nat)
    requires size >= 2 && (size > 2 ==> |p.labels| == size && p.clusters >= 1)
    ensures Decide(e, p, start, size).Split? <==>
      && !p.canceled
      && (size > 2 ==>
            && e.maxCluster >= 2
            && (p.clusters > 1 ==>
                  && None !in p.labels
                  && forall c: nat :: c < p.clusters ==> Some(c) in p.labels))
  {
    if size > 2 && e.maxCluster >= 2 {
      var labels := LabelsOf(p, size);
      var cl := AllClusters(labels, p.clusters, start);
      forall c: nat | c < p.clusters ensures cl[c] == [] <==> Some(c) !in labels {
        ClusterMembers(labels, c, start);
        EmptyIff(labels, c, start, cl[c]);
      }
      hide AllClusters, Cluster;
      if p.clusters == 1 {
        assert labels[0] == Some(0) && Some(0) in labels;
      }
      if [] in cl {
        var c: nat :| c < |cl| && cl[c] == [];
      }
    }
  }

  lemma EmptyIff(labels: seq<Option<nat>>, c: nat, start: nat, cluster: seq<nat>)
    requires forall p: nat :: p in cluster <==> Labelled(labels, c, start, p)
    ensures cluster == [] <==> Some(c) !in labels
  {
    if Some(c) in labels {
      var i :| 0 <= i < |labels| && labels[i] == Some(c);
      assert Labelled(labels, c, start, start + i);
    }
    if cluster != [] {
      assert cluster[0] in cluster && Labelled(labels, c, start, cluster[0]);
    }
  }

  // ---------- Layers ----------

  /** One entry of `layers`: the positions from `start` up to `end`. */
  datatype Span = Span(start: nat, end: nat)

  datatype State = State(chunks: seq<Chunk>, errors: nat, layers: seq<Span>, stop: Option<Failure>)

  predicate Formed(s: State) {
    s.layers != [] && s.layers[|s.layers| - 1].start <= s.layers[|s.layers| - 1].end == |s.chunks|
  }

  function Top(s: State): Span
    requires Formed(s)
  {
    s.layers[|s.layers| - 1]
  }

  function Size(s: State): nat
    requires Formed(s)
  {
    Top(s).end - Top(s).start
  }

  predicate Going(s: State)
    requires Formed(s)
  {
    s.stop.None? && Size(s) > 1
  }

  /** One turn of `while end - start > 1`. */
  function NextLayer(e: Settings, w: World, s: State): (r: State)
    requires Formed(s) && Going(s) && Honest(e, w)
    ensures Formed(r) && (r.stop.None? ==> Size(r) < Size(s))
  {
    var k, start, end := |s.layers| - 1, Top(s).start, Top(s).end;
    var p := w.plan(k, end - start);
    match Decide(e, p, start, end - start)
    case Stop(f) => s.(stop := Some(f))
    case Split(clusters) =>
      DecisionPartitions(e, p, start, end - start);
      GatherIsScheduleFree(e, w, k, clusters, s.chunks, s.errors, p.schedule);
      var g := Gather(e, w, k, clusters, s.chunks, s.errors, p.schedule);
      if g.stop.Some? then s.(errors := g.errors, stop := g.stop)
      else if end - start != 2 && |g.chunks| - end != |clusters| then
        s.(errors := g.errors, stop := Some(CountMismatch))
      else State(g.chunks, g.errors, s.layers + [Span(end, |g.chunks|)], None)
  }

  function Loop(e: Settings, w: World, s: State): (r: State)
    requires Formed(s) && Honest(e, w)
    ensures Formed(r) && !Going(r)
    decreases if Going(s) then Size(s) else 0
  {
    if !Going(s) then s else Loop(e, w, NextLayer(e, w, s))
  }

  function Usable(inputs: seq<Input>): seq<Chunk> {
    if inputs == [] then []
    else if inputs[0].text != "" && inputs[0].embedding.Some? && inputs[0].embedding.value != []
      then [Chunk(inputs[0].text, inputs[0].embedding.value)] + Usable(inputs[1..])
    else Usable(inputs[1..])
  }

  /** Exactly the inputs with a text and an embedding that is not empty are used, unchanged and in order. */
  lemma {:induction false} UsableInOrder(inputs: seq<Input>, k: nat)
    requires k < |inputs|
    ensures var x := inputs[k];
      Usable(inputs[..k + 1])
      == Usable(inputs[..k])
          + (if x.text == "" || x.embedding.GetOr([]) == [] then [] else [Chunk(x.text, x.embedding.value)])
  {
    if k > 0 {
      UsableInOrder(inputs[1..], k - 1);
      assert inputs[..k + 1][1..] == inputs[1..][..k] && inputs[..k][1..] == inputs[1..][..k - 1];
    } else {
      assert inputs[..1] == [inputs[0]] && [inputs[0]][1..] == [];
    }
  }

  function Initial(chunks: seq<Chunk>, errors: nat): State {
    State(chunks, errors, [Span(0, |chunks|)], None)
  }

  datatype Result = Chunks(chunks: seq<Chunk>) | Raised(failure: Failure)

  function Call(e: Settings, w: World, inputs: seq<Input>, errors: nat): Result
    requires Honest(e, w)
  {
    if |inputs| <= 1 then Chunks([])
    else
      var s := Loop(e, w, Initial(Usable(inputs), errors));
      if s.stop.Some? then Raised(s.stop.value) else Chunks(s.chunks)
  }

  // ---------- The tower of layers ----------

  function SizeAt(s: State, i: nat): int
    requires i < |s.layers|
  {
    var a: int, b: int := s.layers[i].end, s.layers[i].start;
    a - b
  }

  /** Layer `i` lies in the list, begins where the one below ends, and is smaller than it. */
  ghost predicate Fits(s: State, m: int, i: nat)
    requires i < |s.layers|
  {
    && s.layers[i].start <= s.layers[i].end <= |s.chunks|
    && (i > 0 ==>
          && s.layers[i].start == s.layers[i - 1].end
          && 0 <= SizeAt(s, i) < SizeAt(s, i - 1) && SizeAt(s, i - 1) > 1
          && SizeAt(s, i) <= m - i)
  }

  /** The layers begin with the kept chunks, tile the list, and shrink from layer to layer. */
  ghost predicate Tiles(s: State, base: seq<Chunk>, m: int) {
    && Formed(s) && base <= s.chunks && s.layers[0] == Span(0, |base|)
    && forall i: nat :: i < |s.layers| ==> Fits(s, m, i)
  }

  /** Each layer above the first holds exactly the summaries of the clusters that partition the layer below. */
  ghost predicate Summarizes(e: Settings, w: World, s: State, i: nat)
    requires i + 1 < |s.layers| && s.layers[i].start <= s.layers[i].end <= |s.chunks|
    requires s.layers[i + 1].start <= s.layers[i + 1].end <= |s.chunks|
  {
    var start, end := s.layers[i].start, s.layers[i].end;
    var d := Decide(e, w.plan(i, end - start), start, end - start);
    && d.Split? && Partitions(d.clusters, start, end) && Below(d.clusters, end) && [] !in d.clusters
    && multiset(s.chunks[s.layers[i + 1].start..s.layers[i + 1].end])
       == Summaries(w, i, d.clusters, s.chunks[..end], |d.clusters|)
    && (end - start > 2 ==> s.layers[i + 1].end - s.layers[i + 1].start == |d.clusters|)
  }

  ghost predicate LayerSummarizes(e: Settings, w: World, s: State, i: nat)
    requires i + 1 < |s.layers|
  {
    && s.layers[i].start <= s.layers[i].end <= |s.chunks|
    && s.layers[i + 1].start <= s.layers[i + 1].end <= |s.chunks|
    && Summarizes(e, w, s, i)
  }

  ghost predicate Tower(e: Settings, w: World, s: State, base: seq<Chunk>, m: int) {
    && Tiles(s, base, m)
    && forall i: nat :: i + 1 < |s.layers| ==> LayerSummarizes(e, w, s, i)
  }

  function Width(e: Settings, n: nat): int {
    Min(n, if e.maxCluster < 2 then 2 else e.maxCluster)
  }

  /** What a successful turn adds: one layer. */
  ghost predicate Grows(e: Settings, w: World, s: State, r: State)
    requires Formed(s)
  {
    && s.chunks <= r.chunks && r.layers == s.layers + [Span(|s.chunks|, |r.chunks|)]
    && var start, end := Top(s).start, Top(s).end;
    var k := |s.layers| - 1;
    var d := Decide(e, w.plan(k, end - start), start, end - start);
    && d.Split? && Partitions(d.clusters, start, end) && Below(d.clusters, end) && [] !in d.clusters
    && multiset(r.chunks[end..]) == Summaries(w, k, d.clusters, s.chunks, |d.clusters|)
    && (Size(s) > 2 ==> |r.chunks| - end == |d.clusters| < Min(e.maxCluster, Size(s)))
    && (Size(s) == 2 ==> |r.chunks| - end <= 1)
  }

  lemma SplitNeedsTwo(e: Settings, p: Plan, start: nat, size: nat)
    requires Decide(e, p, start, size).Split?
    ensures size > 2 ==> e.maxCluster >= 2
  {
    hide LabelsOf, AllClusters;
  }

  lemma LoopUnfolds(e: Settings, w: World, s: State)
    requires Formed(s) && Honest(e, w)
    ensures !Going(s) ==> Loop(e, w, s) == s
    ensures Going(s) ==> Loop(e, w, s) == Loop(e, w, NextLayer(e, w, s))
    ensures Going(s) && NextLayer(e, w, s).stop.Some? ==> Loop(e, w, s) == NextLayer(e, w, s)
  {
    hide NextLayer, Honest;
  }

  lemma TurnUnfolds(e: Settings, w: World, s: State)
    requires Formed(s) && Going(s) && Honest(e, w)
    ensures var k, start, end := |s.layers| - 1, Top(s).start, Top(s).end;
      var p := w.plan(k, end - start);
      var d := Decide(e, p, start, end - start);
      var r := NextLayer(e, w, s);
      && (d.Stop? ==> r == s.(stop := Some(d.failure)))
      && (d.Split? ==>
            && Below(d.clusters, end) && Partitions(d.clusters, start, end) && [] !in d.clusters && |d.clusters| >= 1
            && (end - start == 2 ==> |d.clusters| == 1)
              && (end - start > 2 ==> |d.clusters| < Min(e.maxCluster, end - start))
            && var g := Gather(e, w, k, d.clusters, s.chunks, s.errors, p.schedule);
               r == (if g.stop.Some? then s.(errors := g.errors, stop := g.stop)
                     else if end - start != 2 && |g.chunks| - end != |d.clusters|
                       then s.(errors := g.errors, stop := Some(CountMismatch))
                     else State(g.chunks, g.errors, s.layers + [Span(end, |g.chunks|)], None)))
  {
    hide Decide, Gather, Partitions, HonestPlan, Below;
    var start, end := Top(s).start, Top(s).end;
    var p := w.plan(|s.layers| - 1, end - start);
    if Decide(e, p, start, end - start).Split? {
      SplitNeedsTwo(e, p, start, end - start);
      DecisionPartitions(e, p, start, end - start);
    }
  }

  lemma {:induction false} FailuresAtMost(w: World, k: nat, clusters: seq<seq<nat>>, base: seq<Chunk>, n: nat)
    requires Below(clusters, |base|) && n <= |clusters|
    ensures Failures(w, k, clusters, base, n) <= n
    decreases n
  {
    hide Answer, Below;
    if n > 0 {
      FailuresAtMost(w, k, clusters, base, n - 1);
    }
  }

  /** A turn goes on exactly if the layer can be split, no task sees the cancellation, and no summary fails;
      only a layer of two chunks survives a failure, and only within the error budget.  In a larger layer a
      single failure stops the run at the count of the new chunks, whatever is left of the budget. */
  lemma LayerSucceeds(e: Settings, w: World, s: State)
    requires Formed(s) && Going(s) && Honest(e, w)
    ensures var k, start, end := |s.layers| - 1, Top(s).start, Top(s).end;
      var d := Decide(e, w.plan(k, end - start), start, end - start);
      var r := NextLayer(e, w, s);
      && (d.Split? ==> Below(d.clusters, |s.chunks|))
      && (r.stop.None? <==>
            && d.Split? && !AnyCancel(w, k, d.clusters, s.chunks)
            && var failures := Failures(w, k, d.clusters, s.chunks, |d.clusters|);
               failures == 0 || (Size(s) == 2 && s.errors + failures < e.maxErrors))
      && (r.stop.None? ==> Grows(e, w, s, r))
      && (r.stop.Some? ==> r.chunks == s.chunks && r.layers == s.layers)
  {
    hide Honest, NextLayer, Decide, Gather, Partitions, Failures, Summaries, AnyCancel, Below, Min;
    TurnUnfolds(e, w, s);
    var k, start, end := |s.layers| - 1, Top(s).start, Top(s).end;
    var p := w.plan(k, end - start);
    var d := Decide(e, p, start, end - start);
    if d.Split? {
      GatherIsScheduleFree(e, w, k, d.clusters, s.chunks, s.errors, p.schedule);
      FailuresAtMost(w, k, d.clusters, s.chunks, |d.clusters|);
    }
  }

  lemma FitsStays(s: State, r: State, m: int, i: nat)
    requires i < |s.layers| && s.layers <= r.layers && s.chunks <= r.chunks && Fits(s, m, i)
    ensures Fits(r, m, i)
  {
  }

  lemma FitsNew(e: Settings, w: World, s: State, r: State, base: seq<Chunk>)
    requires Tiles(s, base, Width(e, |base|)) && Going(s) && Formed(r) && Grows(e, w, s, r)
    ensures Fits(r, Width(e, |base|), |s.layers|)
  {
    hide Partitions, Below, Summaries, Decide;
    var n, m := |s.layers|, Width(e, |base|);
    assert Fits(s, m, n - 1);
    hide Tiles;
    assert SizeAt(s, n - 1) == Size(s) == SizeAt(r, n - 1);
    if n == 1 {
      assert s.layers[0] == Span(0, |base|) by { FirstSpan(s, base, m); }
    }
  }

  lemma FirstSpan(s: State, base: seq<Chunk>, m: int)
    requires Tiles(s, base, m)
    ensures s.layers[0] == Span(0, |base|)
  {
    hide Fits;
  }

  lemma TilesGrow(e: Settings, w: World, s: State, r: State, base: seq<Chunk>)
    requires Tiles(s, base, Width(e, |base|)) && Going(s) && Formed(r) && Grows(e, w, s, r)
    ensures Tiles(r, base, Width(e, |base|))
  {
    hide Partitions, Below, Summaries, Decide, Fits;
    var n, m := |s.layers|, Width(e, |base|);
    forall i: nat | i < |r.layers| ensures Fits(r, m, i) {
      if i < n {
        FitsStays(s, r, m, i);
      } else {
        FitsNew(e, w, s, r, base);
      }
    }
  }

  lemma SummarizesStays(e: Settings, w: World, s: State, r: State, i: nat)
    requires i + 1 < |s.layers| && s.chunks <= r.chunks && s.layers <= r.layers && LayerSummarizes(e, w, s, i)
    ensures LayerSummarizes(e, w, r, i)
  {
    hide Partitions, Decide, Summaries;
    var end := s.layers[i].end;
    assert r.chunks[..end] == s.chunks[..end];
    assert r.chunks[s.layers[i + 1].start..s.layers[i + 1].end] == s.chunks[s.layers[i + 1].start..s.layers[i + 1].end];
  }

  lemma SummarizesNew(e: Settings, w: World, s: State, r: State)
    requires Formed(s) && Formed(r) && Going(s) && Grows(e, w, s, r)
    ensures LayerSummarizes(e, w, r, |s.layers| - 1)
  {
    hide Partitions, Decide, Summaries;
    var end := |s.chunks|;
    assert r.chunks[..end] == s.chunks;
    assert r.chunks[end..|r.chunks|] == r.chunks[end..];
  }

  lemma TowerGrowsBy(e: Settings, w: World, s: State, r: State, base: seq<Chunk>)
    requires Formed(s) && Formed(r) && Going(s) && Tower(e, w, s, base, Width(e, |base|)) && Grows(e, w, s, r)
    ensures Tower(e, w, r, base, Width(e, |base|))
  {
    hide Decide, Partitions, Summaries, LayerSummarizes, Tiles, Below;
    var n := |s.layers|;
    TilesGrow(e, w, s, r, base);
    forall i: nat | i + 1 < |r.layers| ensures LayerSummarizes(e, w, r, i) {
      if i + 1 < n {
        SummarizesStays(e, w, s, r, i);
      } else {
        SummarizesNew(e, w, s, r);
      }
    }
  }

  lemma TowerStays(e: Settings, w: World, s: State, r: State, base: seq<Chunk>, m: int)
    requires Tower(e, w, s, base, m) && r.chunks == s.chunks && r.layers == s.layers
    ensures Tower(e, w, r, base, m)
  {
    hide LayerSummarizes, Fits;
    forall i: nat | i < |s.layers| ensures Fits(r, m, i) {
      FitsStays(s, r, m, i);
    }
    forall i: nat | i + 1 < |r.layers| ensures LayerSummarizes(e, w, r, i) {
      SummarizesStays(e, w, s, r, i);
    }
  }

  lemma TowerGrows(e: Settings, w: World, s: State, base: seq<Chunk>)
    requires Honest(e, w) && Formed(s) && Going(s) && Tower(e, w, s, base, Width(e, |base|))
    ensures Tower(e, w, NextLayer(e, w, s), base, Width(e, |base|))
  {
    var r := NextLayer(e, w, s);
    LayerSucceeds(e, w, s);
    hide Honest, NextLayer, Decide, Partitions, Summaries, Failures, AnyCancel;
    if r.stop.None? {
      TowerGrowsBy(e, w, s, r, base);
    } else {
      hide Grows;
      TowerStays(e, w, s, r, base, Width(e, |base|));
    }
  }

  lemma {:induction false} LoopKeepsTower(e: Settings, w: World, s: State, base: seq<Chunk>)
    requires Honest(e, w) && Formed(s) && Tower(e, w, s, base, Width(e, |base|))
    ensures Tower(e, w, Loop(e, w, s), base, Width(e, |base|))
    decreases if Going(s) then Size(s) else 0
  {
    if Going(s) {
      TowerGrows(e, w, s, base);
      hide Tower, Honest, NextLayer;
      LoopKeepsTower(e, w, NextLayer(e, w, s), base);
    }
  }

  /** Layer `i` ends at most this far up: the sum of the largest sizes the layers can have. */
  lemma {:induction false} LayersAreBounded(s: State, base: seq<Chunk>, m: int, i: nat)
    requires Tiles(s, base, m) && i < |s.layers|
    ensures 2 * s.layers[i].end <= 2 * |base| + 2 * i * m - i * (i + 1)
    decreases i
  {
    assert Fits(s, m, i);
    if i > 0 {
      LayersAreBounded(s, base, m, i - 1);
      hide Tiles;
      assert 2 * i * m == 2 * (i - 1) * m + 2 * m;
      assert i * (i + 1) == (i - 1) * i + 2 * i;
    } else {
      FirstSpan(s, base, m);
    }
  }

  lemma TriangleBound(m: int, i: nat)
    requires i <= m
    ensures 2 * i * m - i * (i + 1) <= m * (m - 1)
  {
    var d := m - i;
    assert d * (d - 1) >= 0;
    assert m * (m - 1) - (2 * i * m - i * (i + 1)) == d * (d - 1);
  }

  lemma InitialTower(e: Settings, w: World, base: seq<Chunk>, errors: nat)
    ensures Tower(e, w, Initial(base, errors), base, Width(e, |base|))
  {
    hide LayerSummarizes;
  }

  lemma TowerIsBounded(e: Settings, w: World, s: State, base: seq<Chunk>, m: int)
    requires Tower(e, w, s, base, m) && m == Width(e, |base|)
    ensures 2 * |s.chunks| <= 2 * |base| + m * (m - 1)
  {
    hide LayerSummarizes;
    var last := |s.layers| - 1;
    LayersAreBounded(s, base, m, last);
    assert Fits(s, m, last);
    hide Tiles;
    if last > 0 {
      TriangleBound(m, last);
    } else {
      assert m * (m - 1) >= 0;
    }
  }

  /** A finished call returns the usable chunks followed by layers of summaries.  The layers tile the list and
      strictly shrink down to at most one chunk, each is made of the clusters that partition the layer below,
      and with m the smaller of the number of chunks and the largest cluster count there are at most
      n + m(m-1)/2 chunks. */
  lemma FinishedCall(e: Settings, w: World, inputs: seq<Input>, errors: nat)
    requires Honest(e, w) && |inputs| > 1
    requires Call(e, w, inputs, errors).Chunks?
    ensures var base := Usable(inputs);
      var s := Loop(e, w, Initial(base, errors));
      var m := Width(e, |base|);
      && Call(e, w, inputs, errors) == Chunks(s.chunks)
      && Tower(e, w, s, base, m)
      && Size(s) <= 1
      && 2 * |s.chunks| <= 2 * |base| + m * (m - 1)
  {
    var base := Usable(inputs);
    var s := Initial(base, errors);
    var m := Width(e, |base|);
    InitialTower(e, w, base, errors);
    hide Loop, Honest, Usable, Tower, Width;
    LoopKeepsTower(e, w, s, base);
    TowerIsBounded(e, w, Loop(e, w, s), base, m);
  }

  lemma NoClusters(clusters: seq<seq<nat>>, start: nat, end: nat)
    requires start < end && Partitions(clusters, start, end)
    ensures clusters != []
  {
    assert Covers(clusters, start);
  }

  lemma EmptyLayerAbove(e: Settings, w: World, s: State, i: nat)
    requires i + 1 < |s.layers| && LayerSummarizes(e, w, s, i) && SizeAt(s, i) > 1 && SizeAt(s, i + 1) == 0
    ensures SizeAt(s, i) == 2 && s.layers[i].end <= |s.chunks|
    ensures !w.ask(i, 0, [s.chunks[s.layers[i].start].text, s.chunks[s.layers[i].start + 1].text]).Summary?
  {
    hide Decide, Partitions, Summaries;
    var start, end := s.layers[i].start, s.layers[i].end;
    var d := Decide(e, w.plan(i, end - start), start, end - start);
    NoClusters(d.clusters, start, end);
    PairDecision(e, w.plan(i, end - start), start);
    assert s.chunks[end..end] == [];
    SingleSummary(w, i, s.chunks[..end], start);
  }

  lemma PairDecision(e: Settings, p: Plan, start: nat)
    ensures Decide(e, p, start, 2).Split? ==> Decide(e, p, start, 2).clusters == [[start, start + 1]]
  {
  }

  /** The one summary of a layer of two chunks. */
  lemma SingleSummary(w: World, k: nat, base: seq<Chunk>, start: nat)
    requires start + 2 == |base| && Below([[start, start + 1]], |base|)
    ensures var r := w.ask(k, 0, [base[start].text, base[start + 1].text]);
      r.Summary? ==> Summaries(w, k, [[start, start + 1]], base, 1) != multiset{}
  {
    var clusters := [[start, start + 1]];
    assert Texts(base, clusters[0]) == [base[start].text, base[start + 1].text];
    UnfoldSummaries(w, k, clusters, base, 1);
    var a := Answer(w, k, clusters, base, 0);
    hide Summaries, Failures, Below;
    if a.Summary? {
      assert a.chunk in Given(a);
    }
  }

  /** When the last layer is empty although there were chunks, the single summary of two chunks failed. */
  lemma EmptyTopLayer(e: Settings, w: World, s: State, base: seq<Chunk>)
    requires Tower(e, w, s, base, Width(e, |base|)) && base != [] && Size(s) == 0
    ensures |s.layers| >= 2
    ensures var i := |s.layers| - 2;
      && SizeAt(s, i) == 2
      && s.layers[i].end <= |s.chunks|
      && !w.ask(i, 0, [s.chunks[s.layers[i].start].text, s.chunks[s.layers[i].start + 1].text]).Summary?
  {
    hide Decide, Partitions, Summaries, Summarizes, Given, Answer, Below;
    var n := |s.layers|;
    assert s.layers[0] == Span(0, |base|);
    assert Fits(s, Width(e, |base|), n - 1);
    assert LayerSummarizes(e, w, s, n - 2);
    hide Tiles, Fits;
    EmptyLayerAbove(e, w, s, n - 2);
  }

  // ---------- The summarizer ----------

  /** The RAPTOR object.  `chunks` and `tasks` are the variables the tasks of one call share. */
  class Summarizer {
    const settings: Settings
    var errorCount: nat
    var chunks: seq<Chunk>
    var tasks: seq<Task>
    var raised: Option<Failure>

    constructor (maxCluster: int, maxErrors: int)
      ensures settings == Settings(maxCluster, if maxErrors < 1 then 1 else maxErrors) && errorCount == 0
    {
      settings := Settings(maxCluster, if maxErrors < 1 then 1 else maxErrors);
      errorCount, chunks, tasks, raised := 0, [], [], None;
    }

    ghost function CrewNow(): Crew
      reads this
    {
      Crew(chunks, errorCount, tasks, raised)
    }

    /** `summarize`, up to the point where task `c` waits again. */
    method Summarize(w: World, k: nat, clusters: seq<seq<nat>>, c: nat)
      requires |tasks| == |clusters| && Below(clusters, |chunks|)
      modifies this
      ensures CrewNow() == Move(settings, w, k, clusters, old(CrewNow()), c)
    {
      if raised.Some? || c >= |tasks| {
        return;
      }
      match tasks[c]
      case Ended(_) =>
      case Created => tasks := tasks[c := Asked(Texts(chunks, clusters[c]))];
      case Asked(texts) =>
        match w.ask(k, c, texts)
        case Summary(x) =>
          chunks := chunks + [x];
          tasks := tasks[c := Ended(Some(x))];
        case Cancel => raised := Some(Canceled);
        case Failed =>
          errorCount := errorCount + 1;
          tasks := tasks[c := Ended(None)];
          if errorCount >= settings.maxErrors {
            raised := Some(Aborted);
          }
    }

    /** `asyncio.gather` over one task per cluster. */
    method GatherTasks(w: World, k: nat, clusters: seq<seq<nat>>, schedule: seq<nat>)
      requires Below(clusters, |chunks|) && raised.None?
      modifies this
      ensures CrewNow() == Gather(settings, w, k, clusters, old(chunks), old(errorCount), schedule)
    {
      tasks := seq(|clusters|, _ => Created);
      ghost var begun := CrewNow();
      var order := schedule + Drain(|clusters|);
      for i := 0 to |order|
        invariant |tasks| == |clusters| && Below(clusters, |chunks|)
        invariant Moves(settings, w, k, clusters, begun, order)
               == Moves(settings, w, k, clusters, CrewNow(), order[i..])
      {
        assert order[i..][1..] == order[i + 1..];
        ghost var before := CrewNow();
        Summarize(w, k, clusters, order[i]);
        assert Moves(settings, w, k, clusters, before, order[i..])
            == Moves(settings, w, k, clusters, CrewNow(), order[i + 1..]);
        assert before.chunks <= chunks;
      }
    }

    /** The body of `while end - start > 1`, but for the three assignments at its end. */
    method AddLayer(w: World, layers: seq<Span>) returns (failure: Option<Failure>)
      requires raised.None? && Honest(settings, w)
      requires var s := State(chunks, errorCount, layers, None); Formed(s) && Going(s)
      modifies this
      ensures var next := NextLayer(settings, w, State(old(chunks), old(errorCount), layers, None));
        && failure == next.stop && errorCount == next.errors
        && (failure.None? ==>
              && raised.None? && chunks == next.chunks && |old(chunks)| <= |chunks|
              && next.layers == layers + [Span(|old(chunks)|, |chunks|)])
    {
      hide NextLayer, Decide, Gather, Honest, Partitions, Below, Min;
      ghost var s := State(chunks, errorCount, layers, None);
      TurnUnfolds(settings, w, s);
      var top := layers[|layers| - 1];
      var start, end := top.start, top.end;
      var k := |layers| - 1;
      var p := w.plan(k, end - start);
      match Decide(settings, p, start, end - start)
      case Stop(f) => failure := Some(f);
      case Split(clusters) =>
        GatherTasks(w, k, clusters, p.schedule);
        failure := raised;
        if raised.None? && end - start != 2 && |chunks| - end != |clusters| {
          failure := Some(CountMismatch);
        }
    }

    /** `__call__`. */
    method Run(w: World, inputs: seq<Input>) returns (r: Result)
      requires Honest(settings, w)
      modifies this
      ensures r == Call(settings, w, inputs, old(errorCount))
      ensures |inputs| > 1 ==> errorCount == Loop(settings, w, Initial(Usable(inputs), old(errorCount))).errors
      ensures |inputs| <= 1 ==> errorCount == old(errorCount)
    {
      if |inputs| <= 1 {
        return Chunks([]);
      }
      hide Loop, NextLayer, Usable, Honest;
      chunks, raised := Usable(inputs), None;
      var start: nat, end: nat := 0, |chunks|;
      var layers := [Span(0, end)];
      ghost var s := State(chunks, errorCount, layers, None);
      ghost var begun := s;
      while end - start > 1
        invariant s == State(chunks, errorCount, layers, None) && Formed(s) && Top(s) == Span(start, end)
        invariant raised.None? && Loop(settings, w, begun) == Loop(settings, w, s)
        decreases end - start
      {
        LoopUnfolds(settings, w, s);
        ghost var next := NextLayer(settings, w, s);
        var failure := AddLayer(w, layers);
        if failure.Some? {
          return Raised(failure.value);
        }
        layers := layers + [Span(end, |chunks|)];
        start, end := end, |chunks|;
        s := next;
      }
      LoopUnfolds(settings, w, s);
      r := Chunks(chunks);
    }
  }
}
