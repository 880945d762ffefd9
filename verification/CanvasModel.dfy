/** The agent canvas and one batch of its scheduler, as functions on values.

    A canvas is a table of components.  `Canvas.run` keeps a growing `path` of component
    ids; in every batch it launches `path[idx..]`, dropping the entries whose references
    were not scheduled earlier, and then post-processes the batch, which appends to the path.
    What an invocation does (did it fail, is its content lazy, which branch did it choose)
    is an oracle indexed by the path position that was launched and the component there. */
module CanvasModel {
  import opened Common
  import Cursor

  type Id = string

  /** The component classes `run` treats differently; every other class is `Plain`. */
  datatype Kind =
    | Begin | UserFillUp | Message | Categorize | Switch
    | Iteration | IterationItem | Loop | LoopItem | ExitLoop | Plain

  datatype Handler = NoHandler | Handler(goto: seq<Id>, hasDefault: bool)

  /** `refs` are the component ids named by `get_input_elements`; `maxCount` is read for loops only. */
  datatype Component = Component(
    kind: Kind, downstream: seq<Id>, parent: Option<Id>, refs: set<Id>, handler: Handler, maxCount: int)

  /** `order` is the order of the `components` dictionary. */
  datatype Canvas = Canvas(order: seq<Id>, cpns: map<Id, Component>)

  /** What the invocation launched at one path position did, as seen while it is post-processed. */
  datatype Outcome = Outcome(
    errored: bool,            // cpn.error() is set
    lazy: bool,               // its "content" output is still a partial
    next: seq<Id>,            // "_next" of Categorize and Switch
    resolved: set<Id>,        // queued components whose content is no longer lazy
    items: Option<nat>,       // length of the iterated value, None when it is not a list
    condsHold: bool,          // the termination conditions of a loop hold
    canceled: bool)           // the item saw the cancellation flag

  type Oracle = (nat, Id) -> Outcome

  datatype How = Direct | Deferred | Container
  datatype Event =
    | NodeStarted(id: Id) | MessageEnd(id: Id) | DefaultAnswer(id: Id) | NodeFinished(id: Id, how: How)

  datatype Status = Running | Paused | Failed

  /** The locals and fields of one call of `run`; `launched` lists the ids whose tasks were created. */
  datatype State = State(
    path: seq<Id>, idx: nat, error: bool, partials: seq<Id>,
    cursors: map<Id, int>, events: seq<Event>, launched: seq<Id>, status: Status)

  // ---------- Lookups ----------

  const ABSENT := Component(Plain, [], None, {}, NoHandler, 0)

  /** The lookup is total; `Closed` canvases never use the default (see `CanvasTermination.StaysInCanvas`). */
  function Of(g: Canvas, id: Id): Component {
    if id in g.cpns then g.cpns[id] else ABSENT
  }

  predicate IsContainer(k: Kind) { k == Iteration || k == Loop }
  predicate IsItem(k: Kind) { k == IterationItem || k == LoopItem }
  function ItemKind(k: Kind): Kind { if k == Loop then LoopItem else IterationItem }

  predicate IsItemOf(g: Canvas, owner: Id, id: Id) {
    Of(g, id).kind == ItemKind(Of(g, owner).kind) && Of(g, id).parent == Some(owner)
  }

  function FirstItem(g: Canvas, ids: seq<Id>, owner: Id): Option<Id> {
    if ids == [] then None
    else if IsItemOf(g, owner, ids[0]) then Some(ids[0])
    else FirstItem(g, ids[1..], owner)
  }

  /** `get_start` of an Iteration or a Loop: its first item in dictionary order. */
  function Start(g: Canvas, owner: Id): Option<Id> {
    FirstItem(g, g.order, owner)
  }

  /** Some id in the path names a user form: the text test `run` makes, not the class test. */
  predicate NamedFillUp(id: Id) {
    exists i :: 0 <= i <= |id| && NamesFormAt(id, i)
  }

  predicate NamesFormAt(id: Id, i: nat)
    requires i <= |id|
  {
    i + 10 <= |id| && Lower(id[i..i + 10]) == "userfillup"
  }

  /** Every id the canvas mentions is a component, and every parent is a container with an item. */
  ghost predicate Closed(g: Canvas) {
    && (forall id :: id in g.order <==> id in g.cpns)
    && (forall id <- g.cpns ::
          var c := g.cpns[id];
          && (forall d <- c.downstream :: d in g.cpns)
          && (c.handler.Handler? ==> forall d <- c.handler.goto :: d in g.cpns)
          && c.refs <= g.cpns.Keys
          && (c.parent.Some? ==> c.parent.value in g.cpns
                                 && IsContainer(g.cpns[c.parent.value].kind)
                                 && Start(g, c.parent.value).Some?)
          && (IsContainer(c.kind) ==> Start(g, id).Some?)
          && (IsItem(c.kind) || c.kind == ExitLoop ==> c.parent.Some?))
  }

  ghost predicate InCanvas(g: Canvas, ids: seq<Id>) {
    forall id <- ids :: id in g.cpns
  }

  ghost predicate OracleInCanvas(g: Canvas, o: Oracle) {
    forall p: nat, id :: InCanvas(g, o(p, id).next)
  }

  // ---------- Launching a batch ----------

  /** With `done` in front of it, `id` waits for a component that is not scheduled earlier in the path. */
  predicate Blocked(g: Canvas, done: seq<Id>, id: Id) {
    && Of(g, id).kind != Begin
    && Of(g, id).kind != UserFillUp
    && !(Of(g, id).refs <= Members(done))
    && !NamedFillUp(if done == [] then id else done[0])
  }

  function Members(ids: seq<Id>): set<Id> {
    set id | id in ids
  }

  /** The part of the batch `pending` that `_run_batch` keeps behind `done`, left to right. */
  function Kept(g: Canvas, done: seq<Id>, pending: seq<Id>): seq<Id>
    decreases |pending|
  {
    if pending == [] then []
    else if Blocked(g, done, pending[0]) then Kept(g, done, pending[1..])
    else [pending[0]] + Kept(g, done + [pending[0]], pending[1..])
  }

  function CursorOf(cursors: map<Id, int>, id: Id): int {
    if id in cursors then cursors[id] else 0
  }

  /** The cursor an item holds after its invocation at position `p`. */
  function StepCursor(g: Canvas, o: Oracle, p: nat, id: Id, c: int): int {
    if Of(g, id).kind == IterationItem then Cursor.IterationStep(c, o(p, id).items, o(p, id).canceled)
    else Cursor.LoopStep(c, Of(g, Of(g, id).parent.GetOr("")).maxCount, o(p, id).canceled)
  }

  /** The invocations of a batch launched from position `p` on: only the items keep state of their own. */
  function Invoke(g: Canvas, o: Oracle, cursors: map<Id, int>, batch: seq<Id>, p: nat): map<Id, int>
    decreases |batch|
  {
    if batch == [] then cursors
    else Invoke(g, o, InvokeOne(g, o, cursors, batch[0], p), batch[1..], p + 1)
  }

  function InvokeOne(g: Canvas, o: Oracle, cursors: map<Id, int>, id: Id, p: nat): map<Id, int> {
    if IsItem(Of(g, id).kind)
    then cursors[id := StepCursor(g, o, p, id, CursorOf(cursors, id))]
    else cursors
  }

  function Starts(ids: seq<Id>): seq<Event> {
    if ids == [] then [] else [NodeStarted(ids[0])] + Starts(ids[1..])
  }

  /** The batch `_run_batch` launches in state `s`. */
  function Batch(g: Canvas, s: State): seq<Id>
    requires s.idx <= |s.path|
  {
    Kept(g, s.path[..s.idx], s.path[s.idx..])
  }

  /** The state after the batch was announced, launched and awaited. */
  function Launch(g: Canvas, o: Oracle, s: State, batch: seq<Id>): State
    requires s.idx <= |s.path|
  {
    s.(path := s.path[..s.idx] + batch,
       cursors := Invoke(g, o, s.cursors, batch, s.idx),
       events := s.events + Starts(s.path[s.idx..]),
       launched := s.launched + batch)
  }

  // ---------- Post-processing one position ----------

  /** How many entries at the head of the queue have become available. */
  function Ready(partials: seq<Id>, resolved: set<Id>): (n: nat)
    ensures n <= |partials|
  {
    if partials != [] && partials[0] in resolved then 1 + Ready(partials[1..], resolved) else 0
  }

  function Deferrals(ids: seq<Id>): seq<Event> {
    if ids == [] then [] else [NodeFinished(ids[0], Deferred)] + Deferrals(ids[1..])
  }

  /** `while partials`: report the queue's head as long as its content is available. */
  function Release(s: State, resolved: set<Id>): State {
    var n := Ready(s.partials, resolved);
    s.(partials := s.partials[n..], events := s.events + Deferrals(s.partials[..n]))
  }

  function MessageStage(g: Canvas, o: Oracle, s: State, i: nat, id: Id): State {
    if Of(g, id).kind == Message
    then Release(s.(events := s.events + [MessageEnd(id)]), o(i, id).resolved)
    else s
  }

  predicate HasGoto(h: Handler) { h.Handler? && h.goto != [] }

  /** The component failed and its handler sends the run elsewhere. */
  predicate Diverts(g: Canvas, o: Oracle, i: nat, id: Id) {
    o(i, id).errored && HasGoto(Of(g, id).handler)
  }

  /** The component failed and nothing handles it. */
  predicate Unhandled(g: Canvas, o: Oracle, i: nat, id: Id) {
    o(i, id).errored && !HasGoto(Of(g, id).handler) && !(Of(g, id).handler.Handler? && Of(g, id).handler.hasDefault)
  }

  function ErrorStage(g: Canvas, o: Oracle, s: State, i: nat, id: Id): State {
    if !o(i, id).errored then s
    else if HasGoto(Of(g, id).handler) then s.(path := s.path + Of(g, id).handler.goto)
    else if Unhandled(g, o, i, id) then s.(error := true)
    else s.(events := s.events + [DefaultAnswer(id)])
  }

  /** A Message has been streamed into a string by now, so it is never lazy here. */
  predicate Defers(g: Canvas, o: Oracle, i: nat, id: Id) {
    o(i, id).lazy && Of(g, id).kind != Message
  }

  function FinishStage(g: Canvas, o: Oracle, s: State, i: nat, id: Id): State {
    if IsContainer(Of(g, id).kind) then s
    else if Defers(g, o, i, id) && !s.error then s.(partials := s.partials + [id])
    else s.(events := s.events + [NodeFinished(id, Direct)])
  }

  function AppendPath(path: seq<Id>, id: Id): (r: seq<Id>)
    ensures path <= r
  {
    if path != [] && path[|path| - 1] == id then path else path + [id]
  }

  function ExtendPath(path: seq<Id>, ids: seq<Id>): (r: seq<Id>)
    ensures path <= r
    decreases |ids|
  {
    if ids == [] then path else ExtendPath(AppendPath(path, ids[0]), ids[1..])
  }

  /** `end()` of an item: the cursor says so, or (loops only) the conditions do. */
  predicate Ends(g: Canvas, o: Oracle, i: nat, id: Id, cursor: int) {
    IsItem(Of(g, id).kind) && (cursor == -1 || (Of(g, id).kind == LoopItem && o(i, id).condsHold))
  }

  /** The ids offered to `_append_path` after position `i`, before duplicates are suppressed. */
  function Successors(g: Canvas, o: Oracle, i: nat, id: Id, cursor: int): seq<Id> {
    var c := Of(g, id);
    if Ends(g, o, i, id, cursor) then Of(g, c.parent.GetOr("")).downstream
    else if c.kind == Categorize || c.kind == Switch then o(i, id).next
    else if IsContainer(c.kind) then Start(g, id).ToSeq()
    else if c.kind == ExitLoop && Of(g, c.parent.GetOr("")).kind == Loop then Of(g, c.parent.GetOr("")).downstream
    else if c.downstream == [] && c.parent.Some? then Start(g, c.parent.value).ToSeq()
    else c.downstream
  }

  function ExtendStage(g: Canvas, o: Oracle, s: State, i: nat, id: Id): State {
    var cursor := CursorOf(s.cursors, id);
    var s1 :=
      if Ends(g, o, i, id, cursor)
      then s.(cursors := s.cursors[id := -1],
              events := s.events + [NodeFinished(Of(g, id).parent.GetOr(""), Container)])
      else s;
    if Diverts(g, o, i, id) then s1
    else s1.(path := ExtendPath(s1.path, Successors(g, o, i, id, cursor)))
  }

  /** The body of the post-processing loop for the component `id` launched at position `i`. */
  function Post(g: Canvas, o: Oracle, s: State, i: nat, id: Id): State {
    ExtendStage(g, o, FinishStage(g, o, ErrorStage(g, o, MessageStage(g, o, s, i, id), i, id), i, id), i, id)
  }

  lemma ErrorFrame(g: Canvas, o: Oracle, s: State, i: nat, id: Id)
    ensures var r := ErrorStage(g, o, s, i, id);
      && s.path <= r.path && r.idx == s.idx && r.launched == s.launched && r.status == s.status
      && r.error == (s.error || Unhandled(g, o, i, id))
  {
    hide Of;
  }

  lemma ExtendFrame(g: Canvas, o: Oracle, s: State, i: nat, id: Id)
    ensures var r := ExtendStage(g, o, s, i, id);
      && s.path <= r.path && r.idx == s.idx && r.launched == s.launched && r.status == s.status && r.error == s.error
  {
    hide Successors, Ends, Of, Diverts;
  }

  /** Post-processing appends to the path and leaves the position, the log of launches and the status alone. */
  lemma PostFrame(g: Canvas, o: Oracle, s: State, i: nat, id: Id)
    ensures var r := Post(g, o, s, i, id);
      && s.path <= r.path && r.idx == s.idx && r.launched == s.launched && r.status == s.status
      && r.error == (s.error || Unhandled(g, o, i, id))
  {
    hide Successors, Ready, Deferrals, Defers, Unhandled, Ends, HasGoto, Diverts, ExtendPath;
    var s1 := MessageStage(g, o, s, i, id);
    assert s1.path == s.path && s1.error == s.error;
    var s2 := ErrorStage(g, o, s1, i, id);
    ErrorFrame(g, o, s1, i, id);
    var s3 := FinishStage(g, o, s2, i, id);
    assert s3.path == s2.path && s3.error == s2.error;
    ExtendFrame(g, o, s3, i, id);
  }

  function PostAll(g: Canvas, o: Oracle, s: State, i: nat, batch: seq<Id>): State
    decreases |batch|
  {
    if batch == [] then s else PostAll(g, o, Post(g, o, s, i, batch[0]), i + 1, batch[1..])
  }

  // ---------- One turn of the main loop ----------

  predicate IsForm(g: Canvas, id: Id) {
    Of(g, id).kind == UserFillUp
  }

  /** The entries that are (or are not) user forms. */
  function Forms(g: Canvas, ids: seq<Id>, wanted: bool): seq<Id> {
    if ids == [] then []
    else if IsForm(g, ids[0]) == wanted then [ids[0]] + Forms(g, ids[1..], wanted)
    else Forms(g, ids[1..], wanted)
  }

  /** User forms first, everything else after them, each in path order. */
  function FormsFirst(g: Canvas, ids: seq<Id>): seq<Id> {
    Forms(g, ids, true) + Forms(g, ids, false)
  }

  /** After the batch: give up behind an error, or move `idx` and test for a pause. */
  function Conclude(g: Canvas, s: State, upto: nat): State {
    if s.error then s.(path := Take(s.path, s.idx), status := Failed)
    else if Forms(g, Drop(s.path, upto), true) != []
    then s.(path := FormsFirst(g, Drop(s.path, upto)), idx := upto, status := Paused)
    else s.(idx := upto)
  }

  predicate Live(s: State) {
    s.status == Running && s.idx < |s.path|
  }

  /** One turn of `while idx < len(self.path)`. */
  function Step(g: Canvas, o: Oracle, s: State): State
    requires s.idx <= |s.path|
  {
    var batch := Batch(g, s);
    Conclude(g, PostAll(g, o, Launch(g, o, s, batch), s.idx, batch), s.idx + |batch|)
  }

  /** At most `fuel` turns of the main loop. */
  function Steps(g: Canvas, o: Oracle, s: State, fuel: nat): State
    decreases fuel
  {
    if fuel == 0 || !Live(s) then s else Steps(g, o, Step(g, o, s), fuel - 1)
  }

  predicate Resumes(path: seq<Id>) {
    path != [] && NamedFillUp(path[|path| - 1])
  }

  /** The state in which `run` enters its main loop. */
  function Begun(path: seq<Id>, cursors: map<Id, int>): State {
    var p := if Resumes(path) then path else path + ["begin"];
    State(p, |p| - 1, false, [], cursors, [], [], Running)
  }

  lemma {:induction false} StepsCompose(g: Canvas, o: Oracle, s: State, a: nat, b: nat)
    ensures Steps(g, o, s, a + b) == Steps(g, o, Steps(g, o, s, a), b)
    decreases a
  {
    hide Step;
    if a > 0 && Live(s) {
      StepsCompose(g, o, Step(g, o, s), a - 1, b);
      assert a + b - 1 == a - 1 + b;
    }
  }
}
