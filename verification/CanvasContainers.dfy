/** The closed form of a container run: an Iteration or a Loop whose body is a chain, followed
    through scheduler, path and item cursor from its launch to its downstream. */
module CanvasContainers {
  import opened Common
  import opened CanvasModel
  import Cursor

  /** `s` is about to run the single pending component `id` behind `done`. */
  ghost predicate At(s: State, done: seq<Id>, id: Id) {
    s.status == Running && !s.error && s.path == done + [id] && s.idx == |done|
  }

  ghost predicate NoForms(g: Canvas, ids: seq<Id>) {
    Forms(g, ids, true) == []
  }

  /** The state after the turn that runs `id` alone, without a failure. */
  ghost predicate AfterSingle(g: Canvas, o: Oracle, s: State, done: seq<Id>, id: Id, r: State) {
    var p := |done|;
    var cursors := InvokeOne(g, o, s.cursors, id, p);
    var cursor := CursorOf(cursors, id);
    var path := ExtendPath(done + [id], Successors(g, o, p, id, cursor));
    && r.launched == s.launched + [id]
    && r.cursors == (if Ends(g, o, p, id, cursor) then cursors[id := -1] else cursors)
    && !r.error && r.idx == p + 1
    && if NoForms(g, path[p + 1..])
       then r.status == Running && r.path == path
       else r.status == Paused && r.path == FormsFirst(g, path[p + 1..])
  }

  lemma QuietPost(g: Canvas, o: Oracle, s: State, i: nat, id: Id)
    requires !o(i, id).errored && !s.error
    ensures var r := Post(g, o, s, i, id);
      var cursor := CursorOf(s.cursors, id);
      && r.path == ExtendPath(s.path, Successors(g, o, i, id, cursor))
      && r.cursors == (if Ends(g, o, i, id, cursor) then s.cursors[id := -1] else s.cursors)
      && !r.error && r.idx == s.idx && r.launched == s.launched && r.status == s.status
  {
    hide Successors, ExtendPath, Ready, Deferrals;
  }

  lemma SingleStep(g: Canvas, o: Oracle, s: State, done: seq<Id>, id: Id)
    requires At(s, done, id) && !Blocked(g, done, id) && !o(|done|, id).errored
    ensures Live(s) && AfterSingle(g, o, s, done, id, Step(g, o, s))
  {
    hide Blocked, Post, Successors, ExtendPath, Forms, FormsFirst, InvokeOne, Starts, Ends;
    assert s.path[..s.idx] == done && s.path[s.idx..] == [id];
    assert Kept(g, done, [id]) == [id] + Kept(g, done + [id], []) == [id];
    var s1 := Launch(g, o, s, [id]);
    assert s1.path == done + [id];
    assert Invoke(g, o, s.cursors, [id], |done|) == InvokeOne(g, o, s.cursors, id, |done|) by {
      assert Invoke(g, o, InvokeOne(g, o, s.cursors, id, |done|), [], |done| + 1)
        == InvokeOne(g, o, s.cursors, id, |done|);
    }
    QuietPost(g, o, s1, |done|, id);
    var end := Post(g, o, s1, |done|, id);
    assert PostAll(g, o, s1, |done|, [id]) == PostAll(g, o, end, |done| + 1, []) == end;
    hide PostAll, Launch, Kept, Invoke;
    assert Step(g, o, s) == Conclude(g, end, |done| + 1);
  }

  /** A turn that runs `id` alone and offers one other component, which is not a form. */
  lemma StepTo(g: Canvas, o: Oracle, s: State, done: seq<Id>, id: Id, next: Id)
    requires At(s, done, id) && !Blocked(g, done, id) && !o(|done|, id).errored
    requires next != id && !IsForm(g, next)
    requires var cursor := CursorOf(InvokeOne(g, o, s.cursors, id, |done|), id);
      !Ends(g, o, |done|, id, cursor) && Successors(g, o, |done|, id, cursor) == [next]
    ensures Live(s) && At(Step(g, o, s), done + [id], next)
    ensures Step(g, o, s).launched == s.launched + [id]
    ensures Step(g, o, s).cursors == InvokeOne(g, o, s.cursors, id, |done|)
  {
    SingleStep(g, o, s, done, id);
    hide Step, Blocked, Successors, InvokeOne, Ends;
    assert ExtendPath(done + [id], [next]) == ExtendPath(done + [id] + [next], []) == done + [id] + [next];
    assert (done + [id] + [next])[|done| + 1..] == [next];
    assert Forms(g, [next], true) == [];
  }

  // ---------- Chains ----------

  /** Components the scheduler treats as plain steps of a body. */
  predicate Simple(k: Kind) { k == Begin || k == Message || k == Plain }

  /** Container `owner` with item `item` whose body is the chain `body`, each linked to the next and
      the last one linked to nothing. */
  ghost predicate Chain(g: Canvas, owner: Id, item: Id, body: seq<Id>) {
    && IsContainer(Of(g, owner).kind) && Start(g, owner) == Some(item)
    && |body| > 0 && Of(g, item).downstream == [body[0]]
    && (forall j :: 0 <= j < |body| ==> Simple(Of(g, body[j]).kind) && Of(g, body[j]).parent == Some(owner))
    && (forall j :: 0 <= j < |body| - 1 ==> Of(g, body[j]).downstream == [body[j + 1]])
    && Of(g, body[|body| - 1]).downstream == []
  }

  lemma {:induction false} StartIsItem(g: Canvas, ids: seq<Id>, owner: Id)
    ensures FirstItem(g, ids, owner).Some? ==> IsItemOf(g, owner, FirstItem(g, ids, owner).value)
  {
    if ids != [] && !IsItemOf(g, owner, ids[0]) {
      StartIsItem(g, ids[1..], owner);
    }
  }

  lemma {:induction false} LinksDiffer(g: Canvas, owner: Id, item: Id, body: seq<Id>, j: nat)
    requires Chain(g, owner, item, body) && j + 1 < |body|
    ensures body[j] != body[j + 1]
    decreases |body| - j
  {
    if j + 2 < |body| {
      LinksDiffer(g, owner, item, body, j + 1);
    }
  }

  /** Behind `before`, every reference in the container is scheduled by the time its first round gets there. */
  ghost predicate Grounded(g: Canvas, before: seq<Id>, owner: Id, item: Id, body: seq<Id>) {
    && !Blocked(g, before, owner)
    && !Blocked(g, before + [owner], item)
    && forall j :: 0 <= j < |body| ==> !Blocked(g, before + [owner, item] + body[..j], body[j])
  }

  /** A longer path with the same head blocks nothing new. */
  lemma BlockedShrinks(g: Canvas, a: seq<Id>, b: seq<Id>, id: Id)
    requires a != [] && b != [] && a[0] == b[0] && Members(a) <= Members(b)
    requires !Blocked(g, a, id)
    ensures !Blocked(g, b, id)
  {
    hide NamedFillUp;
  }

  /** No failure and no cancellation at positions `from..upto`. */
  ghost predicate Quiet(o: Oracle, from: nat, upto: nat) {
    forall p: nat, id :: from <= p < upto ==> !o(p, id).errored && !o(p, id).canceled
  }

  /** Everything the first round's grounding mentions is in `done`, under the same head. */
  lemma StillGrounded(g: Canvas, before: seq<Id>, owner: Id, known: seq<Id>, done: seq<Id>, id: Id)
    requires before + [owner] <= known && before + [owner] <= done
    requires Members(known) <= Members(done) && !Blocked(g, known, id)
    ensures !Blocked(g, done, id)
  {
    assert known[0] == (before + [owner])[0] == done[0];
    BlockedShrinks(g, known, done, id);
  }

  lemma KnownByRound(before: seq<Id>, owner: Id, item: Id, body: seq<Id>, done: seq<Id>, j: nat)
    requires before + [owner] <= done && j <= |body|
    requires item in done && Members(body[..j]) <= Members(done)
    ensures var known := before + [owner, item] + body[..j];
      before + [owner] <= known && Members(known) <= Members(done)
  {
    var known := before + [owner, item] + body[..j];
    forall x | x in known ensures x in done {
      if x in before + [owner] {
      } else if x != item {
        assert x in Members(body[..j]);
      }
    }
  }

  /** What follows member `j` of the body: the next member, or the item again. */
  function Next(item: Id, body: seq<Id>, j: nat): Id {
    if j + 1 < |body| then body[j + 1] else item
  }

  lemma BodyLink(g: Canvas, o: Oracle, owner: Id, item: Id, body: seq<Id>, j: nat, p: nat, c: int)
    requires Chain(g, owner, item, body) && j < |body|
    ensures Successors(g, o, p, body[j], c) == [Next(item, body, j)] && !Ends(g, o, p, body[j], c)
    ensures Next(item, body, j) != body[j] && !IsForm(g, Next(item, body, j)) && !IsItem(Of(g, body[j]).kind)
  {
    ItemFacts(g, owner, item, body);
    if j + 1 < |body| {
      LinksDiffer(g, owner, item, body, j);
    }
    hide FirstItem;
  }

  /** One turn inside the body. */
  lemma BodyStep(
      g: Canvas, o: Oracle, s: State, before: seq<Id>, owner: Id, item: Id, body: seq<Id>, done: seq<Id>, j: nat)
    requires Chain(g, owner, item, body) && Grounded(g, before, owner, item, body)
    requires before + [owner] <= done && j < |body|
    requires item in done && Members(body[..j]) <= Members(done)
    requires At(s, done, body[j]) && !o(|done|, body[j]).errored
    ensures Live(s) && At(Step(g, o, s), done + [body[j]], Next(item, body, j))
    ensures Step(g, o, s).cursors == s.cursors && Step(g, o, s).launched == s.launched + [body[j]]
  {
    hide Step, Blocked, Members, Ends, Successors, IsForm;
    BodyLink(g, o, owner, item, body, j, |done|, CursorOf(InvokeOne(g, o, s.cursors, body[j], |done|), body[j]));
    KnownByRound(before, owner, item, body, done, j);
    StillGrounded(g, before, owner, before + [owner, item] + body[..j], done, body[j]);
    hide Chain, Grounded;
    StepTo(g, o, s, done, body[j], Next(item, body, j));
  }

  /** `|body| - j` turns take the body from its member `j` to the item that follows it. */
  lemma {:induction false} BodyRun(
      g: Canvas, o: Oracle, s: State, before: seq<Id>, owner: Id, item: Id, body: seq<Id>, done: seq<Id>, j: nat)
    requires Chain(g, owner, item, body) && Grounded(g, before, owner, item, body)
    requires before + [owner] <= done && j < |body|
    requires item in done && Members(body[..j]) <= Members(done)
    requires At(s, done, body[j]) && Quiet(o, |done|, |done| + |body| - j)
    ensures var r := Steps(g, o, s, |body| - j);
      && At(r, done + body[j..], item)
      && r.cursors == s.cursors && r.launched == s.launched + body[j..]
    decreases |body| - j
  {
    hide Step, Members, Chain, Grounded;
    var id := body[j];
    BodyStep(g, o, s, before, owner, item, body, done, j);
    var s1 := Step(g, o, s);
    if j + 1 == |body| {
      assert [id] == body[j..];
      assert Steps(g, o, s, 1) == Steps(g, o, s1, 0) == s1;
    } else {
      GrowMembers(body[..j], done, id);
      assert body[..j + 1] == body[..j] + [id];
      BodyRun(g, o, s1, before, owner, item, body, done + [id], j + 1);
      assert done + [id] + body[j + 1..] == done + body[j..];
      assert s.launched + [id] + body[j + 1..] == s.launched + body[j..];
    }
  }

  lemma GrowMembers(a: seq<Id>, b: seq<Id>, id: Id)
    requires Members(a) <= Members(b)
    ensures Members(a + [id]) <= Members(b + [id])
  {
    forall x | x in a + [id] ensures x in b + [id] {
      if x in a { assert x in Members(a); }
    }
  }

  /** The item is of its container's kind, so it is neither a body member nor a form. */
  lemma ItemFacts(g: Canvas, owner: Id, item: Id, body: seq<Id>)
    requires Chain(g, owner, item, body)
    ensures IsItemOf(g, owner, item) && IsItem(Of(g, item).kind) && !IsForm(g, item)
    ensures item !in body && item != owner
  {
    StartIsItem(g, g.order, owner);
  }

  // ---------- Rounds ----------

  /** Launched at position `p` with cursor `c`, the item ends its container. */
  predicate EndsNow(g: Canvas, o: Oracle, item: Id, c: int, p: nat) {
    Ends(g, o, p, item, StepCursor(g, o, p, item, c))
  }

  /** The item, launched at `p`, `p + stride`, ..., goes on for exactly `rounds` rounds and ends at the next launch. */
  ghost predicate RunsFor(g: Canvas, o: Oracle, item: Id, c: int, p: nat, stride: nat, rounds: nat)
    decreases rounds
  {
    if rounds == 0 then EndsNow(g, o, item, c, p)
    else !EndsNow(g, o, item, c, p)
         && RunsFor(g, o, item, StepCursor(g, o, p, item, c), p + stride, stride, rounds - 1)
  }

  function Repeat(unit: seq<Id>, n: nat): seq<Id> {
    if n == 0 then [] else unit + Repeat(unit, n - 1)
  }

  lemma ItemLink(g: Canvas, o: Oracle, owner: Id, item: Id, body: seq<Id>, p: nat, c: int)
    requires Chain(g, owner, item, body)
    ensures Successors(g, o, p, item, c) == if Ends(g, o, p, item, c) then Of(g, owner).downstream else [body[0]]
    ensures body[0] != item && !IsForm(g, body[0])
  {
    ItemFacts(g, owner, item, body);
    hide FirstItem;
  }

  lemma ItemReady(g: Canvas, before: seq<Id>, owner: Id, item: Id, body: seq<Id>, done: seq<Id>)
    requires Grounded(g, before, owner, item, body) && before + [owner] <= done
    ensures !Blocked(g, done, item)
  {
    hide Blocked;
    StillGrounded(g, before, owner, before + [owner], done, item);
  }

  /** The turn of an item that goes on. */
  lemma ItemStep(g: Canvas, o: Oracle, s: State, before: seq<Id>, owner: Id, item: Id, body: seq<Id>, done: seq<Id>)
    requires Chain(g, owner, item, body) && Grounded(g, before, owner, item, body)
    requires before + [owner] <= done && At(s, done, item) && !o(|done|, item).errored
    requires !EndsNow(g, o, item, CursorOf(s.cursors, item), |done|)
    ensures Live(s) && At(Step(g, o, s), done + [item], body[0])
    ensures Step(g, o, s).launched == s.launched + [item]
    ensures Step(g, o, s).cursors == s.cursors[item := StepCursor(g, o, |done|, item, CursorOf(s.cursors, item))]
  {
    ItemFacts(g, owner, item, body);
    hide Step, Blocked, StepCursor, Ends, Successors, FirstItem;
    ItemReady(g, before, owner, item, body, done);
    ItemLink(g, o, owner, item, body, |done|, StepCursor(g, o, |done|, item, CursorOf(s.cursors, item)));
    hide Chain, Grounded;
    StepTo(g, o, s, done, item, body[0]);
  }

  /** One round: the item goes on and the body brings the path back to it. */
  lemma RoundRun(g: Canvas, o: Oracle, s: State, before: seq<Id>, owner: Id, item: Id, body: seq<Id>, done: seq<Id>)
    requires Chain(g, owner, item, body) && Grounded(g, before, owner, item, body)
    requires before + [owner] <= done && At(s, done, item)
    requires Quiet(o, |done|, |done| + 1 + |body|)
    requires !EndsNow(g, o, item, CursorOf(s.cursors, item), |done|)
    ensures var r := Steps(g, o, s, 1 + |body|);
      && At(r, done + [item] + body, item)
      && r.launched == s.launched + ([item] + body)
      && r.cursors == s.cursors[item := StepCursor(g, o, |done|, item, CursorOf(s.cursors, item))]
  {
    hide Step, StepCursor, EndsNow, Grounded, Members;
    ItemStep(g, o, s, before, owner, item, body, done);
    var s1 := Step(g, o, s);
    EmptyMembers(body, done + [item]);
    BodyRun(g, o, s1, before, owner, item, body, done + [item], 0);
    hide Chain;
    assert body[0..] == body;
    assert s.launched + [item] + body == s.launched + ([item] + body);
    assert Steps(g, o, s, 1 + |body|) == Steps(g, o, s1, |body|);
  }

  lemma EmptyMembers(body: seq<Id>, done: seq<Id>)
    ensures Members(body[..0]) <= Members(done)
  {
  }

  /** `r` has left the container behind `done`: `next` is appended with adjacent duplicates suppressed,
      and a form among it pauses the run. */
  ghost predicate Left(g: Canvas, done: seq<Id>, next: seq<Id>, r: State) {
    var path := ExtendPath(done, next);
    && !r.error && r.idx == |done|
    && if NoForms(g, path[|done|..])
       then r.status == Running && r.path == path
       else r.status == Paused && r.path == FormsFirst(g, path[|done|..])
  }

  /** A turn that runs an ending item alone. */
  lemma StepOut(g: Canvas, o: Oracle, s: State, done: seq<Id>, id: Id, next: seq<Id>)
    requires At(s, done, id) && !Blocked(g, done, id) && !o(|done|, id).errored
    requires var cursor := CursorOf(InvokeOne(g, o, s.cursors, id, |done|), id);
      Ends(g, o, |done|, id, cursor) && Successors(g, o, |done|, id, cursor) == next
    ensures Live(s) && Left(g, done + [id], next, Step(g, o, s))
    ensures Step(g, o, s).launched == s.launched + [id]
    ensures Step(g, o, s).cursors == InvokeOne(g, o, s.cursors, id, |done|)[id := -1]
  {
    SingleStep(g, o, s, done, id);
    hide Step, Blocked, Successors, InvokeOne, Ends, ExtendPath, Forms, FormsFirst;
  }

  lemma OneStep(g: Canvas, o: Oracle, s: State)
    requires Live(s)
    ensures Steps(g, o, s, 1) == Step(g, o, s)
  {
    hide Step;
    assert Steps(g, o, Step(g, o, s), 0) == Step(g, o, s);
  }

  lemma FinalFacts(
      g: Canvas, o: Oracle, s: State, before: seq<Id>, owner: Id, item: Id, body: seq<Id>, done: seq<Id>, c: int)
    requires Chain(g, owner, item, body) && Grounded(g, before, owner, item, body)
    requires before + [owner] <= done && At(s, done, item)
    requires Quiet(o, |done|, |done| + 1)
    requires EndsNow(g, o, item, CursorOf(s.cursors, item), |done|)
    requires c == StepCursor(g, o, |done|, item, CursorOf(s.cursors, item))
    ensures !Blocked(g, done, item) && !o(|done|, item).errored
    ensures InvokeOne(g, o, s.cursors, item, |done|) == s.cursors[item := c]
    ensures Ends(g, o, |done|, item, c) && Successors(g, o, |done|, item, c) == Of(g, owner).downstream
  {
    ItemFacts(g, owner, item, body);
    hide Blocked, StepCursor, Ends, Successors, FirstItem;
    ItemReady(g, before, owner, item, body, done);
    ItemLink(g, o, owner, item, body, |done|, c);
  }

  /** The last launch of the item: its container's downstream follows. */
  lemma FinalItem(g: Canvas, o: Oracle, s: State, before: seq<Id>, owner: Id, item: Id, body: seq<Id>, done: seq<Id>)
    requires Chain(g, owner, item, body) && Grounded(g, before, owner, item, body)
    requires before + [owner] <= done && At(s, done, item)
    requires Quiet(o, |done|, |done| + 1)
    requires EndsNow(g, o, item, CursorOf(s.cursors, item), |done|)
    ensures var r := Steps(g, o, s, 1);
      && Left(g, done + [item], Of(g, owner).downstream, r)
      && r.launched == s.launched + [item] && r.cursors == s.cursors[item := -1]
  {
    hide Step, Blocked, StepCursor, Ends, Successors, FirstItem, Left, Chain, Grounded, Quiet, At, EndsNow, Of;
    ItemFacts(g, owner, item, body);
    var c := StepCursor(g, o, |done|, item, CursorOf(s.cursors, item));
    FinalFacts(g, o, s, before, owner, item, body, done, c);
    StepOut(g, o, s, done, item, Of(g, owner).downstream);
    OneStep(g, o, s);
    assert s.cursors[item := c][item := -1] == s.cursors[item := -1];
  }

  lemma {:induction false} RoundsRun(
      g: Canvas, o: Oracle, s: State, before: seq<Id>, owner: Id, item: Id, body: seq<Id>, done: seq<Id>, rounds: nat)
    requires Chain(g, owner, item, body) && Grounded(g, before, owner, item, body)
    requires before + [owner] <= done && At(s, done, item)
    requires Quiet(o, |done|, |done| + rounds * (1 + |body|) + 1)
    requires RunsFor(g, o, item, CursorOf(s.cursors, item), |done|, 1 + |body|, rounds)
    ensures var r := Steps(g, o, s, rounds * (1 + |body|) + 1);
      && Left(g, done + Repeat([item] + body, rounds) + [item], Of(g, owner).downstream, r)
      && r.launched == s.launched + Repeat([item] + body, rounds) + [item]
      && r.cursors == s.cursors[item := -1]
    decreases rounds
  {
    hide Steps, Chain, Grounded, EndsNow, StepCursor, Left;
    var k := 1 + |body|;
    if rounds == 0 {
      assert done + [] == done && s.launched + [] == s.launched;
      FinalItem(g, o, s, before, owner, item, body, done);
    } else {
      assert rounds * k == k + (rounds - 1) * k;
      RoundRun(g, o, s, before, owner, item, body, done);
      var s1 := Steps(g, o, s, k);
      var unit := [item] + body;
      RoundsRun(g, o, s1, before, owner, item, body, done + [item] + body, rounds - 1);
      StepsCompose(g, o, s, k, (rounds - 1) * k + 1);
      assert done + [item] + body + Repeat(unit, rounds - 1) == done + Repeat(unit, rounds);
      assert s.launched + unit + Repeat(unit, rounds - 1) == s.launched + Repeat(unit, rounds);
      assert s1.cursors[item := -1] == s.cursors[item := -1];
    }
  }

  /** The turn of the container itself. */
  lemma OwnerStep(g: Canvas, o: Oracle, s: State, before: seq<Id>, owner: Id, item: Id, body: seq<Id>)
    requires Chain(g, owner, item, body) && Grounded(g, before, owner, item, body)
    requires At(s, before, owner) && !o(|before|, owner).errored
    ensures Live(s) && At(Step(g, o, s), before + [owner], item)
    ensures Step(g, o, s).launched == s.launched + [owner] && Step(g, o, s).cursors == s.cursors
  {
    ItemFacts(g, owner, item, body);
    hide FirstItem, Blocked, Step;
    StepTo(g, o, s, before, owner, item);
  }

  /** From `s` on the container runs `rounds` rounds: it appends itself, the rounds and one last item, leaves
      for its downstream, launches nothing else, and ends with the item's cursor at -1. */
  ghost predicate RunsRounds(
      g: Canvas, o: Oracle, s: State, before: seq<Id>, owner: Id, item: Id, body: seq<Id>, rounds: nat) {
    var r := Steps(g, o, s, Turns(rounds, body));
    var run := [owner] + Repeat([item] + body, rounds) + [item];
    && Left(g, before + run, Of(g, owner).downstream, r)
    && r.launched == s.launched + run
    && r.cursors == s.cursors[item := -1]
  }

  lemma StepsOnce(g: Canvas, o: Oracle, s: State, n: nat)
    requires Live(s)
    ensures Steps(g, o, s, n + 1) == Steps(g, o, Step(g, o, s), n)
  {
    hide Step;
  }

  lemma AtIsLive(s: State, done: seq<Id>, id: Id)
    requires At(s, done, id)
    ensures Live(s)
  {
  }

  lemma QuietFits(o: Oracle, from: nat, later: nat, upto: nat, id: Id)
    requires Quiet(o, from, upto) && from <= later <= upto && from < upto
    ensures Quiet(o, later, upto) && !o(from, id).errored
  {
  }

  lemma Assembled(before: seq<Id>, a: seq<Id>, b: seq<Id>, c: seq<Id>)
    ensures before + (a + b + c) == before + a + b + c
  {
  }

  /** The turns `rounds` rounds take, with the container and the last item. */
  function Turns(rounds: nat, body: seq<Id>): nat {
    rounds * (1 + |body|) + 2
  }

  /** The closed form.  Started alone at container `owner`, without failures, cancellations or unmet
      references, and with an item that goes on for exactly `rounds` rounds, the run appends the
      container, `rounds` copies of item and body, one last item and then the container's downstream,
      in exactly `Turns(rounds, body)` batches. */
  lemma ContainerRun(g: Canvas, o: Oracle, s: State, before: seq<Id>, owner: Id, item: Id, body: seq<Id>, rounds: nat)
    requires Chain(g, owner, item, body) && Grounded(g, before, owner, item, body)
    requires At(s, before, owner)
    requires Quiet(o, |before|, |before| + Turns(rounds, body))
    requires RunsFor(g, o, item, CursorOf(s.cursors, item), |before| + 1, 1 + |body|, rounds)
    ensures RunsRounds(g, o, s, before, owner, item, body, rounds)
  {
    hide Step, Left, RunsFor, StepCursor, Repeat, Chain, Grounded, At, Steps, Of, Quiet, Blocked;
    var n := rounds * (1 + |body|) + 1;
    assert Turns(rounds, body) == n + 1;
    hide Turns;
    QuietFits(o, |before|, |before| + 1, |before| + 1 + n, owner);
    OwnerStep(g, o, s, before, owner, item, body);
    AtIsLive(s, before, owner);
    var s1 := Step(g, o, s);
    StepsOnce(g, o, s, n);
    RoundsRun(g, o, s1, before, owner, item, body, before + [owner], rounds);
    var rep := Repeat([item] + body, rounds);
    Assembled(before, [owner], rep, [item]);
    Assembled(s.launched, [owner], rep, [item]);
  }
}
