/** What a pause leaves behind, and what the next call of `run` makes of it. */
module CanvasPause {
  import opened Common
  import opened CanvasModel
  import CanvasSafety

  /** Where in `ids`, whose first entry is at position `base`, the entries of one class stand. */
  function Places(g: Canvas, ids: seq<Id>, wanted: bool, base: nat): seq<nat>
    decreases |ids|
  {
    if ids == [] then []
    else (if IsForm(g, ids[0]) == wanted then [base] else []) + Places(g, ids[1..], wanted, base + 1)
  }

  lemma FormsStep(g: Canvas, ids: seq<Id>, wanted: bool, base: nat)
    requires ids != []
    ensures var own := IsForm(g, ids[0]) == wanted;
      && Forms(g, ids, wanted) == (if own then [ids[0]] else []) + Forms(g, ids[1..], wanted)
      && Places(g, ids, wanted, base) == (if own then [base] else []) + Places(g, ids[1..], wanted, base + 1)
  {
    hide IsForm;
  }

  lemma NoPlaces(g: Canvas, wanted: bool, base: nat)
    ensures Places(g, [], wanted, base) == [] && Forms(g, [], wanted) == []
  {
  }

  /** Collecting one class keeps its entries in the order, and at the increasing places, they had. */
  lemma {:induction false} FormsKeepOrder(g: Canvas, ids: seq<Id>, wanted: bool, base: nat)
    ensures var at := Places(g, ids, wanted, base);
      && |at| == |Forms(g, ids, wanted)|
      && (forall k :: 0 <= k < |at| ==> base <= at[k] < base + |ids| && Forms(g, ids, wanted)[k] == ids[at[k] - base])
      && (forall j, k :: 0 <= j < k < |at| ==> at[j] < at[k])
    decreases |ids|
  {
    hide IsForm, Forms, Places;
    if ids != [] {
      FormsKeepOrder(g, ids[1..], wanted, base + 1);
      FormsStep(g, ids, wanted, base);
      var rest := Places(g, ids[1..], wanted, base + 1);
      forall k | 0 <= k < |rest| ensures base < rest[k] < base + |ids|
          && Forms(g, ids[1..], wanted)[k] == ids[rest[k] - base] {
        assert ids[1..][rest[k] - base - 1] == ids[rest[k] - base];
      }
    } else {
      NoPlaces(g, wanted, base);
    }
  }

  lemma FormsFirstIs(g: Canvas, ids: seq<Id>)
    ensures FormsFirst(g, ids) == Forms(g, ids, true) + Forms(g, ids, false)
  {
  }

  lemma AddFirst(id: Id, a: seq<Id>, b: seq<Id>)
    ensures multiset(([id] + a) + b) == multiset{id} + multiset(a + b)
    ensures multiset(a + ([id] + b)) == multiset{id} + multiset(a + b)
    ensures ([] + a) + ([id] + b) == a + ([id] + b) && ([id] + a) + ([] + b) == ([id] + a) + b
  {
  }

  lemma {:induction false} FormsCount(g: Canvas, ids: seq<Id>)
    ensures multiset(FormsFirst(g, ids)) == multiset(ids)
    decreases |ids|
  {
    hide IsForm, FormsFirst, Forms;
    FormsFirstIs(g, ids);
    if ids != [] {
      var a, b := Forms(g, ids[1..], true), Forms(g, ids[1..], false);
      FormsCount(g, ids[1..]);
      FormsFirstIs(g, ids[1..]);
      FormsStep(g, ids, true, 0);
      FormsStep(g, ids, false, 0);
      AddFirst(ids[0], a, b);
      FirstCounts(ids);
    } else {
      NoPlaces(g, true, 0);
      NoPlaces(g, false, 0);
    }
  }

  lemma FirstCounts(ids: seq<Id>)
    requires ids != []
    ensures multiset(ids) == multiset{ids[0]} + multiset(ids[1..])
  {
    assert ids == [ids[0]] + ids[1..];
  }

  lemma {:induction false} FormsAreForms(g: Canvas, ids: seq<Id>, wanted: bool)
    ensures forall id :: id in Forms(g, ids, wanted) <==> id in ids && IsForm(g, id) == wanted
    decreases |ids|
  {
    hide IsForm, Forms;
    if ids != [] {
      FormsAreForms(g, ids[1..], wanted);
      FormsStep(g, ids, wanted, 0);
      assert ids == [ids[0]] + ids[1..];
    } else {
      NoPlaces(g, wanted, 0);
    }
  }

  lemma FormsSplit(g: Canvas, ids: seq<Id>)
    ensures multiset(FormsFirst(g, ids)) == multiset(ids)
    ensures forall id <- Forms(g, ids, true) :: IsForm(g, id)
    ensures forall id <- Forms(g, ids, false) :: !IsForm(g, id)
    ensures Forms(g, ids, true) == [] <==> forall id <- ids :: !IsForm(g, id)
  {
    hide IsForm, FormsFirst, Forms;
    FormsCount(g, ids);
    FormsAreForms(g, ids, true);
    FormsAreForms(g, ids, false);
    var forms := Forms(g, ids, true);
    if forms != [] {
      assert forms[0] in forms;
    }
  }

  /** A turn pauses exactly when it did not fail and left a user form pending; the path becomes the
      pending entries, forms first, none lost and none added. */
  lemma PauseKeepsThePending(g: Canvas, o: Oracle, s: State)
    requires Live(s)
    ensures var batch := Batch(g, s);
      var end := PostAll(g, o, Launch(g, o, s, batch), s.idx, batch);
      var upto := s.idx + |batch|;
      var r := Step(g, o, s);
      && upto <= |end.path|
      && (r.status == Paused <==> !end.error && exists id <- end.path[upto..] :: IsForm(g, id))
      && (r.status == Paused ==>
            && multiset(r.path) == multiset(end.path[upto..])
            && r.path == Forms(g, end.path[upto..], true) + Forms(g, end.path[upto..], false)
            && |r.path| > 0 && IsForm(g, r.path[0])
            && r.launched == s.launched + batch)
  {
    hide Kept, Launch, PostAll, Forms, FormsFirst, Conclude;
    var batch := Batch(g, s);
    var s1 := Launch(g, o, s, batch);
    var end := PostAll(g, o, s1, s.idx, batch);
    LaunchFrame(g, o, s, batch);
    CanvasSafety.PostAllFrame(g, o, s1, s.idx, batch);
    ConcludePauses(g, end, s.idx + |batch|);
  }

  lemma LaunchFrame(g: Canvas, o: Oracle, s: State, batch: seq<Id>)
    requires s.idx <= |s.path|
    ensures var r := Launch(g, o, s, batch);
      |r.path| == s.idx + |batch| && r.launched == s.launched + batch && r.status == s.status
  {
    hide Invoke, Starts;
  }

  lemma ConcludePauses(g: Canvas, s: State, upto: nat)
    requires s.status == Running && upto <= |s.path|
    ensures var r := Conclude(g, s, upto);
      && (r.status == Paused ==> r.launched == s.launched)
      && (r.status == Paused <==> !s.error && exists id <- s.path[upto..] :: IsForm(g, id))
      && (r.status == Paused ==>
            && multiset(r.path) == multiset(s.path[upto..])
            && r.path == Forms(g, s.path[upto..], true) + Forms(g, s.path[upto..], false)
            && |r.path| > 0 && IsForm(g, r.path[0]))
  {
    FormsSplit(g, s.path[upto..]);
    var forms := Forms(g, s.path[upto..], true);
    hide Forms;
    if forms != [] {
      assert forms[0] in forms;
    }
  }

  /** An id names a form if "UserFillUp" stands anywhere in it, in any case. */
  lemma FormNameIff(id: Id)
    ensures NamedFillUp(id) <==> exists front, name, back :: id == front + name + back && Lower(name) == "userfillup"
  {
    if i :| 0 <= i <= |id| && NamesFormAt(id, i) {
      assert id == id[..i] + id[i..i + 10] + id[i + 10..];
    }
    if front, name, back :| id == front + name + back && Lower(name) == "userfillup" {
      assert |Lower(name)| == |name| == 10;
      assert id[|front|..|front| + 10] == name;
      assert NamesFormAt(id, |front|);
    }
  }

  lemma FormsFirstCounts(g: Canvas, pending: seq<Id>)
    ensures |FormsFirst(g, pending)| == |pending|
  {
    FormsCount(g, pending);
    hide Forms;
    assert |FormsFirst(g, pending)| == |multiset(FormsFirst(g, pending))| == |multiset(pending)| == |pending|;
  }

  lemma BegunAt(path: seq<Id>, cursors: map<Id, int>)
    requires path != []
    ensures var last, s := path[|path| - 1], Begun(path, cursors);
      s.path[s.idx..] == [if NamedFillUp(last) then last else "begin"]
  {
    hide NamedFillUp;
    assert path[|path| - 1..] == [path[|path| - 1]];
    assert (path + ["begin"])[|path|..] == ["begin"];
  }

  /** The next call goes on at the last entry a pause left, if that is a form by its text, and at "begin" otherwise.
      So it goes on with everything that was pending exactly if there was a single entry and the entry is that. */
  lemma ResumeCoversOnlyASingleForm(g: Canvas, pending: seq<Id>, cursors: map<Id, int>)
    requires Forms(g, pending, true) != []
    ensures var path, others := FormsFirst(g, pending), Forms(g, pending, false);
      && |path| == |pending| > 0
      && var last, s := path[|path| - 1], Begun(path, cursors);
      && last == (if others == [] then pending[|pending| - 1] else others[|others| - 1])
      && s.path[s.idx..] == [if NamedFillUp(last) then last else "begin"]
      && (s.path[s.idx..] == path <==> |pending| == 1 && (NamedFillUp(last) || last == "begin"))
  {
    var forms, others := Forms(g, pending, true), Forms(g, pending, false);
    var path := FormsFirst(g, pending);
    FormsFirstCounts(g, pending);
    AllForms(g, pending);
    hide NamedFillUp, Forms, Begun;
    assert path == forms + others;
    BegunAt(path, cursors);
    if |pending| == 1 {
      assert path == [path[|path| - 1]];
    }
  }

  /** Ids follow the editor's convention: they contain the form's name exactly when they are forms. */
  ghost predicate NamedByClass(g: Canvas, ids: seq<Id>) {
    forall id <- ids :: NamedFillUp(id) <==> IsForm(g, id)
  }

  /** Under that convention: with several pending forms only the last is continued, and with any other pending entry
      the call starts again at "begin". */
  lemma ResumeByConvention(g: Canvas, pending: seq<Id>, cursors: map<Id, int>)
    requires Forms(g, pending, true) != [] && NamedByClass(g, pending)
    ensures var s := Begun(FormsFirst(g, pending), cursors);
      s.path[s.idx..] == if Forms(g, pending, false) == [] then [pending[|pending| - 1]] else ["begin"]
  {
    ResumeCoversOnlyASingleForm(g, pending, cursors);
    var others := Forms(g, pending, false);
    FormsAreForms(g, pending, false);
    FormsAreForms(g, pending, true);
    AllForms(g, pending);
    hide NamedFillUp, Forms, FormsFirst;
    if others != [] {
      assert others[|others| - 1] in others;
    } else {
      assert pending[|pending| - 1] in pending;
    }
  }

  lemma {:induction false} AllForms(g: Canvas, ids: seq<Id>)
    ensures Forms(g, ids, false) == [] ==> Forms(g, ids, true) == ids
  {
    if ids != [] {
      AllForms(g, ids[1..]);
    }
  }

  /** A run whose path begins with a form's id never drops an entry: after a pause, dependencies are not
      checked at all. */
  lemma {:induction false} ResumedRunsCheckNothing(g: Canvas, done: seq<Id>, pending: seq<Id>)
    requires NamedFillUp(if done == [] then (if pending == [] then "" else pending[0]) else done[0])
    ensures Kept(g, done, pending) == pending
    decreases |pending|
  {
    hide NamedFillUp;
    if pending != [] {
      assert (done + [pending[0]])[0] == if done == [] then pending[0] else done[0];
      ResumedRunsCheckNothing(g, done + [pending[0]], pending[1..]);
    }
  }
}
