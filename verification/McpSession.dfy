/** The MCP tool session: callers put tasks on a queue, one worker answers them, `close` drains the rest.

    Each step below runs between two suspension points of the session's event loop; putting on the unbounded
    queues never suspends.  Tasks are numbered in the order in which they were accepted. */
module McpSession {
  datatype Reply = Answer(text: string) | Error | Closing

  datatype Worker = NotStarted | AtHead | Waiting | Serving(id: nat) | Left

  /** `connected` tells a worker that has a client session from one that only reports the connection error.
      `results[id]` is the result queue of task `id`; `taken`, `served` and `lost` are history. */
  datatype State = State(
    queue: seq<nat>, closed: bool, worker: Worker, connected: bool, results: seq<seq<Reply>>,
    taken: nat, served: seq<nat>, lost: seq<nat>)

  const INITIAL := State([], false, NotStarted, false, [], 0, [], [])

  datatype Step =
    | Submit                  // `_call_mcp_server` checks `_close` and queues the task
    | Connect                 // the client session is ready, the worker loop begins
    | Disconnect              // connecting or leaving the session failed: the loop begins without a session
    | Head                    // `while not self._close`
    | Take                    // the queue yields a task; without a session it is answered at once
    | Idle                    // nothing came within the timeout
    | Reply(reply: Reply)     // the client session answered or raised
    | CancelWorker            // the worker is cancelled where it waits
    | Close

  // ---------- Steps as a function ----------

  function Put(results: seq<seq<Reply>>, id: nat, r: Reply): (q: seq<seq<Reply>>)
    ensures |q| == |results|
  {
    if id < |results| then results[id := results[id] + [r]] else results
  }

  /** `close` answers every task still queued, in order. */
  function PutAll(results: seq<seq<Reply>>, ids: seq<nat>): (q: seq<seq<Reply>>)
    ensures |q| == |results|
    decreases ids
  {
    if ids == [] then results else PutAll(Put(results, ids[0], Closing), ids[1..])
  }

  function Apply(s: State, step: Step): State {
    match step
    case Submit =>
      if s.closed then s else s.(queue := s.queue + [|s.results|], results := s.results + [[]])
    case Connect =>
      if s.worker == NotStarted then s.(worker := AtHead, connected := true) else s
    case Disconnect =>
      if s.worker == NotStarted || s.worker == Left then s.(worker := AtHead, connected := false) else s
    case Head =>
      if s.worker != AtHead then s else s.(worker := if s.closed then Left else Waiting)
    case Take =>
      if s.worker != Waiting || s.queue == [] then s
      else if s.connected then s.(queue := s.queue[1..], worker := Serving(s.queue[0]), taken := s.taken + 1)
      else s.(queue := s.queue[1..], worker := AtHead, taken := s.taken + 1,
              results := Put(s.results, s.queue[0], Error), served := s.served + [s.queue[0]])
    case Idle =>
      if s.worker != Waiting then s else s.(worker := AtHead)
    case Reply(r) =>
      if !s.worker.Serving? || r.Closing? then s
      else s.(worker := AtHead, results := Put(s.results, s.worker.id, r), served := s.served + [s.worker.id])
    case CancelWorker =>
      if s.worker.Serving? then s.(worker := Left, lost := s.lost + [s.worker.id])
      else if s.worker == Waiting then s.(worker := Left)
      else s
    case Close =>
      if s.closed then s
      else s.(closed := true, queue := [], results := PutAll(s.results, s.queue))
  }

  function Run(s: State, steps: seq<Step>): State
    decreases steps
  {
    if steps == [] then s else Run(Apply(s, steps[0]), steps[1..])
  }

  // ---------- What every run keeps ----------

  function Range(from: nat, upto: nat): seq<nat>
    requires from <= upto
  {
    seq(upto - from, i requires 0 <= i < upto - from => from + i)
  }

  /** The task the worker holds, or dropped when it was cancelled. */
  function Unanswered(s: State): seq<nat> {
    s.lost + (if s.worker.Serving? then [s.worker.id] else [])
  }

  /** The queue holds exactly the accepted tasks that were not taken, in order; the worker has answered the
      taken ones, once each and in order, but for at most one; and after `close` the others hold the notice. */
  ghost predicate Safe(s: State) {
    Ledger(s) && forall id: nat :: id < |s.results| ==> Answered(s, id)
  }

  /** The queue and the history, without what the results hold. */
  ghost predicate Ledger(s: State) {
    var n := |s.results|;
    && s.taken <= n
    && s.queue == (if s.closed then [] else Range(s.taken, n))
    && |Unanswered(s)| <= 1
    && (s.worker.Serving? ==> s.connected && s.worker.id + 1 == s.taken)
    && (s.lost != [] ==> s.worker == Left || !s.connected)
    && (s.worker == NotStarted ==> s.lost == [])
    && (Unanswered(s) == [] ==> s.served == Range(0, s.taken))
    && (Unanswered(s) != [] ==>
          var m := Unanswered(s)[0];
          m < s.taken && s.served == Range(0, m) + Range(m + 1, s.taken))
  }

  ghost predicate Answered(s: State, id: nat)
    requires id < |s.results|
  {
    var r := s.results[id];
    if id >= s.taken then r == (if s.closed then [Closing] else [])
    else if id in Unanswered(s) then r == []
    else |r| == 1 && !r[0].Closing?
  }

  lemma {:induction false} PutAllAt(results: seq<seq<Reply>>, from: nat, upto: nat, id: nat)
    requires from <= upto <= |results| && id < |results|
    ensures PutAll(results, Range(from, upto))[id] == results[id] + (if from <= id < upto then [Closing] else [])
    decreases upto - from
  {
    if from < upto {
      assert Range(from, upto)[1..] == Range(from + 1, upto);
      PutAllAt(Put(results, from, Closing), from + 1, upto, id);
    }
  }

  lemma RangeNext(from: nat, upto: nat)
    requires from <= upto
    ensures Range(from, upto) + [upto] == Range(from, upto + 1)
    ensures from < upto ==> Range(from, upto)[0] == from && Range(from, upto)[1..] == Range(from + 1, upto)
  {
  }

  /** A result counts as before while nothing it is judged by changes. */
  lemma AnsweredStays(s: State, r: State, id: nat)
    requires id < |s.results| && id < |r.results| && r.results[id] == s.results[id]
    requires r.taken == s.taken && r.closed == s.closed && Unanswered(r) == Unanswered(s)
    requires Answered(s, id)
    ensures Answered(r, id)
  {
    hide Unanswered;
  }

  lemma SubmitKeepsLedger(s: State)
    requires Ledger(s)
    ensures Ledger(Apply(s, Submit))
  {
    RangeNext(s.taken, |s.results|);
    hide Range;
  }

  lemma FreshIsUnanswered(s: State)
    requires Ledger(s)
    ensures !s.closed ==> Answered(Apply(s, Submit), |s.results|)
  {
    hide Range;
  }

  lemma SubmitKeepsSafe(s: State)
    requires Safe(s)
    ensures Safe(Apply(s, Submit))
  {
    hide Range, Ledger;
    SubmitKeepsLedger(s);
    var r, n := Apply(s, Submit), |s.results|;
    forall id: nat | id < |r.results| ensures Answered(r, id) {
      if id < n {
        AnsweredStays(s, r, id);
      } else {
        FreshIsUnanswered(s);
      }
    }
  }

  lemma TakenIsNext(s: State)
    requires Ledger(s) && s.worker == Waiting && s.queue != []
    ensures !s.closed && s.queue[0] == s.taken < |s.results| && s.taken !in s.lost
    ensures forall id :: id in s.lost ==> id < s.taken
    ensures |s.lost| <= 1 && (s.connected ==> s.lost == [])
  {
    RangeNext(s.taken, |s.results|);
    hide Range;
  }

  lemma TakeKeepsLedger(s: State)
    requires Ledger(s) && s.worker == Waiting && s.queue != []
    ensures Ledger(Apply(s, Take))
  {
    RangeNext(s.taken, |s.results|);
    RangeNext(0, s.taken);
    if s.lost != [] {
      RangeNext(s.lost[0] + 1, s.taken);
      Regroup(Range(0, s.lost[0]), Range(s.lost[0] + 1, s.taken), [s.taken]);
    } else {
      assert Range(s.taken + 1, s.taken + 1) == [];
    }
    hide Range;
  }

  lemma Regroup(a: seq<nat>, b: seq<nat>, c: seq<nat>)
    ensures a + b + c == a + (b + c)
  {
  }

  lemma TakeKeepsSafe(s: State)
    requires Safe(s) && s.worker == Waiting && s.queue != []
    ensures Safe(Apply(s, Take))
  {
    hide Range;
    TakeKeepsLedger(s);
    TakenIsNext(s);
    hide Ledger;
    var r := Apply(s, Take);
    forall id: nat | id < |s.results| ensures Answered(r, id) {
      assert Answered(s, id);
    }
  }

  lemma ReplyKeepsLedger(s: State, reply: Reply)
    requires Ledger(s) && s.worker.Serving? && !reply.Closing?
    ensures var r := Apply(s, Step.Reply(reply));
      Ledger(r) && Unanswered(s) == [s.worker.id] && Unanswered(r) == [] && s.worker.id < s.taken
  {
    var m := s.worker.id;
    RangeNext(0, m);
    assert Range(m + 1, s.taken) == [];
    hide Range;
    assert Unanswered(s)[|s.lost|] == m;
  }

  lemma ReplyKeepsSafe(s: State, reply: Reply)
    requires Safe(s) && s.worker.Serving? && !reply.Closing?
    ensures Safe(Apply(s, Step.Reply(reply)))
  {
    hide Range;
    ReplyKeepsLedger(s, reply);
    hide Ledger;
    var r := Apply(s, Step.Reply(reply));
    forall id: nat | id < |s.results| ensures Answered(r, id) {
      assert Answered(s, id);
    }
  }

  lemma CloseKeepsLedger(s: State)
    requires Ledger(s)
    ensures Ledger(Apply(s, Close))
  {
    hide Range, PutAll;
  }

  lemma CloseKeepsSafe(s: State)
    requires Safe(s)
    ensures Safe(Apply(s, Close))
  {
    var r, n := Apply(s, Close), |s.results|;
    CloseKeepsLedger(s);
    hide Range;
    if !s.closed {
      forall id: nat | id < n ensures Answered(r, id) {
        PutAllAt(s.results, s.taken, n, id);
        assert Answered(s, id);
      }
    }
  }

  lemma CancelKeepsLedger(s: State)
    requires Ledger(s)
    ensures var r := Apply(s, CancelWorker);
      Ledger(r) && Unanswered(r) == Unanswered(s)
  {
    hide Range;
    if s.worker.Serving? {
      var r := Apply(s, CancelWorker);
      assert Unanswered(s)[|s.lost|] == s.worker.id;
      assert s.lost == [] && r.lost == [s.worker.id];
    }
  }

  lemma LostWorker(s: State)
    requires Ledger(s)
    ensures s.lost != [] ==> s.worker == Left || !s.connected
    ensures s.worker == NotStarted ==> s.lost == []
  {
    hide Range;
  }

  /** The worker loop moves on without a task in its hands. */
  lemma WorkerMoves(s: State, worker: Worker, connected: bool)
    requires Ledger(s) && !s.worker.Serving? && !worker.Serving?
    requires s.lost != [] ==> worker == Left || !connected
    requires worker == NotStarted ==> s.lost == []
    ensures var r := s.(worker := worker, connected := connected);
      Ledger(r) && Unanswered(r) == Unanswered(s)
  {
    hide Range;
    assert Unanswered(s.(worker := worker, connected := connected)) == Unanswered(s);
  }

  lemma OtherStepsKeepLedger(s: State, step: Step)
    requires Ledger(s) && !step.Submit? && !step.Take? && !step.Reply? && !step.Close?
    ensures var r := Apply(s, step);
      && Ledger(r) && Unanswered(r) == Unanswered(s)
      && r.results == s.results && r.taken == s.taken && r.closed == s.closed
  {
    if step.CancelWorker? {
      CancelKeepsLedger(s);
    } else {
      var r := Apply(s, step);
      assert r == s.(worker := r.worker, connected := r.connected);
      if r.worker != s.worker {
        LostWorker(s);
        hide Ledger;
        WorkerMoves(s, r.worker, r.connected);
      }
    }
  }

  lemma OtherStepsKeepSafe(s: State, step: Step)
    requires Safe(s) && !step.Submit? && !step.Take? && !step.Reply? && !step.Close?
    ensures Safe(Apply(s, step))
  {
    hide Apply, Ledger, Answered, Unanswered;
    OtherStepsKeepLedger(s, step);
    var r := Apply(s, step);
    forall id: nat | id < |r.results| ensures Answered(r, id) {
      AnsweredStays(s, r, id);
    }
  }

  lemma StepKeepsSafe(s: State, step: Step)
    requires Safe(s)
    ensures Safe(Apply(s, step))
  {
    match step
    case Submit => SubmitKeepsSafe(s);
    case Take =>
      if s.worker == Waiting && s.queue != [] {
        TakeKeepsSafe(s);
      }
    case Reply(r) =>
      if s.worker.Serving? && !r.Closing? {
        ReplyKeepsSafe(s, r);
      }
    case Close => CloseKeepsSafe(s);
    case _ => OtherStepsKeepSafe(s, step);
  }

  /** Safety of every run. */
  lemma {:induction false} RunKeepsSafe(s: State, steps: seq<Step>)
    requires Safe(s)
    ensures Safe(Run(s, steps))
    decreases steps
  {
    if steps != [] {
      StepKeepsSafe(s, steps[0]);
      hide Apply, Safe;
      RunKeepsSafe(Apply(s, steps[0]), steps[1..]);
    }
  }

  // ---------- What the callers get ----------

  /** A result, once there, is never replaced and never followed by a second one. */
  lemma {:induction false} RepliesAreFinal(s: State, steps: seq<Step>, id: nat)
    requires Safe(s) && id < |s.results|
    ensures id < |Run(s, steps).results|
    ensures s.results[id] != [] ==> Run(s, steps).results[id] == s.results[id]
    ensures |Run(s, steps).results[id]| <= 1
    decreases steps
  {
    assert Answered(s, id);
    if steps != [] {
      StepKeepsSafe(s, steps[0]);
      StepKeepsReply(s, steps[0], id);
      hide Apply, Safe, Answered;
      RepliesAreFinal(Apply(s, steps[0]), steps[1..], id);
    }
  }

  lemma StepKeepsReply(s: State, step: Step, id: nat)
    requires Safe(s) && id < |s.results|
    ensures id < |Apply(s, step).results|
    ensures s.results[id] != [] ==> Apply(s, step).results[id] == s.results[id]
  {
    assert Answered(s, id);
    if step.Close? && !s.closed {
      PutAllAt(s.results, s.taken, |s.results|, id);
    } else if step.Take? && s.queue != [] {
      RangeNext(s.taken, |s.results|);
    }
    hide Range;
  }

  // ---------- Which reply a task gets ----------

  /** The reply a step makes: what the client session answered or raised while the worker serves a task, or the
      connection error for a task taken without a session. */
  function Made(s: State, step: Step): seq<Reply> {
    match step
    case Reply(r) => if s.worker.Serving? && !r.Closing? then [r] else []
    case Take => if s.worker == Waiting && s.queue != [] && !s.connected then [Error] else []
    case _ => []
  }

  /** The replies made in a run, in order. */
  function Heard(s: State, steps: seq<Step>): seq<Reply>
    decreases steps
  {
    if steps == [] then [] else Made(s, steps[0]) + Heard(Apply(s, steps[0]), steps[1..])
  }

  /** The served tasks hold the replies made, one each and in order. */
  ghost predicate Told(s: State, heard: seq<Reply>) {
    && |heard| == |s.served|
    && forall j :: 0 <= j < |heard| ==> s.served[j] < |s.results| && s.results[s.served[j]] == [heard[j]]
  }

  /** A reply goes to the task that is served, whose result was empty, and to no other. */
  lemma ReplyGoesToItsTask(s: State, reply: Reply)
    requires Safe(s) && s.worker.Serving? && !reply.Closing?
    ensures var r, id := Apply(s, Step.Reply(reply)), s.worker.id;
      && id < |s.results| == |r.results| && s.results[id] == [] && r.results[id] == [reply]
      && (forall k: nat :: k < |s.results| && k != id ==> r.results[k] == s.results[k])
      && r.served == s.served + [id] && r.worker == AtHead && r.queue == s.queue
  {
    ServedNow(s);
    hide Ledger, Answered;
  }

  lemma ServedNow(s: State)
    requires Safe(s) && s.worker.Serving?
    ensures s.worker.id < |s.results| && s.results[s.worker.id] == []
  {
    assert Answered(s, s.worker.id);
    hide Range;
  }

  /** Without a session the next task gets the connection error, and no other task gets anything. */
  lemma ErrorGoesToItsTask(s: State)
    requires Safe(s) && s.worker == Waiting && s.queue != [] && !s.connected
    ensures var r, id := Apply(s, Take), s.queue[0];
      && id < |s.results| == |r.results| && s.results[id] == [] && r.results[id] == [Error]
      && (forall k: nat :: k < |s.results| && k != id ==> r.results[k] == s.results[k])
      && r.served == s.served + [id] && r.worker == AtHead && r.queue == s.queue[1..]
  {
    TakenIsNext(s);
    assert Answered(s, s.queue[0]);
    hide Ledger, Unanswered;
  }

  lemma NothingServed(s: State, step: Step)
    requires Made(s, step) == []
    ensures Apply(s, step).served == s.served
  {
    hide PutAll;
  }

  lemma ServesTheNext(s: State, r: State, id: nat, heard: seq<Reply>, reply: Reply)
    requires Told(s, heard) && id < |s.results| == |r.results| && s.results[id] == [] && r.results[id] == [reply]
    requires forall k: nat :: k < |s.results| && k != id ==> r.results[k] == s.results[k]
    requires r.served == s.served + [id]
    ensures Told(r, heard + [reply])
  {
  }

  lemma StepKeepsTold(s: State, step: Step, heard: seq<Reply>)
    requires Safe(s) && Told(s, heard)
    ensures Told(Apply(s, step), heard + Made(s, step))
  {
    var r := Apply(s, step);
    if Made(s, step) == [] {
      NothingServed(s, step);
      assert heard + [] == heard;
      hide Apply, Safe, Made;
      forall j | 0 <= j < |heard| ensures s.served[j] < |r.results| && r.results[s.served[j]] == [heard[j]] {
        StepKeepsReply(s, step, s.served[j]);
      }
    } else if step.Take? {
      ErrorGoesToItsTask(s);
      hide Apply, Safe;
      ServesTheNext(s, r, s.queue[0], heard, Error);
    } else {
      ReplyGoesToItsTask(s, step.reply);
      hide Apply, Safe;
      ServesTheNext(s, r, s.worker.id, heard, step.reply);
    }
  }

  lemma HeardGoesOn(s: State, steps: seq<Step>, heard: seq<Reply>)
    requires steps != []
    ensures heard + Heard(s, steps) == heard + Made(s, steps[0]) + Heard(Apply(s, steps[0]), steps[1..])
  {
    hide Apply, Made;
  }

  lemma {:induction false} RunKeepsTold(s: State, steps: seq<Step>, heard: seq<Reply>)
    requires Safe(s) && Told(s, heard)
    ensures Told(Run(s, steps), heard + Heard(s, steps))
    decreases steps
  {
    if steps == [] {
      assert heard + [] == heard;
    } else {
      StepKeepsSafe(s, steps[0]);
      StepKeepsTold(s, steps[0], heard);
      HeardGoesOn(s, steps, heard);
      hide Apply, Safe, Told, Made, Heard;
      RunKeepsTold(Apply(s, steps[0]), steps[1..], heard + Made(s, steps[0]));
    }
  }

  lemma NothingTold()
    ensures Told(INITIAL, [])
  {
  }

  /** Over every run the j-th task that was served holds the j-th reply that was made. */
  lemma TasksGetTheirReplies(steps: seq<Step>)
    ensures var s, heard := Run(INITIAL, steps), Heard(INITIAL, steps);
      && |s.served| == |heard|
      && forall j :: 0 <= j < |heard| ==> s.served[j] < |s.results| && s.results[s.served[j]] == [heard[j]]
  {
    InitialIsSafe();
    NothingTold();
    hide Safe, Run, Heard;
    RunKeepsTold(INITIAL, steps, []);
    assert [] + Heard(INITIAL, steps) == Heard(INITIAL, steps);
  }

  /** One round of a worker with a session. */
  function Rounds(replies: seq<Reply>): seq<Step> {
    if replies == [] then [] else [Head, Take, Step.Reply(replies[0])] + Rounds(replies[1..])
  }

  lemma RunStep(s: State, step: Step, rest: seq<Step>)
    ensures Run(s, [step] + rest) == Run(Apply(s, step), rest)
  {
    hide Apply;
    assert ([step] + rest)[1..] == rest;
  }

  lemma ThreeSteps(s: State, a: Step, b: Step, c: Step, rest: seq<Step>)
    ensures Run(s, [a, b, c] + rest) == Run(Apply(Apply(Apply(s, a), b), c), rest)
  {
    var s1 := Apply(s, a);
    assert [a, b, c] + rest == [a] + ([b] + ([c] + rest));
    RunStep(s, a, [b] + ([c] + rest));
    RunStep(s1, b, [c] + rest);
    RunStep(Apply(s1, b), c, rest);
    hide Apply, Run;
  }

  lemma OneRound(s: State, reply: Reply)
    requires Safe(s) && s.worker == AtHead && s.connected && !s.closed && s.queue != [] && !reply.Closing?
    ensures var r := Apply(Apply(Apply(s, Head), Take), Step.Reply(reply));
      && Safe(r) && r.worker == AtHead && r.connected && !r.closed && r.queue == s.queue[1..]
      && s.taken < |s.results| && r.taken == s.taken + 1 && r.results == s.results[s.taken := [reply]]
  {
    var a := Apply(s, Head);
    StepKeepsSafe(s, Head);
    TakenIsNext(a);
    var b := Apply(a, Take);
    assert b.worker == Serving(s.taken) && b.results == s.results;
    hide Ledger, Answered;
    StepKeepsSafe(a, Take);
    ReplyGoesToItsTask(b, reply);
    StepKeepsSafe(b, Step.Reply(reply));
  }

  ghost predicate FirstAnswered(s: State, r: State, replies: seq<Reply>)
    requires |replies| <= |s.queue|
  {
    var k := |replies|;
    && r.worker == AtHead && r.queue == s.queue[k..] && r.taken == s.taken + k
    && s.taken + k <= |s.results| == |r.results|
    && (forall j: nat :: j < k ==> r.results[s.taken + j] == [replies[j]])
    && (forall id: nat :: id < |s.results| && !(s.taken <= id < s.taken + k) ==> r.results[id] == s.results[id])
  }

  lemma FirstAndRest(s: State, next: State, r: State, replies: seq<Reply>)
    requires replies != [] && |replies| <= |s.queue| && next.queue == s.queue[1..] && next.taken == s.taken + 1
    requires s.taken < |s.results| && next.results == s.results[s.taken := [replies[0]]]
    requires FirstAnswered(next, r, replies[1..])
    ensures FirstAnswered(s, r, replies)
  {
    assert s.queue[1..][|replies| - 1..] == s.queue[|replies|..];
    forall j: nat | j < |replies| ensures r.results[s.taken + j] == [replies[j]] {
      if j > 0 {
        assert r.results[next.taken + (j - 1)] == [replies[1..][j - 1]];
      } else {
        assert r.results[s.taken] == next.results[s.taken];
      }
    }
  }

  /** A worker with a session answers the waiting tasks in order: k rounds give the first k of them the k replies, and
      leave all other results and the rest of the queue as they were. */
  lemma {:induction false} RoundsAnswer(s: State, replies: seq<Reply>)
    requires Safe(s) && s.worker == AtHead && s.connected && !s.closed
    requires |replies| <= |s.queue| && forall r <- replies :: !r.Closing?
    ensures FirstAnswered(s, Run(s, Rounds(replies)), replies)
    decreases |replies|
  {
    if replies != [] {
      var next := Apply(Apply(Apply(s, Head), Take), Step.Reply(replies[0]));
      assert replies[0] in replies && forall r <- replies[1..] :: r in replies;
      OneRound(s, replies[0]);
      ThreeSteps(s, Head, Take, Step.Reply(replies[0]), Rounds(replies[1..]));
      hide Apply, Safe, Run, FirstAnswered;
      RoundsAnswer(next, replies[1..]);
      FirstAndRest(s, next, Run(next, Rounds(replies[1..])), replies);
    } else {
      TakenInRange(s);
      assert s.queue[0..] == s.queue;
    }
  }

  function Submits(n: nat): seq<Step> {
    if n == 0 then [] else [Submit] + Submits(n - 1)
  }

  /** `n` more tasks at the end of the queue. */
  function WithTasks(s: State, n: nat): State {
    s.(queue := s.queue + Range(|s.results|, |s.results| + n), results := s.results + seq(n, _ => []))
  }

  lemma NoMoreTasks(s: State)
    ensures WithTasks(s, 0) == s
  {
    assert s.queue + Range(|s.results|, |s.results|) == s.queue && s.results + seq(0, _ => []) == s.results;
  }

  lemma OneMoreTask(s: State, n: nat)
    requires n > 0 && !s.closed
    ensures WithTasks(Apply(s, Submit), n - 1) == WithTasks(s, n)
  {
    var k := |s.results|;
    assert s.queue + [k] + Range(k + 1, k + n) == s.queue + Range(k, k + n);
    assert s.results + [[]] + seq(n - 1, _ => []) == s.results + seq(n, _ => []);
  }

  lemma StaysOpen(s: State)
    requires !s.closed
    ensures !Apply(s, Submit).closed
  {
  }

  lemma SubmitsStart(n: nat, rest: seq<Step>)
    ensures n == 0 ==> Submits(n) + rest == rest
    ensures n > 0 ==> Submits(n) + rest == [Submit] + (Submits(n - 1) + rest)
  {
    if n == 0 {
      assert Submits(0) + rest == rest;
    } else {
      assert [Submit] + Submits(n - 1) + rest == [Submit] + (Submits(n - 1) + rest);
    }
  }

  lemma {:induction false} TasksAreQueued(s: State, n: nat, rest: seq<Step>)
    requires Safe(s) && !s.closed
    ensures Safe(WithTasks(s, n)) && Run(s, Submits(n) + rest) == Run(WithTasks(s, n), rest)
    decreases n
  {
    hide Apply, Safe, Run, WithTasks, Submits;
    SubmitsStart(n, rest);
    if n == 0 {
      NoMoreTasks(s);
    } else {
      RunStep(s, Submit, Submits(n - 1) + rest);
      SubmitKeepsSafe(s);
      StaysOpen(s);
      TasksAreQueued(Apply(s, Submit), n - 1, rest);
      OneMoreTask(s, n);
    }
  }

  /** A session from its start: connected, and asked n times, it gives the tasks the n replies in order. */
  lemma WholeSession(replies: seq<Reply>)
    requires forall r <- replies :: !r.Closing?
    ensures var s := Run(INITIAL, [Connect] + (Submits(|replies|) + Rounds(replies)));
      s.queue == [] && |s.results| == |replies| && forall j :: 0 <= j < |replies| ==> s.results[j] == [replies[j]]
  {
    hide Safe, Run, Submits, Rounds;
    var n := |replies|;
    var a := Apply(INITIAL, Connect);
    InitialIsSafe();
    RunStep(INITIAL, Connect, Submits(n) + Rounds(replies));
    StepKeepsSafe(INITIAL, Connect);
    TasksAreQueued(a, n, Rounds(replies));
    var b := WithTasks(a, n);
    RoundsAnswer(b, replies);
    var r := Run(b, Rounds(replies));
    forall j | 0 <= j < n ensures r.results[j] == [replies[j]] {
      assert r.results[b.taken + j] == [replies[j]];
    }
  }

  /** Without a session every task is answered with the connection error, in two steps each. */
  lemma WithoutSession(s: State, n: nat)
    requires Safe(s) && s.worker == AtHead && !s.connected && !s.closed && n <= |s.queue|
    ensures var r := Run(s, Refusals(n));
      && r.queue == s.queue[n..] && |r.results| == |s.results|
      && forall j :: 0 <= j < n ==> s.queue[j] < |s.results| && r.results[s.queue[j]] == [Error]
    decreases n
  {
    if n == 0 {
      assert s.queue[0..] == s.queue;
    } else {
      var a := Apply(s, Head);
      var b := Apply(a, Take);
      assert Refusals(n) == [Head] + ([Take] + Refusals(n - 1));
      RunStep(s, Head, [Take] + Refusals(n - 1));
      RunStep(a, Take, Refusals(n - 1));
      StepKeepsSafe(s, Head);
      ErrorGoesToItsTask(a);
      StepKeepsSafe(a, Take);
      RefusedNext(s);
      hide Apply, Safe, Run, Refusals;
      WithoutSession(b, n - 1);
      RepliesAreFinal(b, Refusals(n - 1), s.queue[0]);
      var r := Run(b, Refusals(n - 1));
      assert s.queue[1..][n - 1..] == s.queue[n..];
      forall j | 0 <= j < n ensures s.queue[j] < |s.results| && r.results[s.queue[j]] == [Error] {
        if j > 0 {
          assert s.queue[j] == b.queue[j - 1];
        }
      }
    }
  }

  function Refusals(n: nat): seq<Step> {
    if n == 0 then [] else [Head, Take] + Refusals(n - 1)
  }

  lemma RefusedNext(s: State)
    requires Safe(s) && s.worker == AtHead && !s.connected && !s.closed && s.queue != []
    ensures var b := Apply(Apply(s, Head), Take);
      b.worker == AtHead && !b.connected && !b.closed && b.queue == s.queue[1..]
  {
    hide Safe;
  }

  /** A task in flight when its worker is cancelled is never answered, whatever happens afterwards. */
  lemma CancelledTaskIsLost(s: State, steps: seq<Step>)
    requires Safe(s) && s.worker.Serving?
    ensures var id, r := s.worker.id, Run(Apply(s, CancelWorker), steps);
      Apply(s, CancelWorker).worker == Left && id < |r.results| && r.results[id] == []
  {
    var id, t := s.worker.id, Apply(s, CancelWorker);
    ServedNow(s);
    StepKeepsSafe(s, CancelWorker);
    LostStays(t, steps, id);
    RunKeepsSafe(t, steps);
    RepliesAreFinal(t, steps, id);
    LostIsUnanswered(Run(t, steps), id);
  }

  lemma LostIsUnanswered(s: State, id: nat)
    requires Safe(s) && id in s.lost && id < |s.results|
    ensures s.results[id] == []
  {
    assert Answered(s, id);
    assert Unanswered(s)[0] == s.lost[0];
    hide Range;
  }

  lemma {:induction false} LostStays(s: State, steps: seq<Step>, id: nat)
    requires id in s.lost
    ensures id in Run(s, steps).lost
    decreases steps
  {
    if steps != [] {
      OneLostStays(s, steps[0], id);
      hide Apply;
      LostStays(Apply(s, steps[0]), steps[1..], id);
    }
  }

  lemma OneLostStays(s: State, step: Step, id: nat)
    requires id in s.lost
    ensures id in Apply(s, step).lost
  {
    hide PutAll;
  }

  /** Once the session is closed, a worker that waits finds nothing, looks again at the end of its timeout, and
      leaves. */
  lemma ClosedWorkerLeaves(s: State)
    requires Safe(s) && s.closed && s.worker == Waiting
    ensures Run(s, [Take, Idle, Head]) == s.(worker := Left)
  {
    EmptyOnceClosed(s);
    hide Safe;
    assert [Take, Idle, Head] + [] == [Take, Idle, Head];
    ThreeSteps(s, Take, Idle, Head, []);
  }

  lemma EmptyOnceClosed(s: State)
    requires Safe(s) && s.closed
    ensures s.queue == []
  {
  }

  lemma TakenInRange(s: State)
    requires Safe(s)
    ensures s.taken <= |s.results|
  {
  }

  lemma ResultAfterClose(s: State, r: State, id: nat)
    requires Safe(s) && Safe(r) && r.closed && id < |s.results| == |r.results| && r.taken == s.taken
    requires forall x :: x in Unanswered(r) ==> x in Unanswered(s)
    ensures r.results[id] == [] ==> Unanswered(s) == [id]
    ensures s.taken <= id ==> r.results[id] == [Closing]
  {
    hide Range, Apply;
    assert Answered(r, id);
  }

  /** Once the session is closed nothing is accepted or taken any more, the queue stays empty, and every
      accepted task has one reply but for at most one: the task in flight when the session was closed, or one
      that was dropped when its worker was cancelled. */
  lemma {:induction false} AfterClose(before: seq<Step>, after: seq<Step>)
    requires Run(INITIAL, before).closed
    ensures var s := Run(INITIAL, before);
      var r := Run(s, after);
      var n := |s.results|;
      && r.closed && r.queue == [] && r.taken == s.taken && |r.results| == n
      && Safe(r)
      && (forall id: nat :: s.taken <= id < n ==> r.results[id] == [Closing])
      && (forall id: nat :: id < n && r.results[id] == [] ==> Unanswered(s) == [id])
  {
    var s := Run(INITIAL, before);
    InitialIsSafe();
    RunKeepsSafe(INITIAL, before);
    ClosedStays(s, after);
    var r := Run(s, after);
    hide Run, Ledger, Answered, Unanswered;
    forall id: nat | id < |s.results| ensures r.results[id] == [] ==> Unanswered(s) == [id] {
      ResultAfterClose(s, r, id);
    }
    forall id: nat | s.taken <= id < |s.results| ensures r.results[id] == [Closing] {
      ResultAfterClose(s, r, id);
    }
  }

  lemma InitialIsSafe()
    ensures Safe(INITIAL)
  {
  }

  lemma {:induction false} ClosedStays(s: State, steps: seq<Step>)
    requires Safe(s) && s.closed
    ensures var r := Run(s, steps);
      && Safe(r) && r.closed && r.queue == [] && r.taken == s.taken && |r.results| == |s.results|
      && forall id :: id in Unanswered(r) ==> id in Unanswered(s)
    decreases steps
  {
    if steps != [] {
      var t := Apply(s, steps[0]);
      StepKeepsSafe(s, steps[0]);
      ClosedStep(s, steps[0]);
      hide Apply, Safe, Unanswered;
      ClosedStays(t, steps[1..]);
    }
  }

  lemma ClosedStep(s: State, step: Step)
    requires Safe(s) && s.closed
    ensures var r := Apply(s, step);
      && r.closed && r.queue == [] && r.taken == s.taken && |r.results| == |s.results|
      && forall id :: id in Unanswered(r) ==> id in Unanswered(s)
  {
    hide Answered, Range;
  }

  /** What a caller waiting on its result queue sees. */
  datatype Seen = Returned(reply: Reply) | RaisedError

  /** `_call_mcp_server` raises what is an `Exception`; the notice of `close` is a `CancelledError`, which is not
      one. */
  function Received(r: Reply): Seen {
    if r.Error? then RaisedError else Returned(r)
  }

  /** Every caller whose task was drained gets the notice as if it were the result. */
  lemma DrainedCallersReturn(steps: seq<Step>, id: nat)
    requires var s := Run(INITIAL, steps); s.closed && s.taken <= id < |s.results|
    ensures var q := Run(INITIAL, steps).results[id];
      |q| == 1 && Received(q[0]) == Returned(Closing)
  {
    var s := Run(INITIAL, steps);
    InitialIsSafe();
    RunKeepsSafe(INITIAL, steps);
    assert Answered(s, id);
  }

  // ---------- The session object ----------

  /** The fields of `MCPToolCallSession` its coroutines share, with one method per step. */
  class Session {
    var queue: seq<nat>
    var closed: bool
    var worker: Worker
    var connected: bool
    var results: seq<seq<Reply>>
    ghost var taken: nat
    ghost var served: seq<nat>
    ghost var lost: seq<nat>

    constructor ()
      ensures Now() == INITIAL
    {
      queue, closed, worker, connected, results := [], false, NotStarted, false, [];
      taken, served, lost := 0, [], [];
    }

    ghost function Now(): State
      reads this
    {
      State(queue, closed, worker, connected, results, taken, served, lost)
    }

    /** `_call_mcp_server` up to its wait: the number of the task, unless the session is closed. */
    method Call() returns (accepted: bool, id: nat)
      modifies this
      ensures Now() == Apply(old(Now()), Submit)
      ensures accepted == !old(closed)
      ensures accepted ==> id == |old(results)| && queue == old(queue) + [id]
    {
      accepted, id := !closed, |results|;
      if accepted {
        queue, results := queue + [id], results + [[]];
      }
    }

    /** The worker loop up to its wait for a task. */
    method Begin(withSession: bool)
      modifies this
      ensures Now() == Apply(old(Now()), if withSession then Connect else Disconnect)
    {
      if worker == NotStarted || (worker == Left && !withSession) {
        worker, connected := AtHead, withSession;
      }
    }

    method LoopHead()
      modifies this
      ensures Now() == Apply(old(Now()), Head)
    {
      if worker == AtHead {
        worker := if closed then Left else Waiting;
      }
    }

    /** The wait ends with a task if there is one, and by its timeout if there is none. */
    method Get()
      modifies this
      ensures Now() == Apply(old(Now()), if old(queue) == [] then Idle else Take)
    {
      if worker != Waiting {
        return;
      }
      if queue == [] {
        worker := AtHead;
        return;
      }
      var id := queue[0];
      queue, taken := queue[1..], taken + 1;
      if connected {
        worker := Serving(id);
      } else {
        worker, results, served := AtHead, Put(results, id, Error), served + [id];
      }
    }

    method PutReply(r: Reply)
      modifies this
      ensures Now() == Apply(old(Now()), Step.Reply(r))
    {
      if worker.Serving? && !r.Closing? {
        results, served := Put(results, worker.id, r), served + [worker.id];
        worker := AtHead;
      }
    }

    method Cancel()
      modifies this
      ensures Now() == Apply(old(Now()), CancelWorker)
    {
      if worker.Serving? {
        lost, worker := lost + [worker.id], Left;
      } else if worker == Waiting {
        worker := Left;
      }
    }

    /** `close`: no new tasks, and the queued ones are answered one by one. */
    method CloseSession()
      modifies this
      ensures Now() == Apply(old(Now()), Close)
    {
      if closed {
        return;
      }
      closed := true;
      while queue != []
        invariant closed && Now() == old(Now()).(closed := true, queue := queue, results := results)
        invariant PutAll(results, queue) == PutAll(old(results), old(queue))
        decreases |queue|
      {
        results, queue := Put(results, queue[0], Closing), queue[1..];
      }
    }
  }
}
