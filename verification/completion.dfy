/** The completion phase (solve_sky.py:117-140): poll the assigned job
    until it reports success or failure, at most `Attempts` times. */
module Completion {

  import opened Options
  import opened Json
  import opened Protocol

  /** `for i in range(180)` */
  const Attempts := 180

  /** `safe_sleep(5)` after a poll that raised a request error. */
  const RetryInterval := 5

  /** `safe_sleep(10)` after a poll whose status was neither verdict. */
  const PendingInterval := 10

  const SuccessStatus := Str("success")
  const FailureStatus := Str("failure")

  /** What one job poll tells the loop. */
  datatype Verdict =
    | Unreachable          // `except RequestException`: warn, wait, continue
    | Pending(status: Value) // any other status, or none: wait, continue
    | Succeeded            // `sys.exit(0)`
    | Failed               // `sys.exit(1)`
    | Raised               // an exception the `except` does not catch

  /** One pass of the loop body: `api_get`, `job.get("status")`, and the
      two comparisons. A body that is not a JSON object makes `.get` raise
      `AttributeError`, which is not a `RequestException`. */
  function Classify(reply: Reply): (v: Verdict)
    ensures v == Unreachable <==> reply == RequestError
    ensures v == Succeeded <==> reply.Body? && reply.body.Obj? && Get(reply.body, "status", Null) == Some(SuccessStatus)
    ensures v == Failed <==> reply.Body? && reply.body.Obj? && Get(reply.body, "status", Null) == Some(FailureStatus)
    ensures v.Pending? ==> v.status != SuccessStatus && v.status != FailureStatus
    ensures v.Raised? <==> reply == OtherError || (reply.Body? && !reply.body.Obj?)
    ensures reply.Body? && reply.body.Obj? ==> !v.Raised? && !v.Unreachable?
  {
    match reply
    case RequestError => Unreachable
    case OtherError => Raised
    case Body(job) =>
      match Get(job, "status", Null)
      case None => Raised
      case Some(status) =>
        if status == SuccessStatus then Succeeded
        else if status == FailureStatus then Failed
        else Pending(status)
  }

  /** The poll ends the loop. */
  predicate IsTerminal(v: Verdict) {
    v.Succeeded? || v.Failed? || v.Raised?
  }

  /** The wait that follows a poll that does not end the loop. */
  function Pause(v: Verdict): nat
    requires !IsTerminal(v)
  {
    if v.Unreachable? then RetryInterval else PendingInterval
  }

  /** How the phase ended. */
  datatype End =
    | Solved     // status "success"
    | Rejected   // status "failure"
    | TimedOut   // every attempt passed without a verdict
    | Crashed    // an attempt raised

  /** The steps the phase performed and how it ended. */
  datatype Phase = Phase(events: seq<Event>, end: End)

  /** The phase's ending for a poll that ends the loop. */
  function Finish(v: Verdict): End
    requires IsTerminal(v)
  {
    if v.Succeeded? then Solved else if v.Failed? then Rejected else Crashed
  }

  /** What each reply, in order, would tell the loop. */
  function Verdicts(replies: seq<Reply>): (verdicts: seq<Verdict>)
    ensures |verdicts| == |replies|
    ensures forall i :: 0 <= i < |replies| ==> verdicts[i] == Classify(replies[i])
  {
    seq(|replies|, i requires 0 <= i < |replies| => Classify(replies[i]))
  }

  /** The loop, given what each successive poll tells it: one attempt per
      entry of `verdicts`, so `|verdicts|` is the attempt budget. */
  function Await(jobid: Value, verdicts: seq<Verdict>): (r: Phase)
    ensures Calls(r.events, JobCall) <= |verdicts|
    ensures forall k :: k != JobCall ==> Calls(r.events, k) == 0
    ensures r.end == TimedOut <==> forall i :: 0 <= i < |verdicts| ==> !IsTerminal(verdicts[i])
    ensures r.end == TimedOut ==> Calls(r.events, JobCall) == |verdicts|
    ensures r.end != TimedOut ==> |r.events| > 0 && r.events[|r.events| - 1] == PollJob(jobid)
  {
    if |verdicts| == 0 then Phase([], TimedOut)
    else
      var v := verdicts[0];
      if IsTerminal(v) then Phase([PollJob(jobid)], Finish(v))
      else
        var rest := Await(jobid, verdicts[1..]);
        var round := [PollJob(jobid), Sleep(Pause(v))];
        CallsAppendAll(round, rest.events);
        assert forall i :: 1 <= i < |verdicts| ==> verdicts[i] == verdicts[1..][i - 1];
        Phase(round + rest.events, rest.end)
  }

  /** Index of the first poll that ends the loop, or `|verdicts|` when no
      poll does. */
  function FirstTerminal(verdicts: seq<Verdict>): (k: nat)
    ensures k <= |verdicts|
    ensures forall i :: 0 <= i < k ==> !IsTerminal(verdicts[i])
    ensures k < |verdicts| ==> IsTerminal(verdicts[k])
  {
    if |verdicts| == 0 || IsTerminal(verdicts[0]) then 0
    else 1 + FirstTerminal(verdicts[1..])
  }

  /** The polls and waits of the first `n` attempts, none of which ends
      the loop. */
  function PollRounds(jobid: Value, verdicts: seq<Verdict>, n: nat): (t: seq<Event>)
    requires n <= |verdicts|
    requires forall i :: 0 <= i < n ==> !IsTerminal(verdicts[i])
    ensures |t| == 2 * n
    ensures Calls(t, JobCall) == n
  {
    if n == 0 then []
    else
      var round := [PollJob(jobid), Sleep(Pause(verdicts[0]))];
      assert forall i :: 1 <= i < |verdicts| ==> verdicts[i] == verdicts[1..][i - 1];
      var rest := PollRounds(jobid, verdicts[1..], n - 1);
      CallsAppend(round, rest, JobCall);
      assert Calls(round, JobCall) == 1 by {
        assert round[1..][1..] == [];
      }
      round + rest
  }

  /** One more attempt that does not end the loop appends its poll and
      its wait. */
  lemma {:induction false} PollRoundsExtend(jobid: Value, verdicts: seq<Verdict>, n: nat)
    requires n < |verdicts|
    requires forall i :: 0 <= i <= n ==> !IsTerminal(verdicts[i])
    ensures PollRounds(jobid, verdicts, n + 1)
         == PollRounds(jobid, verdicts, n) + [PollJob(jobid), Sleep(Pause(verdicts[n]))]
  {
    assert forall j :: 1 <= j < |verdicts| ==> verdicts[j] == verdicts[1..][j - 1];
    if n > 0 {
      PollRoundsExtend(jobid, verdicts[1..], n - 1);
    }
  }

  /** The loop body's step for a poll before the first terminal one: the
      attempt budget so far stays clear of a verdict, and the rounds grow
      by that poll and its wait. */
  lemma NextRound(jobid: Value, verdicts: seq<Verdict>, m: nat)
    requires m < |verdicts|
    requires m <= FirstTerminal(verdicts)
    requires !IsTerminal(verdicts[m])
    ensures m + 1 <= FirstTerminal(verdicts)
    ensures PollRounds(jobid, verdicts, m + 1)
         == PollRounds(jobid, verdicts, m) + [PollJob(jobid)] + [Sleep(Pause(verdicts[m]))]
  {
    PollRoundsExtend(jobid, verdicts, m);
    assert [PollJob(jobid), Sleep(Pause(verdicts[m]))] == [PollJob(jobid)] + [Sleep(Pause(verdicts[m]))];
  }

  /** Attempt `i` of the rounds is a poll of the job followed by the wait
      its verdict calls for: 5 s after a request error, 10 s otherwise. */
  lemma {:induction false} RoundAt(jobid: Value, verdicts: seq<Verdict>, n: nat, i: nat)
    requires n <= |verdicts|
    requires forall j :: 0 <= j < n ==> !IsTerminal(verdicts[j])
    requires i < n
    ensures PollRounds(jobid, verdicts, n)[2 * i] == PollJob(jobid)
    ensures PollRounds(jobid, verdicts, n)[2 * i + 1]
         == Sleep(if verdicts[i].Unreachable? then RetryInterval else PendingInterval)
  {
    assert forall j :: 1 <= j < |verdicts| ==> verdicts[j] == verdicts[1..][j - 1];
    if i > 0 {
      RoundAt(jobid, verdicts[1..], n - 1, i - 1);
      var t := PollRounds(jobid, verdicts, n);
      var rest := PollRounds(jobid, verdicts[1..], n - 1);
      assert t[2..] == rest;
      assert 2 * i == 2 * (i - 1) + 2;
    }
  }

  /** The phase in closed form: every attempt before the first terminal
      poll polls and waits; the first terminal poll ends the phase with
      its verdict and nothing follows it; with no terminal poll the phase
      times out. */
  lemma {:induction false} AwaitClosedForm(jobid: Value, verdicts: seq<Verdict>)
    ensures var k := FirstTerminal(verdicts);
      Await(jobid, verdicts) ==
        if k == |verdicts| then Phase(PollRounds(jobid, verdicts, k), TimedOut)
        else Phase(PollRounds(jobid, verdicts, k) + [PollJob(jobid)], Finish(verdicts[k]))
  {
    if |verdicts| > 0 && !IsTerminal(verdicts[0]) {
      AwaitClosedForm(jobid, verdicts[1..]);
      var k := FirstTerminal(verdicts[1..]);
      var round := [PollJob(jobid), Sleep(Pause(verdicts[0]))];
      assert PollRounds(jobid, verdicts, k + 1) == round + PollRounds(jobid, verdicts[1..], k);
      assert round + (PollRounds(jobid, verdicts[1..], k) + [PollJob(jobid)])
          == (round + PollRounds(jobid, verdicts[1..], k)) + [PollJob(jobid)];
    } else if |verdicts| > 0 {
      assert PollRounds(jobid, verdicts, 0) + [PollJob(jobid)] == [PollJob(jobid)];
    }
  }

  /** How many times the phase polls the job: once per attempt up to and
      including the first terminal one, or every attempt when none is
      terminal. Nothing is polled after a terminal poll. */
  lemma {:induction false} PollCount(jobid: Value, verdicts: seq<Verdict>)
    ensures var k := FirstTerminal(verdicts);
      Calls(Await(jobid, verdicts).events, JobCall) == if k == |verdicts| then k else k + 1
  {
    AwaitClosedForm(jobid, verdicts);
    var k := FirstTerminal(verdicts);
    if k < |verdicts| {
      CallsAppend(PollRounds(jobid, verdicts, k), [PollJob(jobid)], JobCall);
      CallsOfStep(PollJob(jobid));
    }
  }

  /** FirstTerminal looks only at which polls are terminal: overwriting a
      poll that is not terminal with another that is not changes nothing. */
  lemma {:induction false} FirstTerminalIgnoresPending(verdicts: seq<Verdict>, i: nat, v: Verdict)
    requires i < |verdicts|
    requires !IsTerminal(verdicts[i]) && !IsTerminal(v)
    ensures FirstTerminal(verdicts[i := v]) == FirstTerminal(verdicts)
  {
    if i > 0 && !IsTerminal(verdicts[0]) {
      assert verdicts[i := v][1..] == verdicts[1..][i - 1 := v];
      FirstTerminalIgnoresPending(verdicts[1..], i - 1, v);
    }
  }

  /** A poll that raised a request error never decides the phase: had the
      same attempt returned any non-verdict status instead, or had a
      pending attempt raised a request error, the phase would end the
      same way after the same number of job polls. */
  lemma RequestErrorsDoNotDecide(jobid: Value, verdicts: seq<Verdict>, i: nat, v: Verdict)
    requires i < |verdicts|
    requires !IsTerminal(verdicts[i]) && !IsTerminal(v)
    ensures Await(jobid, verdicts[i := v]).end == Await(jobid, verdicts).end
    ensures Calls(Await(jobid, verdicts[i := v]).events, JobCall) == Calls(Await(jobid, verdicts).events, JobCall)
  {
    var w := verdicts[i := v];
    FirstTerminalIgnoresPending(verdicts, i, v);
    AwaitClosedForm(jobid, verdicts);
    AwaitClosedForm(jobid, w);
    PollCount(jobid, verdicts);
    PollCount(jobid, w);
  }
}
