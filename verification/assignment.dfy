/** The assignment phase (solve_sky.py:101-115): poll the submission until
    the service names a job for it, at most `Attempts` times. */
module Assignment {

  import opened Json
  import opened Protocol

  /** `for i in range(60)` */
  const Attempts := 60

  /** `safe_sleep(5)` after a poll that assigned nothing. */
  const Interval := 5

  /** What one submission poll tells the loop. */
  datatype Poll =
    | Waiting             // no job yet: sleep and poll again
    | Assigned(job: Value) // `job_id = jobs[0]; break`
    | Raised              // an exception nothing catches

  /** One pass of the loop body before the sleep: `api_get`, then
      `sub.get("jobs", [])`, then `jobs and jobs[0] is not None`. Indexing
      follows Python: a string yields its first character, while a number,
      a boolean or an object (whose keys are strings, never `0`) raises. */
  function Inspect(reply: Reply): (p: Poll)
    ensures !reply.Body? ==> p == Raised
    ensures reply.Body? && !reply.body.Obj? ==> p == Raised
    ensures p.Assigned? ==> p.job != Null
    ensures p.Assigned? ==> reply.Body? && reply.body.Obj? && "jobs" in reply.body.fields
    ensures reply.Body? && reply.body.Obj? && "jobs" !in reply.body.fields ==> p == Waiting
    ensures (&& reply.Body? && reply.body.Obj? && "jobs" in reply.body.fields
             && (reply.body.fields["jobs"].Arr? || reply.body.fields["jobs"].Null?)) ==> !p.Raised?
    ensures reply.Body? && reply.body.Obj? && "jobs" in reply.body.fields ==>
      var jobs := reply.body.fields["jobs"];
      && (!Truthy(jobs) ==> p == Waiting)
      && (p.Assigned? ==> || (jobs.Arr? && |jobs.items| > 0 && p.job == jobs.items[0])
                          || (jobs.Str? && |jobs.s| > 0 && p.job == Str([jobs.s[0]])))
      && (jobs.Str? && |jobs.s| > 0 ==> p == Assigned(Str([jobs.s[0]])))
      && ((jobs.Num? || jobs.Bool? || jobs.Obj?) && Truthy(jobs) ==> p == Raised)
  {
    if !reply.Body? then Raised
    else
      match Get(reply.body, "jobs", Arr([]))
      case None => Raised
      case Some(jobs) =>
        if !Truthy(jobs) then Waiting
        else
          match jobs
          case Arr(items) => if items[0] == Null then Waiting else Assigned(items[0])
          case Str(s) => Assigned(Str([s[0]]))
          case _ => Raised
  }

  /** Only the head of a `jobs` list is looked at: a list whose first entry
      is null waits whatever follows it, and one whose first entry is not
      null assigns that entry. */
  lemma OnlyHeadOfJobsCounts(fields: map<string, Value>, items: seq<Value>)
    requires "jobs" in fields && fields["jobs"] == Arr(items)
    ensures |items| == 0 || items[0] == Null ==> Inspect(Body(Obj(fields))) == Waiting
    ensures |items| > 0 && items[0] != Null ==> Inspect(Body(Obj(fields))) == Assigned(items[0])
  {
  }

  /** What each reply, in order, would tell the loop. */
  function Inspections(replies: seq<Reply>): (polls: seq<Poll>)
    ensures |polls| == |replies|
    ensures forall i :: 0 <= i < |replies| ==> polls[i] == Inspect(replies[i])
  {
    seq(|replies|, i requires 0 <= i < |replies| => Inspect(replies[i]))
  }

  /** How the phase ended. */
  datatype End =
    | Found(job: Value)  // the loop broke with `job_id = jobs[0]`
    | Exhausted         // every attempt assigned nothing
    | Crashed           // an attempt raised

  /** The steps the phase performed and how it ended. */
  datatype Phase = Phase(events: seq<Event>, end: End)

  /** The loop, given what each successive poll tells it: one attempt per
      entry of `polls`, so `|polls|` is the attempt budget. */
  function Await(subid: Value, polls: seq<Poll>): (r: Phase)
    ensures Calls(r.events, SubmissionCall) <= |polls|
    ensures forall k :: k != SubmissionCall ==> Calls(r.events, k) == 0
    ensures r.end.Exhausted? <==> forall i :: 0 <= i < |polls| ==> polls[i].Waiting?
    ensures r.end.Exhausted? ==> Calls(r.events, SubmissionCall) == |polls|
    ensures r.end.Found? ==> Assigned(r.end.job) in polls
    ensures !r.end.Exhausted? ==> |r.events| > 0 && r.events[|r.events| - 1] == PollSubmission(subid)
  {
    if |polls| == 0 then Phase([], Exhausted)
    else
      match polls[0]
      case Raised => Phase([PollSubmission(subid)], Crashed)
      case Assigned(job) => Phase([PollSubmission(subid)], Found(job))
      case Waiting =>
        var rest := Await(subid, polls[1..]);
        var round := [PollSubmission(subid), Sleep(Interval)];
        CallsAppendAll(round, rest.events);
        assert forall i :: 1 <= i < |polls| ==> polls[i] == polls[1..][i - 1];
        Phase(round + rest.events, rest.end)
  }

  /** Index of the first poll that does not leave the loop waiting, or
      `|polls|` when there is none. */
  function FirstDecisive(polls: seq<Poll>): (k: nat)
    ensures k <= |polls|
    ensures forall i :: 0 <= i < k ==> polls[i].Waiting?
    ensures k < |polls| ==> !polls[k].Waiting?
  {
    if |polls| == 0 || !polls[0].Waiting? then 0
    else 1 + FirstDecisive(polls[1..])
  }

  /** `n` fruitless attempts: each a poll followed by the wait. */
  function WaitRounds(subid: Value, n: nat): (t: seq<Event>)
    ensures |t| == 2 * n
    ensures Calls(t, SubmissionCall) == n
  {
    if n == 0 then []
    else
      CallsAppend([PollSubmission(subid), Sleep(Interval)], WaitRounds(subid, n - 1), SubmissionCall);
      [PollSubmission(subid), Sleep(Interval)] + WaitRounds(subid, n - 1)
  }

  /** One more fruitless attempt appends one poll and one wait. */
  lemma {:induction false} WaitRoundsExtend(subid: Value, n: nat)
    ensures WaitRounds(subid, n + 1) == WaitRounds(subid, n) + [PollSubmission(subid), Sleep(Interval)]
  {
    if n > 0 {
      WaitRoundsExtend(subid, n - 1);
    }
  }

  /** The loop body's step for a poll before the decisive one: the
      attempts so far all waited, and the rounds grow by that poll and
      its wait. */
  lemma NextRound(subid: Value, polls: seq<Poll>, n: nat)
    requires n < |polls|
    requires n <= FirstDecisive(polls)
    requires polls[n].Waiting?
    ensures n + 1 <= FirstDecisive(polls)
    ensures WaitRounds(subid, n + 1) == WaitRounds(subid, n) + [PollSubmission(subid)] + [Sleep(Interval)]
  {
    WaitRoundsExtend(subid, n);
    assert [PollSubmission(subid), Sleep(Interval)] == [PollSubmission(subid)] + [Sleep(Interval)];
  }

  /** The phase in closed form: the attempts before the first decisive
      poll each poll and wait; the decisive poll, if any, ends the phase
      with its own verdict, and no poll follows it. */
  lemma {:induction false} AwaitClosedForm(subid: Value, polls: seq<Poll>)
    ensures var k := FirstDecisive(polls);
      Await(subid, polls) ==
        if k == |polls| then Phase(WaitRounds(subid, k), Exhausted)
        else if polls[k].Raised? then Phase(WaitRounds(subid, k) + [PollSubmission(subid)], Crashed)
        else Phase(WaitRounds(subid, k) + [PollSubmission(subid)], Found(polls[k].job))
  {
    if |polls| > 0 && polls[0].Waiting? {
      AwaitClosedForm(subid, polls[1..]);
      var k := FirstDecisive(polls[1..]);
      var round := [PollSubmission(subid), Sleep(Interval)];
      assert WaitRounds(subid, k + 1) == round + WaitRounds(subid, k);
      assert round + (WaitRounds(subid, k) + [PollSubmission(subid)])
          == (round + WaitRounds(subid, k)) + [PollSubmission(subid)];
    } else if |polls| > 0 {
      assert WaitRounds(subid, 0) + [PollSubmission(subid)] == [PollSubmission(subid)];
    }
  }

  /** How many times the phase polls the submission: once per attempt up
      to and including the first decisive one, or every attempt when none
      is decisive. Nothing is polled after the decisive poll. */
  lemma {:induction false} PollCount(subid: Value, polls: seq<Poll>)
    ensures var k := FirstDecisive(polls);
      Calls(Await(subid, polls).events, SubmissionCall) == if k == |polls| then k else k + 1
  {
    AwaitClosedForm(subid, polls);
    var k := FirstDecisive(polls);
    if k < |polls| {
      CallsAppend(WaitRounds(subid, k), [PollSubmission(subid)], SubmissionCall);
      CallsOfStep(PollSubmission(subid));
    }
  }
}
