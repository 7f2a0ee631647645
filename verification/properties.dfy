/** What a run of `main()` guarantees, stated over every script: which
    steps happen before which, how many polls each phase makes, and which
    reply decides how the run ends. */
module RunProperties {

  import opened Json
  import opened Protocol
  import opened Discovery
  import opened SolveSky
  import Assignment
  import Completion

  /** The run gets past every guard before the first poll: a photograph
      was found, the login returned a true session, the image opened and
      the upload returned a true submission id. */
  predicate Uploads(s: Script) {
    && FindImage(s.entries).Some?
    && Field(s.login, "session").Some? && Truthy(Field(s.login, "session").value)
    && s.imageOpens
    && Field(s.upload, "subid").Some? && Truthy(Field(s.upload, "subid").value)
  }

  /** The submission id the polls use. */
  function SubmissionId(s: Script): Value
    requires Field(s.upload, "subid").Some?
  {
    Field(s.upload, "subid").value
  }

  /** The login guard: the run ends with "Login failed." exactly when a
      photograph was found and the login body is a JSON object whose
      `session` is missing or false; the login is then the only call. */
  lemma LoginGuard(s: Script)
    requires WellFormed(s)
    ensures Solve(s).ending == Exit(LoginFailed) <==>
      FindImage(s.entries).Some? && Field(s.login, "session").Some? && !Truthy(Field(s.login, "session").value)
    ensures Solve(s).ending == Exit(LoginFailed) ==> Solve(s).trace == [Login]
  {
  }

  /** The upload guard: the run ends with "Upload failed." exactly when it
      got as far as uploading and the upload body is a JSON object whose
      `subid` is missing or false; login and upload are then the only
      calls, the upload carrying the found image and the session. */
  lemma UploadGuard(s: Script)
    requires WellFormed(s)
    ensures Solve(s).ending == Exit(UploadFailed) <==>
      && FindImage(s.entries).Some?
      && Field(s.login, "session").Some? && Truthy(Field(s.login, "session").value)
      && s.imageOpens
      && Field(s.upload, "subid").Some? && !Truthy(Field(s.upload, "subid").value)
    ensures Solve(s).ending == Exit(UploadFailed) ==>
      Solve(s).trace == [Login, Upload(FindImage(s.entries).value, Field(s.login, "session").value)]
  {
  }

  /** Nothing is polled unless every guard passed; a run stopped by a
      guard ends in one of the early exits or a crash. */
  lemma NoPollWithoutUpload(s: Script)
    requires WellFormed(s)
    ensures Calls(Solve(s).trace, SubmissionCall) > 0 <==> Uploads(s)
    ensures !Uploads(s) ==> Calls(Solve(s).trace, JobCall) == 0
    ensures !Uploads(s) ==> Solve(s).ending.Crash? || Solve(s).ending.reason in {ImageNotFound, LoginFailed, UploadFailed}
  {
    if Uploads(s) {
      var image := FindImage(s.entries).value;
      var session := Field(s.login, "session").value;
      UploadedRun(s);
      var m := Monitor(s, SubmissionId(s));
      var head := [Login, Upload(image, session)];
      CallsAppendAll(head, m.trace);
      CallsOfSteps(Login, Upload(image, session));
      CallsOfStep(Login);
      CallsOfStep(Upload(image, session));
      Assignment.AwaitClosedForm(SubmissionId(s), Assignment.Inspections(s.submissionReplies));
      var a := Assignment.Await(SubmissionId(s), Assignment.Inspections(s.submissionReplies));
      assert Calls(a.events, SubmissionCall) > 0 by {
        var k := Assignment.FirstDecisive(Assignment.Inspections(s.submissionReplies));
        if k == |s.submissionReplies| {
        } else {
          var w := Assignment.WaitRounds(SubmissionId(s), k);
          CallsAppend(w, [PollSubmission(SubmissionId(s))], SubmissionCall);
          CallsOfStep(PollSubmission(SubmissionId(s)));
        }
      }
      if a.end.Found? && Truthy(a.end.job) {
        CallsAppendAll(a.events, Completion.Await(a.end.job, Completion.Verdicts(s.jobReplies)).events);
      }
    } else {
      var o := Solve(s);
      if FindImage(s.entries).Some? {
        var image := FindImage(s.entries).value;
        if Field(s.login, "session").Some? && Truthy(Field(s.login, "session").value) && s.imageOpens {
          var session := Field(s.login, "session").value;
          CallsOfSteps(Login, Upload(image, session));
          CallsOfStep(Login);
          CallsOfStep(Upload(image, session));
        } else {
          CallsOfStep(Login);
        }
      }
    }
  }

  /** Once every guard passed, the run is the login and the upload
      followed by the two polling phases. */
  lemma UploadedRun(s: Script)
    requires WellFormed(s)
    ensures Uploads(s) ==> Solve(s) == Outcome(
      [Login, Upload(FindImage(s.entries).value, Field(s.login, "session").value)] + Monitor(s, SubmissionId(s)).trace,
      Monitor(s, SubmissionId(s)).ending)
  {
  }

  /** What the submission polls would tell the assignment loop. */
  function SubmissionPolls(s: Script): seq<Assignment.Poll> {
    Assignment.Inspections(s.submissionReplies)
  }

  /** What the job polls would tell the completion loop. */
  function JobVerdicts(s: Script): seq<Completion.Verdict> {
    Completion.Verdicts(s.jobReplies)
  }

  /** The first submission poll that does not leave the loop waiting
      names a job, and that job id is true. */
  predicate JobAssigned(s: Script) {
    var k := Assignment.FirstDecisive(SubmissionPolls(s));
    k < |SubmissionPolls(s)| && SubmissionPolls(s)[k].Assigned? && Truthy(SubmissionPolls(s)[k].job)
  }

  /** The first submission poll that does not leave the loop waiting
      raises. */
  predicate AssignmentRaises(s: Script) {
    var k := Assignment.FirstDecisive(SubmissionPolls(s));
    k < |SubmissionPolls(s)| && SubmissionPolls(s)[k].Raised?
  }

  /** The first job poll that ends the completion loop reports `v`. */
  predicate FirstVerdictIs(s: Script, v: Completion.Verdict) {
    var m := Completion.FirstTerminal(JobVerdicts(s));
    m < |JobVerdicts(s)| && JobVerdicts(s)[m] == v
  }

  /** The polling phases in closed form: the fruitless submission polls,
      then the decisive one, which crashes the run, leaves it without a
      job, or hands a true job id to the completion loop; that loop's
      first terminal poll, or running out of attempts, decides the exit. */
  lemma MonitorClosedForm(s: Script, subid: Value)
    requires WellFormed(s)
    ensures var polls := SubmissionPolls(s);
      var k := Assignment.FirstDecisive(polls);
      var waits := Assignment.WaitRounds(subid, k);
      var o := Monitor(s, subid);
      && (k == Assignment.Attempts ==> o == Outcome(waits, Exit(JobNotAssigned)))
      && (k < Assignment.Attempts && polls[k].Raised? ==> o == Outcome(waits + [PollSubmission(subid)], Crash))
      && (k < Assignment.Attempts && polls[k].Assigned? && !Truthy(polls[k].job)
          ==> o == Outcome(waits + [PollSubmission(subid)], Exit(JobNotAssigned)))
      && (k < Assignment.Attempts && polls[k].Assigned? && Truthy(polls[k].job)
          ==> o.trace == waits + [PollSubmission(subid)] + Completion.Await(polls[k].job, JobVerdicts(s)).events)
  {
    Assignment.AwaitClosedForm(subid, SubmissionPolls(s));
  }

  /** How the assignment loop's ending reads off the submission polls. */
  lemma AssignmentEnding(s: Script, subid: Value)
    ensures var a := Assignment.Await(subid, SubmissionPolls(s));
      && (a.end.Crashed? <==> AssignmentRaises(s))
      && (a.end.Found? && Truthy(a.end.job) <==> JobAssigned(s))
      && (JobAssigned(s) ==> a.end.job == SubmissionPolls(s)[Assignment.FirstDecisive(SubmissionPolls(s))].job)
  {
    Assignment.AwaitClosedForm(subid, SubmissionPolls(s));
  }

  /** How the completion loop's ending reads off the job polls. */
  lemma CompletionEnding(s: Script, job: Value)
    ensures var c := Completion.Await(job, JobVerdicts(s));
      && (c.end == Completion.Solved <==> FirstVerdictIs(s, Completion.Succeeded))
      && (c.end == Completion.Rejected <==> FirstVerdictIs(s, Completion.Failed))
      && (c.end == Completion.Crashed <==> FirstVerdictIs(s, Completion.Raised))
      && (c.end == Completion.TimedOut <==> Completion.FirstTerminal(JobVerdicts(s)) == |JobVerdicts(s)|)
  {
    Completion.AwaitClosedForm(job, JobVerdicts(s));
  }

  /** Which replies decide how the polling phases end: the decisive
      submission poll first, then the first job poll with a verdict. */
  lemma MonitorEnding(s: Script, subid: Value)
    requires WellFormed(s)
    ensures Monitor(s, subid).ending == Exit(JobNotAssigned) <==> !JobAssigned(s) && !AssignmentRaises(s)
    ensures Monitor(s, subid).ending == Exit(SolveSucceeded) <==> JobAssigned(s) && FirstVerdictIs(s, Completion.Succeeded)
    ensures Monitor(s, subid).ending == Exit(SolveFailed) <==> JobAssigned(s) && FirstVerdictIs(s, Completion.Failed)
    ensures Monitor(s, subid).ending == Exit(SolveTimedOut)
        <==> JobAssigned(s) && Completion.FirstTerminal(JobVerdicts(s)) == Completion.Attempts
    ensures Monitor(s, subid).ending == Crash
        <==> AssignmentRaises(s) || (JobAssigned(s) && FirstVerdictIs(s, Completion.Raised))
  {
    AssignmentEnding(s, subid);
    var a := Assignment.Await(subid, SubmissionPolls(s));
    if a.end.Found? {
      CompletionEnding(s, a.end.job);
    }
  }

  /** Which replies decide each ending of a run that got past the upload.
      The process exits with status 0 exactly when every guard passed, the
      decisive submission poll named a true job id, and the first job poll
      with a verdict reported "success". */
  lemma RunEnding(s: Script)
    requires WellFormed(s)
    ensures Solve(s).ending == Exit(JobNotAssigned) <==> Uploads(s) && !JobAssigned(s) && !AssignmentRaises(s)
    ensures Solve(s).ending == Exit(SolveSucceeded) <==> Uploads(s) && JobAssigned(s) && FirstVerdictIs(s, Completion.Succeeded)
    ensures Solve(s).ending == Exit(SolveFailed) <==> Uploads(s) && JobAssigned(s) && FirstVerdictIs(s, Completion.Failed)
    ensures Solve(s).ending == Exit(SolveTimedOut)
        <==> Uploads(s) && JobAssigned(s) && Completion.FirstTerminal(JobVerdicts(s)) == Completion.Attempts
    ensures ExitStatus(Solve(s).ending) == 0
        <==> Uploads(s) && JobAssigned(s) && FirstVerdictIs(s, Completion.Succeeded)
  {
    if Uploads(s) {
      UploadedRun(s);
      MonitorEnding(s, SubmissionId(s));
    } else {
      NoPollWithoutUpload(s);
    }
  }

  /** How many polls of each kind the polling phases make: submission
      polls up to and including the decisive one (every attempt when none
      is), and, once a true job id is assigned, job polls up to and
      including the first with a verdict (every attempt when none has
      one). Without a true job id no job is polled. */
  lemma MonitorPollCounts(s: Script, subid: Value)
    requires WellFormed(s)
    ensures var k := Assignment.FirstDecisive(SubmissionPolls(s));
      Calls(Monitor(s, subid).trace, SubmissionCall) == if k == Assignment.Attempts then k else k + 1
    ensures !JobAssigned(s) ==> Calls(Monitor(s, subid).trace, JobCall) == 0
    ensures JobAssigned(s) ==> var m := Completion.FirstTerminal(JobVerdicts(s));
      Calls(Monitor(s, subid).trace, JobCall) == if m == Completion.Attempts then m else m + 1
  {
    AssignmentEnding(s, subid);
    Assignment.PollCount(subid, SubmissionPolls(s));
    var a := Assignment.Await(subid, SubmissionPolls(s));
    if JobAssigned(s) {
      var c := Completion.Await(a.end.job, JobVerdicts(s));
      CallsAppendAll(a.events, c.events);
      Completion.PollCount(a.end.job, JobVerdicts(s));
    }
  }

  /** The poll counts of a whole run that got past the upload: the login
      and the upload add no poll. */
  lemma PollCounts(s: Script)
    requires WellFormed(s)
    ensures Uploads(s) ==> var k := Assignment.FirstDecisive(SubmissionPolls(s));
      Calls(Solve(s).trace, SubmissionCall) == if k == Assignment.Attempts then k else k + 1
    ensures Uploads(s) && !JobAssigned(s) ==> Calls(Solve(s).trace, JobCall) == 0
    ensures Uploads(s) && JobAssigned(s) ==> var m := Completion.FirstTerminal(JobVerdicts(s));
      Calls(Solve(s).trace, JobCall) == if m == Completion.Attempts then m else m + 1
  {
    if Uploads(s) {
      UploadedRun(s);
      MonitorPollCounts(s, SubmissionId(s));
      HeadHasNoPolls(FindImage(s.entries).value, Field(s.login, "session").value, Monitor(s, SubmissionId(s)).trace);
    }
  }

  /** The login and the upload in front of a trace add no poll to it. */
  lemma HeadHasNoPolls(image: string, session: Value, t: seq<Event>)
    ensures Calls([Login, Upload(image, session)] + t, SubmissionCall) == Calls(t, SubmissionCall)
    ensures Calls([Login, Upload(image, session)] + t, JobCall) == Calls(t, JobCall)
  {
    CallsAppendAll([Login, Upload(image, session)], t);
    CallsOfSteps(Login, Upload(image, session));
    CallsOfStep(Login);
    CallsOfStep(Upload(image, session));
  }

  /** A submission poll is not guarded by any `except`: when every guard
      passed, the first `k` submission polls waited and poll `k` raised a
      request error, the run crashes after `k + 1` submission polls and
      never polls a job. */
  lemma SubmissionErrorCrashes(s: Script, k: nat)
    requires WellFormed(s)
    ensures (&& Uploads(s)
             && k < Assignment.Attempts
             && (forall i :: 0 <= i < k ==> SubmissionPolls(s)[i].Waiting?)
             && s.submissionReplies[k] == RequestError)
        ==> && Solve(s).ending == Crash
            && Calls(Solve(s).trace, SubmissionCall) == k + 1
            && Calls(Solve(s).trace, JobCall) == 0
  {
    if && Uploads(s) && k < Assignment.Attempts
       && (forall i :: 0 <= i < k ==> SubmissionPolls(s)[i].Waiting?)
       && s.submissionReplies[k] == RequestError
    {
      var polls := SubmissionPolls(s);
      assert polls[k] == Assignment.Raised;
      assert Assignment.FirstDecisive(polls) == k;
      assert AssignmentRaises(s) && !JobAssigned(s);
      UploadedRun(s);
      MonitorEnding(s, SubmissionId(s));
      PollCounts(s);
    }
  }
}
