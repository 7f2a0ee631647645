/** The whole run of `main()` (solve_sky.py:41-140) as a function of a
    script: the directory listing and the service's reply to every call
    the program can make. Its result is the trace of calls and waits the
    run performs and how the run ends. */
module SolveSky {

  import opened Options
  import opened Json
  import opened Protocol
  import opened Discovery
  import Assignment
  import Completion

  /** Everything the program reads from the world, in the order asked. */
  datatype Script = Script(
    entries: seq<string>,           // `os.listdir(".")`
    login: Reply,                   // reply to `POST login`
    imageOpens: bool,               // `open(image_file, "rb")` succeeds
    upload: Reply,                  // reply to `POST upload`
    submissionReplies: seq<Reply>,  // reply to the i-th `GET submissions/{sub_id}`
    jobReplies: seq<Reply>)         // reply to the i-th `GET jobs/{job_id}`

  /** The script answers every poll the two loops can make. */
  predicate WellFormed(s: Script) {
    |s.submissionReplies| == Assignment.Attempts && |s.jobReplies| == Completion.Attempts
  }

  /** Why the program called `sys.exit`, one per message it logs first. */
  datatype Reason =
    | ImageNotFound   // "Image not found."
    | LoginFailed     // "Login failed."
    | UploadFailed    // "Upload failed."
    | JobNotAssigned  // "Job ID not assigned."
    | SolveSucceeded  // "Astrometry solve SUCCESS."
    | SolveFailed     // "Astrometry solve FAILED."
    | SolveTimedOut   // "Timed out waiting for solve."

  /** A run ends in `sys.exit` or in an exception nothing catches. */
  datatype Ending = Exit(reason: Reason) | Crash

  datatype Outcome = Outcome(trace: seq<Event>, ending: Ending)

  /** The status the process ends with; CPython ends with 1 after
      printing an uncaught exception's traceback. */
  function ExitStatus(e: Ending): (status: int)
    ensures status == 0 || status == 1
    ensures status == 0 <==> e == Exit(SolveSucceeded)
  {
    if e == Exit(SolveSucceeded) then 0 else 1
  }

  /** `main()`. */
  function Solve(s: Script): (o: Outcome)
    requires WellFormed(s)
    ensures o.ending == Exit(ImageNotFound) <==> forall i :: 0 <= i < |s.entries| ==> !IsCandidate(s.entries[i])
    ensures o.ending == Exit(ImageNotFound) ==> o.trace == []
    ensures o.ending == Exit(LoginFailed) ==> o.trace == [Login]
    ensures o.ending == Exit(UploadFailed) ==> |o.trace| == 2 && o.trace[0] == Login && o.trace[1].Upload?
    ensures Calls(o.trace, LoginCall) <= 1 && Calls(o.trace, UploadCall) <= 1
    ensures Calls(o.trace, SubmissionCall) <= Assignment.Attempts
    ensures Calls(o.trace, JobCall) <= Completion.Attempts
    ensures o.ending == Exit(JobNotAssigned) ==> Calls(o.trace, JobCall) == 0
    ensures o.ending == Exit(SolveTimedOut) ==> Calls(o.trace, JobCall) == Completion.Attempts
    ensures o.ending == Exit(SolveSucceeded) || o.ending == Exit(SolveFailed)
            ==> |o.trace| > 0 && o.trace[|o.trace| - 1].PollJob?
    ensures NetworkCalls(o.trace) <= 2 + Assignment.Attempts + Completion.Attempts
  {
    match FindImage(s.entries)
    case None => Outcome([], Exit(ImageNotFound))
    case Some(image) =>
      var o := SignIn(s, image);
      assert NetworkCalls(o.trace) <= 2 + Assignment.Attempts + Completion.Attempts;
      o
  }

  /** Lines 57-71: log in and require a session. The image is opened only
      once a session is held. */
  function SignIn(s: Script, image: string): (o: Outcome)
    requires WellFormed(s)
    ensures o.ending != Exit(ImageNotFound)
    ensures o.ending == Exit(LoginFailed)
        <==> Field(s.login, "session").Some? && !Truthy(Field(s.login, "session").value)
    ensures Field(s.login, "session").Some? && Truthy(Field(s.login, "session").value) && !s.imageOpens
        ==> o == Outcome([Login], Crash)
    ensures Field(s.login, "session").Some? && Truthy(Field(s.login, "session").value) && s.imageOpens
        ==> |o.trace| >= 2 && o.trace[1] == Upload(image, Field(s.login, "session").value)
    ensures Field(s.login, "session").None? ==> o == Outcome([Login], Crash)
    ensures o.ending == Exit(LoginFailed) ==> o.trace == [Login]
    ensures o.ending == Exit(UploadFailed) ==> |o.trace| == 2 && o.trace[0] == Login && o.trace[1].Upload?
    ensures Calls(o.trace, LoginCall) == 1 && Calls(o.trace, UploadCall) <= 1
    ensures Calls(o.trace, SubmissionCall) <= Assignment.Attempts
    ensures Calls(o.trace, JobCall) <= Completion.Attempts
    ensures o.ending == Exit(JobNotAssigned) ==> Calls(o.trace, JobCall) == 0
    ensures o.ending == Exit(SolveTimedOut) ==> Calls(o.trace, JobCall) == Completion.Attempts
    ensures o.ending == Exit(SolveSucceeded) || o.ending == Exit(SolveFailed)
            ==> |o.trace| > 0 && o.trace[|o.trace| - 1].PollJob?
  {
    match Field(s.login, "session")
    case None => CallsOfStep(Login); Outcome([Login], Crash)
    case Some(session) =>
      CallsOfStep(Login);
      if !Truthy(session) then Outcome([Login], Exit(LoginFailed))
      else if !s.imageOpens then Outcome([Login], Crash)
      else Submit(s, image, session)
  }

  /** Lines 73-99: upload the image and require a submission id. */
  function Submit(s: Script, image: string, session: Value): (o: Outcome)
    requires WellFormed(s)
    ensures |o.trace| >= 2 && o.trace[..2] == [Login, Upload(image, session)]
    ensures o.ending != Exit(ImageNotFound) && o.ending != Exit(LoginFailed)
    ensures o.ending == Exit(UploadFailed)
        <==> Field(s.upload, "subid").Some? && !Truthy(Field(s.upload, "subid").value)
    ensures Field(s.upload, "subid").None? ==> o == Outcome([Login, Upload(image, session)], Crash)
    ensures o.ending == Exit(UploadFailed) ==> o.trace == [Login, Upload(image, session)]
    ensures Calls(o.trace, LoginCall) == 1 && Calls(o.trace, UploadCall) == 1
    ensures Calls(o.trace, SubmissionCall) <= Assignment.Attempts
    ensures Calls(o.trace, JobCall) <= Completion.Attempts
    ensures o.ending == Exit(JobNotAssigned) ==> Calls(o.trace, JobCall) == 0
    ensures o.ending == Exit(SolveTimedOut) ==> Calls(o.trace, JobCall) == Completion.Attempts
    ensures o.ending == Exit(SolveSucceeded) || o.ending == Exit(SolveFailed)
            ==> o.trace[|o.trace| - 1].PollJob?
  {
    var head := [Login, Upload(image, session)];
    CallsOfSteps(Login, Upload(image, session));
    CallsOfStep(Login);
    CallsOfStep(Upload(image, session));
    match Field(s.upload, "subid")
    case None => Outcome(head, Crash)
    case Some(subid) =>
      if !Truthy(subid) then Outcome(head, Exit(UploadFailed))
      else
        var m := Monitor(s, subid);
        CallsAppendAll(head, m.trace);
        assert (head + m.trace)[..2] == head;
        Outcome(head + m.trace, m.ending)
  }

  /** Lines 101-140: wait for a job to be assigned, then for its verdict.
      The trace holds the polls and waits only. */
  function Monitor(s: Script, subid: Value): (o: Outcome)
    requires WellFormed(s)
    ensures o.trace != []
    ensures o.ending.Crash? || o.ending.reason in {JobNotAssigned, SolveSucceeded, SolveFailed, SolveTimedOut}
    ensures Calls(o.trace, LoginCall) == 0 && Calls(o.trace, UploadCall) == 0
    ensures Calls(o.trace, SubmissionCall) <= Assignment.Attempts
    ensures Calls(o.trace, JobCall) <= Completion.Attempts
    ensures o.ending == Exit(JobNotAssigned) ==> Calls(o.trace, JobCall) == 0
    ensures o.ending == Exit(SolveTimedOut) ==> Calls(o.trace, JobCall) == Completion.Attempts
    ensures o.ending == Exit(SolveSucceeded) || o.ending == Exit(SolveFailed)
            ==> o.trace[|o.trace| - 1].PollJob?
  {
    var a := Assignment.Await(subid, Assignment.Inspections(s.submissionReplies));
    match a.end
    case Crashed => Outcome(a.events, Crash)
    case Exhausted => Outcome(a.events, Exit(JobNotAssigned))
    case Found(job) =>
      if !Truthy(job) then Outcome(a.events, Exit(JobNotAssigned))
      else
        var c := Completion.Await(job, Completion.Verdicts(s.jobReplies));
        CallsAppendAll(a.events, c.events);
        Outcome(a.events + c.events, Conclude(c.end))
  }

  /** How the run ends once the completion phase has ended. */
  function Conclude(e: Completion.End): Ending {
    match e
    case Solved => Exit(SolveSucceeded)
    case Rejected => Exit(SolveFailed)
    case TimedOut => Exit(SolveTimedOut)
    case Crashed => Crash
  }
}
