/** `main()` written the way the program runs it: a scan that breaks at
    the first match, guards that exit early, and two bounded `for` loops
    that break, continue or exit from inside. Each method is proved to
    perform exactly the steps, and end exactly as, the functional model
    describes. */
module Driver {

  import opened Options
  import opened Json
  import opened Protocol
  import opened Text
  import opened Discovery
  import opened SolveSky
  import Assignment
  import Completion

  /** Lines 44-49: walk the listing, stop at the first entry whose
      stripped, lower-cased name matches, and keep the entry as listed. */
  method ScanDirectory(entries: seq<string>) returns (imageFile: Option<string>)
    ensures imageFile == FindImage(entries)
  {
    imageFile := None;
    var i := 0;
    while i < |entries|
      invariant 0 <= i <= |entries|
      invariant imageFile == None
      invariant FindImage(entries) == FindImage(entries[i..])
    {
      var f := entries[i];
      var fn := Lower(Strip(f));
      assert fn == Normalise(f);
      if Contains(fn, Marker) && (EndsWith(fn, ".jpg") || EndsWith(fn, ".jpeg") || EndsWith(fn, ".png")) {
        assert Matches(fn);
        assert entries[i..][0] == f;
        imageFile := Some(f);
        return;
      }
      assert !Matches(fn);
      assert entries[i..][1..] == entries[i + 1..];
      i := i + 1;
    }
  }

  /** Lines 103-111: poll the submission until `jobs[0]` is not null, at
      most `|replies|` times, waiting after every fruitless poll. */
  method AwaitAssignment(subid: Value, replies: seq<Reply>) returns (events: seq<Event>, end: Assignment.End)
    ensures Assignment.Phase(events, end) == Assignment.Await(subid, Assignment.Inspections(replies))
  {
    ghost var polls := Assignment.Inspections(replies);
    Assignment.AwaitClosedForm(subid, polls);
    events := [];
    var n := 0;
    while n < |replies|
      invariant n <= |replies|
      invariant n <= Assignment.FirstDecisive(polls)
      invariant events == Assignment.WaitRounds(subid, n)
    {
      events := events + [PollSubmission(subid)];
      var poll := Assignment.Inspect(replies[n]);
      assert poll == polls[n];
      if !poll.Waiting? {
        assert Assignment.FirstDecisive(polls) == n;
        if poll.Raised? {
          return events, Assignment.Crashed;
        }
        return events, Assignment.Found(poll.job);
      }
      events := events + [Sleep(Assignment.Interval)];
      Assignment.NextRound(subid, polls, n);
      n := n + 1;
    }
    end := Assignment.Exhausted;
  }

  /** Lines 118-140: poll the job until it reports a verdict, at most
      `|replies|` times; a request error is warned about, waited out and
      counted as an attempt. */
  method AwaitVerdict(job: Value, replies: seq<Reply>) returns (events: seq<Event>, end: Completion.End)
    ensures Completion.Phase(events, end) == Completion.Await(job, Completion.Verdicts(replies))
  {
    ghost var verdicts := Completion.Verdicts(replies);
    Completion.AwaitClosedForm(job, verdicts);
    events := [];
    var m := 0;
    while m < |replies|
      invariant m <= |replies|
      invariant m <= Completion.FirstTerminal(verdicts)
      invariant events == Completion.PollRounds(job, verdicts, m)
    {
      events := events + [PollJob(job)];
      var verdict := Completion.Classify(replies[m]);
      assert verdict == verdicts[m];
      assert Completion.IsTerminal(verdict) ==> Completion.FirstTerminal(verdicts) == m;
      match verdict {
        case Unreachable =>
          Completion.NextRound(job, verdicts, m);
          events := events + [Sleep(Completion.RetryInterval)];
        case Pending(_) =>
          Completion.NextRound(job, verdicts, m);
          events := events + [Sleep(Completion.PendingInterval)];
        case Succeeded =>
          return events, Completion.Solved;
        case Failed =>
          return events, Completion.Rejected;
        case Raised =>
          return events, Completion.Crashed;
      }
      m := m + 1;
    }
    end := Completion.TimedOut;
  }

  /** `main()`. */
  method Drive(s: Script) returns (trace: seq<Event>, ending: Ending)
    requires WellFormed(s)
    ensures Outcome(trace, ending) == Solve(s)
  {
    var imageFile := ScanDirectory(s.entries);
    if imageFile.None? || imageFile.value == [] {
      return [], Exit(ImageNotFound);
    }
    trace, ending := LogIn(s, imageFile.value);
  }

  /** Lines 57-71: log in and require a session, then go on to upload. */
  method LogIn(s: Script, image: string) returns (trace: seq<Event>, ending: Ending)
    requires WellFormed(s)
    ensures Outcome(trace, ending) == SignIn(s, image)
    ensures ending == Exit(LoginFailed)
        <==> Field(s.login, "session").Some? && !Truthy(Field(s.login, "session").value)
    ensures ending == Exit(LoginFailed) ==> trace == [Login]
    ensures Field(s.login, "session").None? ==> trace == [Login] && ending == Crash
    ensures Field(s.login, "session").Some? && Truthy(Field(s.login, "session").value) && !s.imageOpens
        ==> trace == [Login] && ending == Crash
    ensures Field(s.login, "session").Some? && Truthy(Field(s.login, "session").value) && s.imageOpens
        ==> |trace| >= 2 && trace[1] == Upload(image, Field(s.login, "session").value)
  {
    trace := [Login];
    var session := Field(s.login, "session");
    if session.None? {
      return trace, Crash;
    }
    if !Truthy(session.value) {
      return trace, Exit(LoginFailed);
    }
    if !s.imageOpens {
      return trace, Crash;
    }
    trace, ending := UploadImage(s, image, session.value);
  }

  /** Lines 73-99: upload the image and require a submission id, then go
      on to the polling loops. */
  method UploadImage(s: Script, image: string, session: Value) returns (trace: seq<Event>, ending: Ending)
    requires WellFormed(s)
    ensures Outcome(trace, ending) == Submit(s, image, session)
    ensures |trace| >= 2 && trace[..2] == [Login, Upload(image, session)]
    ensures ending == Exit(UploadFailed)
        <==> Field(s.upload, "subid").Some? && !Truthy(Field(s.upload, "subid").value)
    ensures ending == Exit(UploadFailed) ==> trace == [Login, Upload(image, session)]
    ensures Field(s.upload, "subid").None? ==> trace == [Login, Upload(image, session)] && ending == Crash
    ensures Field(s.upload, "subid").Some? && Truthy(Field(s.upload, "subid").value)
        ==> |trace| > 2 && trace[2] == PollSubmission(Field(s.upload, "subid").value)
  {
    trace := [Login, Upload(image, session)];
    var subid := Field(s.upload, "subid");
    if subid.None? {
      return trace, Crash;
    }
    if !Truthy(subid.value) {
      return trace, Exit(UploadFailed);
    }
    var rest, ending' := MonitorJob(s, subid.value);
    trace, ending := trace + rest, ending';
  }

  /** Lines 101-140: the two polling loops and the guard between them. */
  method MonitorJob(s: Script, subid: Value) returns (trace: seq<Event>, ending: Ending)
    requires WellFormed(s)
    ensures Outcome(trace, ending) == Monitor(s, subid)
  {
    var found;
    trace, found := AwaitAssignment(subid, s.submissionReplies);
    if found.Crashed? {
      return trace, Crash;
    }
    if found.Exhausted? || !Truthy(found.job) {
      return trace, Exit(JobNotAssigned);
    }
    var polled, verdict := AwaitVerdict(found.job, s.jobReplies);
    trace := trace + polled;
    ending := Conclude(verdict);
  }
}
