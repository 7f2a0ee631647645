/** The abstract interface between the program and the solver service:
    what one network call can return, and the trace of observable steps
    (network calls and waits) a run performs. */
module Protocol {

  import opened Options
  import opened Json

  /** The result of one `api_post`/`api_get` call (solve_sky.py:25-35).
      `RequestError` is any `requests.RequestException`: connection
      failure, timeout, an HTTP error status from `raise_for_status`, or
      an undecodable body (a `RequestException` subclass in current
      `requests`). `OtherError` is any other exception the call raises. */
  datatype Reply =
    | Body(body: Value)
    | RequestError
    | OtherError

  /** One observable step of a run, in the order it happens. */
  datatype Event =
    | Login
    | Upload(image: string, session: Value)
    | PollSubmission(subid: Value)
    | PollJob(jobid: Value)
    | Sleep(seconds: nat)

  /** The kinds of network call. */
  datatype CallKind = LoginCall | UploadCall | SubmissionCall | JobCall

  predicate IsCall(e: Event, k: CallKind) {
    match k
    case LoginCall => e.Login?
    case UploadCall => e.Upload?
    case SubmissionCall => e.PollSubmission?
    case JobCall => e.PollJob?
  }

  /** How many calls of kind `k` the trace holds. */
  function Calls(t: seq<Event>, k: CallKind): nat {
    if |t| == 0 then 0 else (if IsCall(t[0], k) then 1 else 0) + Calls(t[1..], k)
  }

  /** How many network calls of any kind the trace holds. */
  function NetworkCalls(t: seq<Event>): nat {
    Calls(t, LoginCall) + Calls(t, UploadCall) + Calls(t, SubmissionCall) + Calls(t, JobCall)
  }

  /** Counting distributes over concatenation of traces. */
  lemma {:induction false} CallsAppend(a: seq<Event>, b: seq<Event>, k: CallKind)
    ensures Calls(a + b, k) == Calls(a, k) + Calls(b, k)
  {
    if |a| > 0 {
      assert (a + b)[1..] == a[1..] + b;
      CallsAppend(a[1..], b, k);
    } else {
      assert a + b == b;
    }
  }

  /** A one-step trace holds one call, of the kind that step is. */
  lemma CallsOfStep(e: Event)
    ensures forall k :: Calls([e], k) == if IsCall(e, k) then 1 else 0
  {
    forall k
      ensures Calls([e], k) == if IsCall(e, k) then 1 else 0
    {
      assert [e][1..] == [];
    }
  }

  /** A two-step trace holds the calls of its two steps. */
  lemma CallsOfSteps(e: Event, f: Event)
    ensures forall k :: Calls([e, f], k) == Calls([e], k) + Calls([f], k)
  {
    assert [e, f] == [e] + [f];
    CallsAppendAll([e], [f]);
  }

  /** `CallsAppend` for every kind at once. */
  lemma CallsAppendAll(a: seq<Event>, b: seq<Event>)
    ensures forall k :: Calls(a + b, k) == Calls(a, k) + Calls(b, k)
  {
    forall k {
      CallsAppend(a, b, k);
    }
  }

  /** The value an `api_*` call followed by `.get(key)` yields, or `None`
      when that raises: the call itself failed, or the body is not a JSON
      object (`AttributeError`). Used where nothing catches the exception. */
  function Field(reply: Reply, key: string): Option<Value> {
    match reply
    case Body(v) => Get(v, key, Null)
    case _ => None
  }
}
