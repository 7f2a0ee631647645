# solve_sky: the plate-solving client's decision procedure

`solve_sky.py` sends a night-sky photograph to the nova.astrometry.net
plate-solving service and waits for the verdict. Its `main()` runs these
steps in order:

- find the photograph in the working directory;
- log in and require a session;
- upload the image and require a submission id;
- poll the submission until a job is assigned (at most 60 attempts);
- poll the job until it reports `success` or `failure` (at most 180 attempts).

This project models that procedure as pure functions over a *script*. The
script holds the directory listing and the service's reply to every call
the program can make. The model computes two things from it: the *trace*
of calls and waits the run performs, and how the run ends. A run ends with
`sys.exit` for a stated reason, or with an exception nothing catches (a
crash). The properties are proved over every script.

The files:

- `options.dfy`: the `Option` type.
- `json.dfy`: decoded JSON values, with Python's truth value and `dict.get`.
- `text.dfy`: `str.strip()`, `str.lower()`, substring search and `str.endswith`.
- `discovery.dfy`: choosing the photograph (lines 44-53).
- `protocol.dfy`: replies, trace events and call counting.
- `assignment.dfy`: the submission-polling loop (lines 103-111).
- `completion.dfy`: the job-polling loop (lines 118-140).
- `solve_sky.dfy`: the whole of `main()` as one function `Solve`.
- `driver.dfy`: `main()` written as loops with `break`, `continue` and early
  exits, each method proved equal to the functional model.
- `properties.dfy`: the guards, the poll counts and the endings, stated over
  whole runs.

Python semantics the model keeps:

- Every network reply is either:
  - a decoded JSON body;
  - a `requests.RequestException`: a connection error, a timeout, an HTTP
    error status or an undecodable body;
  - another exception.
- Calling `.get` on a body that is not a JSON object raises
  `AttributeError`. Nothing catches it, so the run crashes. This holds in
  the completion loop too, whose `except` clause catches only
  `RequestException`.
- `jobs[0]` follows Python indexing:
  - a non-empty string yields its first character;
  - a non-zero number, `true` or a non-empty object raises.
- `if not x` tests are Python truth values. For example, a session of `""`,
  `0`, `false`, `[]` or `{}` fails the login guard.
- A true job id is required after the assignment loop. A falsy job id, such
  as `0`, stops the loop and then ends the run with "Job ID not assigned."
- Waits appear in the trace as `Sleep(seconds)`. This includes the wait
  after the last fruitless attempt of each loop, which the program also
  performs.

## Model

| member | source | states |
|---|---|---|
| Json.FalsyValues | solve_sky.py:51 | a JSON value is false for `not` exactly when it is null, `false`, zero, or the empty string, list or object |
| Json.Get | solve_sky.py:66 | `.get` yields a value exactly when the body is a JSON object: the key's binding when present, the default otherwise |
| SolveSky.ExitStatus | solve_sky.py:131 | the process ends with status 0 exactly on "Astrometry solve SUCCESS." and with 1 on every other ending, a crash included |
| Text.StripTrims | solve_sky.py:46 | `strip()` removes one whitespace run from each end and nothing else; what it keeps neither starts nor ends with whitespace |
| Text.StripIdempotent | solve_sky.py:46 | stripping an already stripped name changes nothing |
| Text.StripKeepsUnpadded | solve_sky.py:46 | a name is unchanged by `strip()` exactly when neither end is whitespace, and becomes empty exactly when it is all whitespace |
| Text.LowerFolds | solve_sky.py:46 | `lower()` keeps the length, maps each character on its own, and leaves no upper-case ASCII letter |
| Text.ContainsFinds | solve_sky.py:47 | the `in` test holds exactly when the marker occurs at some position of the name |
| Discovery.FindImage | solve_sky.py:44-49 | the scan yields nothing exactly when no entry's stripped, lower-cased name contains "starphoto" and ends in .jpg, .jpeg or .png; otherwise it yields the first such entry in listing order, unstripped and not lower-cased |
| Discovery.CandidateLength | solve_sky.py:51 | a matching entry is at least as long as "starphoto", so `not image_file` fails exactly when the scan found nothing |
| Assignment.Inspect | solve_sky.py:106-109 | a failed request (a `RequestException` or any other exception) raises, since nothing guards the poll; a body that is not a JSON object raises on `.get`; a reply without `jobs` waits, and so does a falsy `jobs` (null, `false`, `0`, `""`, `[]`, `{}`); an assigned job is the head of a `jobs` list or the first character of a `jobs` string; a non-empty string is always assigned; a true number, boolean or object raises; a `jobs` list or null never raises |
| Assignment.OnlyHeadOfJobsCounts | solve_sky.py:107-109 | only `jobs[0]` counts: an empty list or a null head waits whatever follows, and a non-null head is the job assigned |
| Assignment.Await | solve_sky.py:105-111 | the loop polls only the submission, at most once per attempt; it exhausts its attempts exactly when every poll waits, and then polls every attempt; a found job was named by some poll; a loop that does not run out ends on a poll |
| Assignment.AwaitClosedForm | solve_sky.py:105-111 | each poll before the first decisive one is followed by a 5-second wait; the first decisive poll ends the loop with its own outcome; no poll follows it |
| Assignment.PollCount | solve_sky.py:105-110 | the loop polls the submission up to and including the first decisive poll, or on every attempt when no poll is decisive |
| Completion.Classify | solve_sky.py:119-135 | a job poll is a retry exactly when the request raised a `RequestException`; it raises past the `except` exactly when the request raised another exception or the body is not a JSON object; it succeeds exactly when the body is an object whose status is "success", and fails exactly when that status is "failure"; any other status continues |
| Completion.Await | solve_sky.py:118-140 | the loop polls only the job, at most once per attempt; it times out exactly when no poll reports a verdict or raises, and then polls every attempt; a loop that does not time out ends on a poll |
| Completion.AwaitClosedForm | solve_sky.py:118-140 | each poll before the first one with a verdict is followed by a wait; the first poll with a verdict ends the loop as that verdict says; no poll follows it |
| Completion.RoundAt | solve_sky.py:122-137 | the wait after a request error is 5 seconds and the wait after any other non-verdict poll is 10 seconds |
| Completion.PollCount | solve_sky.py:118-135 | the loop polls the job up to and including the first poll with a verdict, or on all attempts when none has one |
| Completion.RequestErrorsDoNotDecide | solve_sky.py:119-125 | an attempt that raised a request error could have been any other non-verdict status, and the reverse, without changing how the loop ends or how many polls it makes |
| SolveSky.Solve | solve_sky.py:41-140 | the run ends "Image not found." exactly when no entry matches, and then makes no call; each guard failure stops all later calls; a run makes at most one login, one upload, 60 submission polls and 180 job polls; a timeout follows exactly 180 job polls; an unassigned job means no job poll |
| SolveSky.SignIn | solve_sky.py:59-77 | the run logs in exactly once; it ends "Login failed." exactly when the login body is an object whose `session` is missing or false, and then the login is the only call; a login reply that raises, or an image that does not open, crashes it right after the login; otherwise the next call is the upload of the image with the session |
| SolveSky.Submit | solve_sky.py:73-99 | the run logs in, then uploads the image with the session; it ends "Upload failed." exactly when the upload body is an object whose `subid` is missing or false, and then those two are the only calls; an upload reply that raises crashes it right after the upload |
| SolveSky.Monitor | solve_sky.py:101-140 | the polling phases make no login or upload, and end only with "Job ID not assigned.", a verdict, a timeout or a crash |
| Driver.ScanDirectory | solve_sky.py:44-49 | the loop with `break` selects the same entry as the first-match search |
| Driver.AwaitAssignment | solve_sky.py:103-111 | the `for` loop with `break` performs the same polls and waits, and ends the same way, as the assignment phase model |
| Driver.AwaitVerdict | solve_sky.py:118-140 | the `for` loop with `continue` and early exits performs the same polls and waits, and ends the same way, as the completion phase model |
| Driver.Drive | solve_sky.py:41-140 | `main()` as written performs the same trace and ends the same way as `Solve` on every script |
| Driver.LogIn | solve_sky.py:59-77 | the statement-level login guard exits "Login failed." exactly when the session is missing or false, leaving the login as the only call; it crashes right after the login when the reply raises or the image does not open, and otherwise goes on to upload the image with the session |
| Driver.UploadImage | solve_sky.py:73-99 | the statement-level upload guard starts with the login and the upload; it exits "Upload failed." exactly when the `subid` is missing or false, leaving those as the only calls; it crashes when the reply raises, and otherwise its next call polls the submission with that id |
| Driver.MonitorJob | solve_sky.py:101-140 | the two loops and the job-id guard as written agree with the model |
| RunProperties.LoginGuard | solve_sky.py:66-69 | the run ends "Login failed." exactly when a photograph was found and the login reply is an object whose `session` is missing or false; the login is then the only call |
| RunProperties.UploadGuard | solve_sky.py:94-97 | the run ends "Upload failed." exactly when login succeeded, the image opened, and the upload reply is an object whose `subid` is missing or false; the login and the upload of the found image with the session are then the only calls |
| RunProperties.NoPollWithoutUpload | solve_sky.py:51-97 | the submission is polled exactly when every guard passed; otherwise no job is polled and the run ends at a guard or crashes |
| RunProperties.UploadedRun | solve_sky.py:94-106 | once every guard passed, the run is the login, then the upload, then the polling phases |
| RunProperties.SubmissionErrorCrashes | solve_sky.py:105-106 | once every guard passed, a request error on submission poll `k` after `k` waiting polls crashes the run after `k + 1` submission polls, with no job poll |
| RunProperties.MonitorClosedForm | solve_sky.py:103-120 | fruitless submission polls, each followed by a wait, then the decisive poll; that poll crashes the run, leaves it without a job, or hands its true job id to the completion loop, which polls that job |
| RunProperties.AssignmentEnding | solve_sky.py:105-115 | the assignment loop crashes exactly when its decisive poll raised, and yields a true job id exactly when that poll named one |
| RunProperties.CompletionEnding | solve_sky.py:118-140 | the completion loop ends solved, rejected or crashed exactly as its first poll with a verdict says, and times out exactly when no poll has a verdict |
| RunProperties.MonitorEnding | solve_sky.py:113-140 | the polling phases end with "Job ID not assigned.", SUCCESS, FAILED, a timeout or a crash exactly under the conditions on the decisive submission poll and the first job verdict |
| RunProperties.RunEnding | solve_sky.py:113-140 | the process exits with status 0 exactly when every guard passed, a true job id was assigned, and the first job poll with a verdict reported "success"; each other ending holds under its own exact condition |
| RunProperties.MonitorPollCounts | solve_sky.py:105-135 | the polling phases poll the submission up to the decisive poll, and poll the job up to the first verdict once a true job id is assigned; with no true job id they never poll a job |
| RunProperties.PollCounts | solve_sky.py:105-135 | the same poll counts hold for the whole run once every guard passed |

## Left out

- HTTP transport in `api_post`/`api_get` (solve_sky.py:25-35): `requests`,
  timeouts, `raise_for_status` and JSON decoding are foreign calls. Each
  call's result is an abstract reply.
- `safe_sleep` (solve_sky.py:19-23) and wall-clock time: only each wait's
  length is recorded.
- `log` and console output (solve_sky.py:16-17).
- A failing directory listing: `os.listdir(".")` (solve_sky.py:45) can
  raise, for example on a permission error, which would crash the run
  before any call. The script always holds a listing, so this crash is not
  modelled.
- The upload's file contents and request options (solve_sky.py:75-92):
  only whether `open` succeeds is modelled. A failed open crashes the run.
- The hard-coded API key (solve_sky.py:57) and the request bodies: they are
  constant literals with no logic.
- Coordinate projection, image footprint, clipping and overlay rendering:
  no such code exists in `solve_sky.py`.
- Text.LowerFolds: folds only A-Z, not full Unicode lower-casing. Every
  character of "starphoto", ".jpg", ".jpeg" and ".png" is ASCII. No
  non-ASCII character lower-cases to one of them, so the match test is
  unaffected.
- JSON numbers are reals: NaN and Infinity, which Python's decoder also
  accepts, are not modelled.
- Exit status of a crash: the model records `Crash` and does not model the
  traceback. `ExitStatus` gives it status 1, as CPython does.
- Transport retries: the program has none. A failed request crashes the
  run, except in the job-polling loop, where a `RequestException` uses up
  one attempt; any other exception there still crashes.
- Session: only the upload sends it. The login, the submission polls and
  the job polls do not.
