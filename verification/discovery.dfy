/** Locating the input photograph among the working directory's entries
    (solve_sky.py:44-53). */
module Discovery {

  import opened Options
  import opened Text

  /** The name fragment that marks the photograph. */
  const Marker := "starphoto"

  /** The accepted image extensions, in the order the program lists them. */
  const Extensions := [".jpg", ".jpeg", ".png"]

  /** `fn.endswith((".jpg", ".jpeg", ".png"))`. */
  predicate HasImageExtension(fn: string) {
    EndsWith(fn, Extensions[0]) || EndsWith(fn, Extensions[1]) || EndsWith(fn, Extensions[2])
  }

  /** The normalised name the test is applied to: `f.strip().lower()`. */
  function Normalise(entry: string): string {
    Lower(Strip(entry))
  }

  /** The test on the normalised name: it contains the marker and carries
      an image extension. */
  predicate Matches(fn: string) {
    Contains(fn, Marker) && HasImageExtension(fn)
  }

  /** An entry is the photograph when its normalised name matches. */
  predicate IsCandidate(entry: string) {
    Matches(Normalise(entry))
  }

  /** Entry `i` is a candidate and no earlier entry is. */
  ghost predicate FirstCandidate(entries: seq<string>, i: nat) {
    && i < |entries|
    && IsCandidate(entries[i])
    && forall j :: 0 <= j < i ==> !IsCandidate(entries[j])
  }

  /** The scan of the directory listing: the first candidate in listing
      order, returned as listed (before stripping and lower-casing). */
  function FindImage(entries: seq<string>): (r: Option<string>)
    ensures r.None? <==> forall i :: 0 <= i < |entries| ==> !IsCandidate(entries[i])
    ensures r.Some? ==> exists i: nat :: FirstCandidate(entries, i) && entries[i] == r.value
    ensures r.Some? ==> |r.value| >= |Marker|
  {
    if |entries| == 0 then None
    else if IsCandidate(entries[0]) then
      CandidateLength(entries[0]);
      assert FirstCandidate(entries, 0);
      Some(entries[0])
    else
      var r := FindImage(entries[1..]);
      SkipNonCandidate(entries, r);
      r
  }

  /** Dropping a first entry that is no candidate shifts the first
      candidate's index by one. */
  lemma SkipNonCandidate(entries: seq<string>, r: Option<string>)
    requires |entries| > 0 && !IsCandidate(entries[0])
    requires r.None? <==> forall i :: 0 <= i < |entries| - 1 ==> !IsCandidate(entries[1..][i])
    requires r.Some? ==> exists i: nat :: FirstCandidate(entries[1..], i) && entries[1..][i] == r.value
    ensures r.None? <==> forall i :: 0 <= i < |entries| ==> !IsCandidate(entries[i])
    ensures r.Some? ==> exists i: nat :: FirstCandidate(entries, i) && entries[i] == r.value
  {
    if r.Some? {
      var i: nat :| FirstCandidate(entries[1..], i) && entries[1..][i] == r.value;
      assert FirstCandidate(entries, i + 1);
    } else {
      forall i | 1 <= i < |entries|
        ensures !IsCandidate(entries[i])
      {
        assert entries[i] == entries[1..][i - 1];
      }
    }
  }

  /** A candidate name is never empty: it is at least as long as the
      marker, so the program's `if not image_file` fails exactly when no
      entry matched. */
  lemma CandidateLength(entry: string)
    requires IsCandidate(entry)
    ensures |entry| >= |Marker|
  {
    var fn := Normalise(entry);
    ContainsFinds(fn, Marker);
    var i: nat :| OccursAt(fn, Marker, i);
    LowerFolds(Strip(entry));
    StripTrims(entry);
    var j: nat :| TrimmedAt(entry, Strip(entry), j);
  }
}
