/** The string operations file selection applies to a directory entry:
    `str.strip()`, `str.lower()`, the `in` substring test and
    `str.endswith`. Strings are sequences of Unicode code points. */
module Text {

  /** Python's `str.isspace` on one code point: the characters that
      `str.strip()` with no argument removes, including the ideographic
      (full-width) space U+3000. */
  predicate IsSpace(c: char) {
    var n := c as int;
    || (0x09 <= n <= 0x0D)
    || (0x1C <= n <= 0x20)
    || n == 0x85
    || n == 0xA0
    || n == 0x1680
    || (0x2000 <= n <= 0x200A)
    || n == 0x2028
    || n == 0x2029
    || n == 0x202F
    || n == 0x205F
    || n == 0x3000
  }

  /** Number of whitespace characters at the front of `s`. */
  function LeadingSpaces(s: string): (n: nat)
    ensures n <= |s|
    ensures forall k :: 0 <= k < n ==> IsSpace(s[k])
    ensures n < |s| ==> !IsSpace(s[n])
  {
    if |s| == 0 || !IsSpace(s[0]) then 0 else 1 + LeadingSpaces(s[1..])
  }

  /** Number of whitespace characters at the back of `s`. */
  function TrailingSpaces(s: string): (n: nat)
    ensures n <= |s|
    ensures forall k :: |s| - n <= k < |s| ==> IsSpace(s[k])
    ensures n < |s| ==> !IsSpace(s[|s| - 1 - n])
  {
    if |s| == 0 || !IsSpace(s[|s| - 1]) then 0 else 1 + TrailingSpaces(s[..|s| - 1])
  }

  /** `r` is what remains of `s` once the whitespace run `s[..i]` in front
      and the whitespace run after `r` are removed. */
  ghost predicate TrimmedAt(s: string, r: string, i: nat) {
    && i + |r| <= |s|
    && r == s[i..i + |r|]
    && (forall k :: 0 <= k < i ==> IsSpace(s[k]))
    && (forall k :: i + |r| <= k < |s| ==> IsSpace(s[k]))
  }

  /** Neither end of `r` is whitespace. */
  predicate Unpadded(r: string) {
    r == [] || (!IsSpace(r[0]) && !IsSpace(r[|r| - 1]))
  }

  /** `str.strip()`: remove leading and trailing whitespace. */
  function Strip(s: string): string {
    var lead := LeadingSpaces(s);
    if lead == |s| then []
    else
      var trail := TrailingSpaces(s);
      assert trail < |s| - lead by {
        assert !IsSpace(s[lead]);
      }
      s[lead..|s| - trail]
  }

  /** Strip removes a whitespace run from each end and nothing else, and
      what it leaves starts and ends with a non-whitespace character. */
  lemma StripTrims(s: string)
    ensures Unpadded(Strip(s))
    ensures exists i: nat :: TrimmedAt(s, Strip(s), i)
  {
    var lead := LeadingSpaces(s);
    if lead == |s| {
      assert TrimmedAt(s, [], |s|);
    } else {
      assert TrimmedAt(s, Strip(s), lead);
    }
  }

  /** Stripping an already stripped string changes nothing. */
  lemma {:induction false} StripIdempotent(s: string)
    ensures Strip(Strip(s)) == Strip(s)
  {
    var r := Strip(s);
    StripTrims(s);
    assert LeadingSpaces(r) == 0;
    if r != [] {
      assert TrailingSpaces(r) == 0;
      assert r[0..|r| - 0] == r;
    }
  }

  /** The characters Strip removes are exactly the whitespace runs at the
      two ends: a string whose ends are not whitespace is kept whole, and a
      string of whitespace only becomes empty. */
  lemma {:induction false} StripKeepsUnpadded(s: string)
    ensures Strip(s) == s <==> Unpadded(s)
    ensures Strip(s) == [] <==> forall k :: 0 <= k < |s| ==> IsSpace(s[k])
  {
    var r := Strip(s);
    StripTrims(s);
    var i: nat :| TrimmedAt(s, r, i);
    if Unpadded(s) && s != [] {
      assert LeadingSpaces(s) == 0;
      assert TrailingSpaces(s) == 0;
      assert s[0..|s| - 0] == s;
    }
    if r == [] {
      forall k | 0 <= k < |s|
        ensures IsSpace(s[k])
      {
        if k >= i {
          assert i + |r| <= k;
        }
      }
    } else {
      assert r[0] == s[i];
    }
  }

  /** `str.lower()` on one code point. Only A-Z are folded (see README). */
  function LowerChar(c: char): char {
    if 'A' <= c <= 'Z' then (c as int + 32) as char else c
  }

  /** `str.lower()`. */
  function Lower(s: string): string {
    if |s| == 0 then [] else [LowerChar(s[0])] + Lower(s[1..])
  }

  /** Lower maps every character on its own and keeps the length; what it
      returns holds no upper-case ASCII letter. */
  lemma {:induction false} LowerFolds(s: string)
    ensures |Lower(s)| == |s|
    ensures forall k :: 0 <= k < |s| ==> Lower(s)[k] == LowerChar(s[k])
    ensures forall k :: 0 <= k < |s| ==> !('A' <= Lower(s)[k] <= 'Z')
  {
    if |s| > 0 {
      LowerFolds(s[1..]);
      assert forall k :: 1 <= k < |s| ==> Lower(s)[k] == Lower(s[1..])[k - 1];
    }
  }

  /** `needle` occurs in `hay` starting at index `i`. */
  predicate OccursAt(hay: string, needle: string, i: nat) {
    i + |needle| <= |hay| && hay[i..i + |needle|] == needle
  }

  /** Python's `needle in hay` for strings: try each start position in
      turn. */
  function Contains(hay: string, needle: string): bool
    decreases |hay|
  {
    if |hay| < |needle| then false
    else if hay[..|needle|] == needle then true
    else Contains(hay[1..], needle)
  }

  /** Contains holds exactly when the needle occurs somewhere in the hay. */
  lemma {:induction false} ContainsFinds(hay: string, needle: string)
    ensures Contains(hay, needle) <==> exists i: nat :: OccursAt(hay, needle, i)
    decreases |hay|
  {
    if |hay| < |needle| {
      assert forall i: nat :: !OccursAt(hay, needle, i);
    } else if hay[..|needle|] == needle {
      assert OccursAt(hay, needle, 0);
    } else {
      ContainsFinds(hay[1..], needle);
      ShiftOccurrence(hay, needle);
    }
  }

  /** An occurrence past index 0 is an occurrence in the tail. */
  lemma ShiftOccurrence(hay: string, needle: string)
    requires |hay| > 0
    requires !OccursAt(hay, needle, 0)
    ensures (exists i: nat :: OccursAt(hay, needle, i)) <==> (exists i: nat :: OccursAt(hay[1..], needle, i))
  {
    if i: nat :| OccursAt(hay, needle, i) {
      assert i > 0;
      assert hay[1..][i - 1..i - 1 + |needle|] == hay[i..i + |needle|];
      assert OccursAt(hay[1..], needle, i - 1);
    }
    if i: nat :| OccursAt(hay[1..], needle, i) {
      assert hay[1..][i..i + |needle|] == hay[i + 1..i + 1 + |needle|];
      assert OccursAt(hay, needle, i + 1);
    }
  }

  /** `s.endswith(suffix)`. */
  predicate EndsWith(s: string, suffix: string) {
    |suffix| <= |s| && s[|s| - |suffix|..] == suffix
  }
}
