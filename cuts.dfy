/**
 * Trimming a documentation code sample to the part between the cut
 * markers: everything up to the end of the first cut-before marker and
 * everything from the first cut-after marker on is dropped.
 */
module Cuts {
  const CutBeforeMarker: string := "// ---cut-before---"
  const CutAfterMarker: string := "// ---cut-after---"

  /** `pat` occurs in `s` starting at position `i`. */
  predicate OccursAt(s: string, pat: string, i: int)
  {
    0 <= i && i + |pat| <= |s| && s[i..i + |pat|] == pat
  }

  /** `i` is the first position where `pat` occurs in `s`. */
  predicate FirstAt(s: string, pat: string, i: int)
  {
    OccursAt(s, pat, i) && forall k :: 0 <= k < i ==> !OccursAt(s, pat, k)
  }

  /** `pat` occurs nowhere in `s`. */
  predicate Absent(s: string, pat: string)
  {
    forall k :: 0 <= k <= |s| ==> !OccursAt(s, pat, k)
  }

  /** `r` is the part of `s` that starts at position `i`. */
  predicate SliceAt(s: string, r: string, i: int)
  {
    0 <= i <= |s| - |r| && s[i..i + |r|] == r
  }

  /** The first occurrence of `pat` at or after `from`, or -1. */
  function IndexFrom(s: string, pat: string, from: nat): (r: int)
    requires forall k :: 0 <= k < from ==> !OccursAt(s, pat, k)
    ensures r == -1 || FirstAt(s, pat, r)
    ensures r == -1 <==> Absent(s, pat)
    decreases |s| - from
  {
    if from + |pat| > |s| then -1
    else if s[from..from + |pat|] == pat then from
    else IndexFrom(s, pat, from + 1)
  }

  /** `s.indexOf(pat)`: the first occurrence of `pat` in `s`, or -1 when there is none. */
  function IndexOf(s: string, pat: string): (r: int)
    ensures r == -1 || FirstAt(s, pat, r)
    ensures r == -1 <==> Absent(s, pat)
  {
    IndexFrom(s, pat, 0)
  }

  /** `s.slice(start, end)` for non-negative bounds: clamped to the length, empty when `end <= start`. */
  function Slice(s: string, start: nat, end: nat): (r: string)
    ensures start < end <= |s| ==> r == s[start..end]
    ensures end <= start ==> r == []
    ensures start <= |s| <= end ==> r == s[start..]
    ensures |s| <= start ==> r == []
  {
    var a := if start < |s| then start else |s|;
    var b := if end < |s| then end else |s|;
    if a < b then s[a..b] else []
  }

  /** `applyCuts`: keeps what lies after the first cut-before marker and before the first cut-after marker. */
  function ApplyCuts(code: string): (r: string)
    // a contiguous part of the input
    ensures |r| <= |code|
    ensures exists i :: SliceAt(code, r, i)
    // without markers the input comes back unchanged
    ensures Absent(code, CutBeforeMarker) && Absent(code, CutAfterMarker) ==> r == code
  {
    var found := IndexOf(code, CutBeforeMarker);
    var start := if found >= 0 then found + |CutBeforeMarker| else 0;
    var idx := IndexOf(code, CutAfterMarker);
    var end := if idx == -1 then |code| else idx;
    var r := Slice(code, start, end);
    assert start <= |code| && end <= |code|;
    assert r == [] ==> SliceAt(code, r, 0);
    assert r != [] ==> SliceAt(code, r, start);
    r
  }

  /** Both markers: the text between them, or nothing when the cut-after marker starts too early. */
  lemma {:induction false} CutBoth(code: string, i: nat, j: nat)
    requires FirstAt(code, CutBeforeMarker, i) && FirstAt(code, CutAfterMarker, j)
    ensures i + |CutBeforeMarker| <= j ==> ApplyCuts(code) == code[i + |CutBeforeMarker|..j]
    ensures j < i + |CutBeforeMarker| ==> ApplyCuts(code) == []
  {
    FirstIsUnique(code, CutBeforeMarker, i, IndexOf(code, CutBeforeMarker));
    FirstIsUnique(code, CutAfterMarker, j, IndexOf(code, CutAfterMarker));
  }

  /** Only the cut-before marker: everything after its first occurrence. */
  lemma {:induction false} CutBeforeOnly(code: string, i: nat)
    requires FirstAt(code, CutBeforeMarker, i) && Absent(code, CutAfterMarker)
    ensures ApplyCuts(code) == code[i + |CutBeforeMarker|..]
  {
    FirstIsUnique(code, CutBeforeMarker, i, IndexOf(code, CutBeforeMarker));
  }

  /** Only the cut-after marker: everything before its first occurrence. */
  lemma {:induction false} CutAfterOnly(code: string, j: nat)
    requires Absent(code, CutBeforeMarker) && FirstAt(code, CutAfterMarker, j)
    ensures ApplyCuts(code) == code[..j]
  {
    FirstIsUnique(code, CutAfterMarker, j, IndexOf(code, CutAfterMarker));
  }

  lemma FirstIsUnique(s: string, pat: string, i: int, r: int)
    requires FirstAt(s, pat, i)
    requires r == -1 || FirstAt(s, pat, r)
    requires r == -1 <==> Absent(s, pat)
    ensures r == i
  {
  }
}
