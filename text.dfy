/** The few Python string operations the fence stripper relies on:
    substring membership (`pat in s`), the first occurrence of a
    substring (`s.find(pat)`), `s.split(sep)` with an explicit separator,
    and its inverse `sep.join(parts)`. */
module Text {
  import opened Wrappers

  /** `pat` occurs in `s` starting at index `i`. */
  predicate OccursAt(s: string, pat: string, i: int) {
    0 <= i && i + |pat| <= |s| && s[i..i + |pat|] == pat
  }

  /** The first occurrence of `pat` in `s` at or after `from`. */
  function FindFrom(s: string, pat: string, from: nat): (r: Option<nat>)
    decreases |s| - from
    ensures r.Some? ==> from <= r.value && OccursAt(s, pat, r.value)
    ensures r.Some? ==> forall j :: from <= j < r.value ==> !OccursAt(s, pat, j)
    ensures r.None? ==> forall j :: from <= j ==> !OccursAt(s, pat, j)
  {
    if from + |pat| > |s| then None
    else if s[from..from + |pat|] == pat then Some(from)
    else FindFrom(s, pat, from + 1)
  }

  /** Python's `s.find(pat)`, with `None` for -1: the first index where
      `pat` occurs, or `None` when it occurs nowhere. */
  function Find(s: string, pat: string): (r: Option<nat>) {
    FindFrom(s, pat, 0)
  }

  /** Python's `pat in s`: `pat` occurs at some index of `s`. */
  predicate Contains(s: string, pat: string)
    ensures Contains(s, pat) ==> |pat| <= |s|
  {
    Find(s, pat).Some?
  }

  /** `pat in s` holds exactly when `pat` occurs at some index. */
  lemma ContainsAt(s: string, pat: string, i: int)
    ensures OccursAt(s, pat, i) ==> Contains(s, pat)
  {
  }

  lemma ContainsIff(s: string, pat: string)
    ensures Contains(s, pat) <==> exists i :: OccursAt(s, pat, i)
  {
  }

  /** An occurrence inside a slice is an occurrence in the whole string. */
  lemma OccursInSlice(s: string, pat: string, lo: nat, hi: nat, j: int)
    requires lo <= hi <= |s|
    ensures OccursAt(s[lo..hi], pat, j) ==> OccursAt(s, pat, lo + j) && lo + j + |pat| <= hi
  {
    if OccursAt(s[lo..hi], pat, j) {
      var a, b := s[lo..hi][j..j + |pat|], s[lo + j..lo + j + |pat|];
      assert |a| == |b| && forall k :: 0 <= k < |a| ==> a[k] == b[k];
    }
  }

  /** An occurrence that lies inside a slice is an occurrence in the slice. */
  lemma OccursWithinSlice(s: string, pat: string, lo: nat, hi: nat, j: int)
    requires lo <= j && j + |pat| <= hi <= |s|
    ensures OccursAt(s, pat, j) ==> OccursAt(s[lo..hi], pat, j - lo)
  {
    var a, b := s[lo..hi][j - lo..j - lo + |pat|], s[j..j + |pat|];
    assert |a| == |b| && forall k :: 0 <= k < |a| ==> a[k] == b[k];
  }

  /** Where a string occurs, every prefix of it occurs too. */
  lemma PrefixOccurs(s: string, pat: string, q: string, i: int)
    requires q <= pat
    ensures OccursAt(s, pat, i) ==> OccursAt(s, q, i)
  {
    if OccursAt(s, pat, i) {
      assert s[i..i + |q|] == s[i..i + |pat|][..|q|];
    }
  }

  /** An occurrence with none before it is the first one. */
  lemma FindFirst(s: string, pat: string, i: nat)
    requires OccursAt(s, pat, i)
    requires forall j :: 0 <= j < i ==> !OccursAt(s, pat, j)
    ensures Find(s, pat) == Some(i)
  {
  }

  /** The text before the first occurrence of `pat` does not contain it. */
  lemma BeforeFirst(s: string, pat: string, i: nat)
    requires pat != [] && i <= |s|
    requires forall j :: 0 <= j < i ==> !OccursAt(s, pat, j)
    ensures !Contains(s[..i], pat)
  {
    forall j | 0 <= j
      ensures !OccursAt(s[..i], pat, j)
    {
      OccursInSlice(s, pat, 0, i, j);
      assert s[..i] == s[0..i];
    }
  }

  /** Python's `sep.join(parts)`. */
  function Join(parts: seq<string>, sep: string): (s: string)
    requires |parts| >= 1
  {
    if |parts| == 1 then parts[0] else parts[0] + sep + Join(parts[1..], sep)
  }

  /** Python's `s.split(sep)` for a non-empty separator: the pieces between
      successive non-overlapping occurrences of `sep`, scanning left to
      right.  There is more than one piece exactly when the separator
      occurs, and the first piece is the text before its first occurrence,
      which does not contain the separator (SplitJoin below: joining the
      pieces gives `s` back). */
  function Split(s: string, sep: string): (parts: seq<string>)
    requires sep != []
    decreases |s|
    ensures |parts| >= 1
    ensures |parts| == 1 <==> !Contains(s, sep)
    ensures Find(s, sep).None? ==> parts[0] == s
    ensures Find(s, sep).Some? ==> parts[0] == s[..Find(s, sep).value]
    ensures !Contains(parts[0], sep)
  {
    match Find(s, sep)
    case None => [s]
    case Some(i) =>
      BeforeFirst(s, sep, i);
      [s[..i]] + Split(s[i + |sep|..], sep)
  }

  /** Joining the pieces of a split with the separator restores the text. */
  lemma {:induction false} SplitJoin(s: string, sep: string)
    requires sep != []
    decreases |s|
    ensures Join(Split(s, sep), sep) == s
  {
    match Find(s, sep)
    case None =>
    case Some(i) =>
      var rest := s[i + |sep|..];
      SplitJoin(rest, sep);
      var parts := Split(s, sep);
      assert parts[1..] == Split(rest, sep);
      assert s == s[..i] + sep + rest;
  }
}
