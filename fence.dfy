/** The reply clean-up shared by the HTTP service and the Streamlit app
    (main.py:162-163, app.py:103-104): when the reply contains "```json",
    it is replaced by `reply.split('```json\n')[1].split('```')[0]`.

    A reply that contains the marker "```json" but never the full opener
    "```json\n" leaves `split` with a single piece, so indexing `[1]`
    raises `IndexError`; both callers catch it as a parse failure. */
module Fence {
  import opened Wrappers
  import opened Text

  /** The language marker whose presence triggers stripping. */
  const Marker: string := "```json"
  /** The opening fence the reply is split on. */
  const Opener: string := "```json\n"
  /** The closing fence. */
  const Closer: string := "```"

  datatype StripError = IndexError

  /** Substring occurrence is inherited by prefixes of the pattern. */
  lemma ContainsPrefix(s: string, pat: string, q: string)
    requires q <= pat
    ensures Contains(s, pat) ==> Contains(s, q)
  {
    if Contains(s, pat) {
      var i := Find(s, pat).value;
      PrefixOccurs(s, pat, q, i);
      ContainsAt(s, q, i);
    }
  }

  /** The stripped reply.  It is the reply itself when the marker is absent,
      an `IndexError` exactly when the marker is present without a newline
      after it, and otherwise a text that contains no closing fence and
      hence no marker. */
  function StripFence(reply: string): (r: Result<string, StripError>)
    ensures !Contains(reply, Marker) ==> r == Success(reply)
    ensures r.Failure? <==> Contains(reply, Marker) && !Contains(reply, Opener)
    ensures r.Success? && Contains(reply, Marker) ==> !Contains(r.value, Closer)
    ensures r.Success? ==> !Contains(r.value, Marker)
  {
    ContainsPrefix(reply, Opener, Marker);
    if Contains(reply, Marker) then
      var parts := Split(reply, Opener);
      if |parts| < 2 then
        Failure(IndexError)
      else
        var body := Split(parts[1], Closer)[0];
        ContainsPrefix(body, Marker, Closer);
        Success(body)
    else
      Success(reply)
  }

  /** Stripping is idempotent: a stripped reply is left as it is. */
  lemma StripIdempotent(reply: string)
    requires StripFence(reply).Success?
    ensures StripFence(StripFence(reply).value) == StripFence(reply)
  {
  }

  /** With an opener present, stripping returns the first `split` piece,
      on the closing fence, of the text after the first opener, cut at the
      next opener. */
  lemma StripFormula(reply: string)
    requires Contains(reply, Opener)
    ensures var a := reply[Find(reply, Opener).value + |Opener|..];
            StripFence(reply) == Success(Split(Split(a, Opener)[0], Closer)[0])
  {
    ContainsPrefix(reply, Opener, Marker);
  }

  /** Helper for KeptSlice: an occurrence in the first `split` piece of `a`
      is an occurrence in `a` at the same index. */
  lemma OccursInFirstPiece(a: string, j: nat)
    ensures var piece := Split(a, Opener)[0];
            && |piece| <= |a| && piece == a[..|piece|]
            && (OccursAt(piece, Closer, j) ==> OccursAt(a, Closer, j) && j + |Closer| <= |piece|)
  {
    match Find(a, Opener)
    case Some(k) =>
      OccursInSlice(a, Closer, 0, k, j);
      assert a[..k] == a[0..k];
    case None =>
  }

  /** The text kept from `a`, the reply after its first opener, is a
      prefix of `a` that ends at a closing fence or at the end of `a`. */
  lemma KeptPrefix(a: string)
    ensures var body := Split(Split(a, Opener)[0], Closer)[0];
            && |body| <= |a|
            && body == a[..|body|]
            && (|body| == |a| || OccursAt(a, Closer, |body|))
  {
    var piece := Split(a, Opener)[0];
    OccursInFirstPiece(a, 0);
    match Find(piece, Closer)
    case Some(j) =>
      OccursInFirstPiece(a, j);
    case None =>
      match Find(a, Opener)
      case Some(k) =>
        PrefixOccurs(a, Opener, Closer, k);
      case None =>
  }

  /** KeptPrefix, read in the whole reply `s` with `a == s[lo..]`. */
  lemma KeptSlice(s: string, lo: nat)
    requires lo <= |s|
    ensures var body := Split(Split(s[lo..], Opener)[0], Closer)[0];
            && lo + |body| <= |s|
            && s[lo..lo + |body|] == body
            && (lo + |body| == |s| || OccursAt(s, Closer, lo + |body|))
  {
    var a := s[lo..];
    KeptPrefix(a);
    var n := |Split(Split(a, Opener)[0], Closer)[0]|;
    assert a[..n] == s[lo..lo + n];
    assert a == s[lo..|s|];
    OccursInSlice(s, Closer, lo, |s|, n);
  }

  /** What a successful strip of a fenced reply returns: the text that
      starts right after the FIRST opener "```json\n" and stops at a
      closing fence or at the end of the reply, whichever comes first. */
  lemma StripShape(reply: string)
    requires Contains(reply, Opener)
    ensures StripFence(reply).Success?
    ensures var i := Find(reply, Opener).value;
            var body := StripFence(reply).value;
            var end := i + |Opener| + |body|;
            && end <= |reply|
            && reply[i + |Opener|..end] == body
            && !Contains(body, Closer)
            && (end == |reply| || OccursAt(reply, Closer, end))
  {
    ContainsPrefix(reply, Opener, Marker);
    StripFormula(reply);
    var lo := Find(reply, Opener).value + |Opener|;
    KeptSlice(reply, lo);
  }

  /** No opener starts inside a prefix `p` that does not contain one, when
      an opener follows `p`: the opener's only newline is its last
      character, so an opener straddling the border would need a newline
      inside the following opener. */
  lemma NoEarlierOpener(p: string, rest: string, j: int)
    requires !Contains(p, Opener)
    requires 0 <= j < |p|
    ensures !OccursAt(p + Opener + rest, Opener, j)
  {
    var s := p + Opener + rest;
    if j + |Opener| <= |p| {
      assert !OccursAt(p, Opener, j);
      assert s[j..j + |Opener|] == p[j..j + |Opener|];
    } else if j + |Opener| <= |s| {
      assert s[j..j + |Opener|][7] == s[j + 7] == Opener[j + 7 - |p|];
    }
  }

  /** The first opener of `p + Opener + rest` is the one after `p` when `p`
      holds none. */
  lemma FirstOpener(p: string, rest: string)
    requires !Contains(p, Opener)
    ensures Find(p + Opener + rest, Opener) == Some(|p|)
  {
    var s := p + Opener + rest;
    assert s[|p|..|p| + |Opener|] == Opener;
    forall j | 0 <= j < |p| ensures !OccursAt(s, Opener, j) {
      NoEarlierOpener(p, rest, j);
    }
    FindFirst(s, Opener, |p|);
  }

  /** No closing fence starts inside `b` when `b` has none and does not end
      with a backtick. */
  lemma NoEarlierCloser(b: string, rest: string, m: int)
    requires !Contains(b, Closer)
    requires b == [] || b[|b| - 1] != '`'
    requires 0 <= m < |b|
    ensures !OccursAt(b + rest, Closer, m)
  {
    var s := b + rest;
    if m + |Closer| <= |b| {
      assert !OccursAt(b, Closer, m);
      assert s[m..m + |Closer|] == b[m..m + |Closer|];
    } else if m + |Closer| <= |s| {
      assert s[m..m + |Closer|][|b| - 1 - m] == s[|b| - 1] == b[|b| - 1];
    }
  }

  /** The first closing fence of `b + Closer + t` is the one after `b`. */
  lemma FirstCloser(b: string, t: string)
    requires !Contains(b, Closer)
    requires b == [] || b[|b| - 1] != '`'
    ensures Find(b + Closer + t, Closer) == Some(|b|)
  {
    var s := b + Closer + t;
    assert s[|b|..|b| + |Closer|] == Closer;
    forall m | 0 <= m < |b| ensures !OccursAt(s, Closer, m) {
      NoEarlierCloser(b, Closer + t, m);
      assert s == b + (Closer + t);
    }
    FindFirst(s, Closer, |b|);
  }

  /** A piece of `a` that is cut after a closing fence at `n`, with no
      closing fence before `n`, keeps exactly `a[..n]`. */
  lemma CutAfterCloser(a: string, n: nat, k: nat)
    requires Find(a, Closer) == Some(n)
    requires n + |Closer| <= k <= |a|
    ensures Split(a[..k], Closer)[0] == a[..n]
  {
    var piece := a[..k];
    OccursWithinSlice(a, Closer, 0, k, n);
    assert piece == a[0..k];
    forall m | 0 <= m < n ensures !OccursAt(piece, Closer, m) {
      OccursInSlice(a, Closer, 0, k, m);
    }
    FindFirst(piece, Closer, n);
    assert piece[..n] == a[..n];
  }

  /** An opener cannot start one or two characters into the closing fence
      that follows `b` unless the trailer completes it: only a trailer
      starting with "`json\n" or "``json\n" does. */
  lemma NoOpenerInsideCloser(b: string, t: string, k: int)
    requires !("`json\n" <= t) && !("``json\n" <= t)
    ensures |b| < k < |b| + |Closer| ==> !OccursAt(b + Closer + t, Opener, k)
  {
    var a := b + Closer + t;
    if k == |b| + 1 && k + |Opener| <= |a| {
      assert a[k..k + |Opener|][2..] == t[..6];
      assert Opener[2..] == "`json\n";
    } else if k == |b| + 2 && k + |Opener| <= |a| {
      assert a[k..k + |Opener|][1..] == t[..7];
      assert Opener[1..] == "``json\n";
    }
  }

  /** After the opener, a body `b` followed by the closing fence and a
      trailer `t` that does not complete an opener across the closing fence
      keeps exactly `b`. */
  lemma KeptBody(b: string, t: string)
    requires !Contains(b, Closer)
    requires b == [] || b[|b| - 1] != '`'
    requires !("`json\n" <= t) && !("``json\n" <= t)
    ensures Split(Split(b + Closer + t, Opener)[0], Closer)[0] == b
  {
    var a := b + Closer + t;
    FirstCloser(b, t);
    assert a[..|b|] == b;
    match Find(a, Opener)
    case None =>
      CutAfterCloser(a, |b|, |a|);
      assert a[..|a|] == a;
    case Some(k) =>
      PrefixOccurs(a, Opener, Closer, k);
      NoOpenerInsideCloser(b, t, k);
      if k >= |b| + |Closer| {
        CutAfterCloser(a, |b|, k);
      }
  }

  /** The usual fenced reply: a preamble `p` without an opener, the opener,
      a body `b`, the closing fence and a trailer `t` strip to exactly `b`,
      provided `b` holds no closing fence of its own, does not end with a
      backtick, and `t` does not start with "`json\n" or "``json\n" (which
      would turn the closing fence's last backticks into an opener). */
  lemma StripFencedBlock(p: string, b: string, t: string)
    requires !Contains(p, Opener)
    requires !Contains(b, Closer)
    requires b == [] || b[|b| - 1] != '`'
    requires !("`json\n" <= t) && !("``json\n" <= t)
    ensures StripFence(p + Opener + b + Closer + t) == Success(b)
  {
    var reply := p + Opener + b + Closer + t;
    var a := b + Closer + t;
    assert reply == p + Opener + a;
    FirstOpener(p, a);
    assert reply[|p| + |Opener|..] == a;
    StripFormula(reply);
    KeptBody(b, t);
  }

  /** A reply whose opener is never closed strips to everything after the
      opener. */
  lemma StripUnclosed(p: string, b: string)
    requires !Contains(p, Opener)
    requires !Contains(b, Closer)
    ensures StripFence(p + Opener + b) == Success(b)
  {
    var reply := p + Opener + b;
    FirstOpener(p, b);
    assert reply[|p| + |Opener|..] == b;
    StripFormula(reply);
    ContainsPrefix(b, Opener, Closer);
  }
}
