/** What both front ends do with one uploaded file (main.py:153-171 and
    app.py:88-110): extract its text, ask the language model for the
    fields, strip a Markdown fence from the reply and decode it as JSON.

    Text extraction, the model call and `json.loads` are outside this
    model; they enter as functions passed in, so every property below
    holds for every extractor, every model and every decoder. */
module Pipeline {
  import opened Wrappers
  import opened Text
  import opened Fence
  import opened Schema

  newtype byte = x: int | 0 <= x < 256

  /** An uploaded file: its name, its declared media type and its bytes. */
  datatype Upload = Upload(filename: string, contentType: string, content: seq<byte>)

  /** How the handling of one file ended.  `Unparsed` carries the text the
      application shows as the raw reply; `Parsed` the decoded record. */
  datatype Attempt =
    | NotPdf
    | ExtractFailed(error: string)
    | CompletionFailed(error: string)
    | Unparsed(shown: string)
    | Parsed(record: Record)
  {
    /** The outcomes that abort the whole batch. */
    predicate Fatal() {
      NotPdf? || ExtractFailed? || CompletionFailed?
    }
  }

  /** The `try` block of main.py:161-166: strip a fence when the reply
      mentions one, then decode.  A failure carries the text that was being
      parsed when the exception was raised: the reply itself when the
      split raised `IndexError`, the stripped text when decoding failed. */
  function ParseReply(reply: string, decode: string -> Option<Record>): (r: Result<Record, string>)
    ensures r.Success? ==> StripFence(reply).Success? && decode(StripFence(reply).value) == Some(r.value)
    ensures r.Failure? <==> StripFence(reply).Failure? || decode(StripFence(reply).value).None?
    ensures r.Failure? ==> r.error == (if StripFence(reply).Failure? then reply else StripFence(reply).value)
  {
    match StripFence(reply)
    case Failure(_) => Failure(reply)
    case Success(body) =>
      match decode(body)
      case None => Failure(body)
      case Some(rec) => Success(rec)
  }

  /** A reply without a fence marker is decoded as it stands. */
  lemma ParseBare(reply: string, decode: string -> Option<Record>)
    requires !Contains(reply, Marker)
    ensures decode(reply).Some? ==> ParseReply(reply, decode) == Success(decode(reply).value)
    ensures decode(reply).None? ==> ParseReply(reply, decode) == Failure(reply)
  {
  }

  /** A reply that mentions "```json" without the newline after it fails
      with the reply itself, whatever the decoder. */
  lemma ParseBrokenFence(reply: string, decode: string -> Option<Record>)
    requires Contains(reply, Marker) && !Contains(reply, Opener)
    ensures ParseReply(reply, decode) == Failure(reply)
  {
  }

  /** Wrapping a JSON text in a fenced block, with any prose before and
      after it, parses exactly as the bare text does. */
  lemma FencedParsesLikeBare(p: string, b: string, t: string, decode: string -> Option<Record>)
    requires !Contains(p, Opener) && !Contains(b, Closer)
    requires b == [] || b[|b| - 1] != '`'
    requires !("`json\n" <= t) && !("``json\n" <= t)
    ensures ParseReply(p + Opener + b + Closer + t, decode) == ParseReply(b, decode)
  {
    StripFencedBlock(p, b, t);
    ContainsPrefix(b, Marker, Closer);
  }

  /** One file after its media type is accepted: extract, ask, parse. */
  function Process(f: Upload, extract: seq<byte> -> Result<string, string>,
                      complete: string -> Result<string, string>,
                      decode: string -> Option<Record>): (a: Attempt)
    ensures !a.NotPdf?
    ensures a.ExtractFailed? <==> extract(f.content).Failure?
    ensures a.CompletionFailed? <==> extract(f.content).Success? && complete(extract(f.content).value).Failure?
    ensures a.Parsed? ==>
              && extract(f.content).Success? && complete(extract(f.content).value).Success?
              && ParseReply(complete(extract(f.content).value).value, decode) == Success(a.record)
    ensures a.Unparsed? ==>
              && extract(f.content).Success? && complete(extract(f.content).value).Success?
              && ParseReply(complete(extract(f.content).value).value, decode) == Failure(a.shown)
  {
    match extract(f.content)
    case Failure(e) => ExtractFailed(e)
    case Success(text) =>
      match complete(text)
      case Failure(e) => CompletionFailed(e)
      case Success(reply) =>
        match ParseReply(reply, decode)
        case Failure(shown) => Unparsed(shown)
        case Success(rec) => Parsed(rec)
  }

  /** The first fatal outcome at or after `from`, if any. */
  function FirstFatalFrom(a: seq<Attempt>, from: nat): (r: Option<nat>)
    requires from <= |a|
    ensures r.Some? ==> from <= r.value < |a| && a[r.value].Fatal()
    ensures r.Some? ==> forall j :: from <= j < r.value ==> !a[j].Fatal()
    ensures r.None? ==> forall j :: from <= j < |a| ==> !a[j].Fatal()
    decreases |a| - from
  {
    if from == |a| then None
    else if a[from].Fatal() then Some(from)
    else FirstFatalFrom(a, from + 1)
  }

  /** The file whose failure aborts the batch. */
  function FirstFatal(a: seq<Attempt>): (r: Option<nat>)
    ensures r.Some? ==> r.value < |a| && a[r.value].Fatal()
    ensures r.Some? ==> forall j :: 0 <= j < r.value ==> !a[j].Fatal()
    ensures r.None? ==> forall j :: 0 <= j < |a| ==> !a[j].Fatal()
  {
    FirstFatalFrom(a, 0)
  }

  /** A fatal outcome preceded only by non-fatal ones is the first. */
  lemma FirstFatalAt(a: seq<Attempt>, i: nat)
    requires i < |a| && a[i].Fatal()
    requires forall j :: 0 <= j < i ==> !a[j].Fatal()
    ensures FirstFatal(a) == Some(i)
  {
  }

  /** `all_data`: the decoded records, in upload order. */
  function Kept(a: seq<Attempt>): (r: seq<Record>)
    decreases |a|
    ensures |r| <= |a|
  {
    if a == [] then []
    else
      var last := a[|a| - 1];
      Kept(a[..|a| - 1]) + (if last.Parsed? then [last.record] else [])
  }

  /** The positions of the decoded files, in upload order. */
  function KeptIndices(a: seq<Attempt>): (ix: seq<nat>)
    decreases |a|
  {
    if a == [] then []
    else KeptIndices(a[..|a| - 1]) + (if a[|a| - 1].Parsed? then [|a| - 1] else [])
  }

  /** The records kept are exactly those of the decoded files, once each,
      in upload order: the `i`-th kept record is that of file
      `KeptIndices(a)[i]`, the positions increase strictly, and every
      decoded file's position is among them. */
  lemma {:induction false} KeptSpec(a: seq<Attempt>)
    decreases |a|
    ensures |KeptIndices(a)| == |Kept(a)| <= |a|
    ensures forall i :: 0 <= i < |Kept(a)| ==>
              KeptIndices(a)[i] < |a| && a[KeptIndices(a)[i]] == Parsed(Kept(a)[i])
    ensures forall i, j :: 0 <= i < j < |KeptIndices(a)| ==> KeptIndices(a)[i] < KeptIndices(a)[j]
    ensures forall j :: 0 <= j < |a| && a[j].Parsed? ==> j in KeptIndices(a)
  {
    if a != [] {
      var init := a[..|a| - 1];
      KeptSpec(init);
      assert forall j :: 0 <= j < |init| ==> init[j] == a[j];
    }
  }

  /** Nothing is kept exactly when no file was decoded. */
  lemma KeptEmpty(a: seq<Attempt>)
    ensures Kept(a) == [] <==> forall j :: 0 <= j < |a| ==> !a[j].Parsed?
  {
    KeptSpec(a);
    if Kept(a) != [] {
      assert a[KeptIndices(a)[0]].Parsed?;
    }
  }

  /** Keeping, read from the front: the first file's record, if decoded,
      then the records kept from the rest. */
  lemma {:induction false} KeptCons(a: seq<Attempt>)
    requires a != []
    decreases |a|
    ensures Kept(a) == (if a[0].Parsed? then [a[0].record] else []) + Kept(a[1..])
  {
    if |a| > 1 {
      var init := a[..|a| - 1];
      KeptCons(init);
      assert init[1..] == a[1..][..|a[1..]| - 1];
      assert init[0] == a[0];
      assert a[1..][|a[1..]| - 1] == a[|a| - 1];
    } else {
      assert a[1..] == [];
      assert a[..0] == [];
    }
  }

  /** With a first file that does not abort, the first fatal file is found
      among the rest, one position further on. */
  lemma FirstFatalCons(a: seq<Attempt>)
    requires a != [] && !a[0].Fatal()
    ensures FirstFatal(a[1..]).None? ==> FirstFatal(a).None?
    ensures FirstFatal(a[1..]).Some? ==> FirstFatal(a) == Some(FirstFatal(a[1..]).value + 1)
  {
    var r := FirstFatal(a[1..]);
    if r.Some? {
      assert a[r.value + 1] == a[1..][r.value];
      forall j | 0 <= j < r.value + 1 ensures !a[j].Fatal() {
        if j > 0 {
          assert a[j] == a[1..][j - 1];
        }
      }
      FirstFatalAt(a, r.value + 1);
    } else {
      assert forall j :: 0 < j < |a| ==> a[j] == a[1..][j - 1];
    }
  }
}
