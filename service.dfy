/** The `/api/extract` endpoint of main.py:147-179: up to ten uploaded
    PDF invoices in, one reshaped row per decoded invoice out. */
module Service {
  import opened Wrappers
  import opened Schema
  import opened Pipeline
  import opened FrameIndex

  /** The endpoint's answer: the rows of `to_dict(orient='records')`, or an
      `HTTPException` with its status and detail. */
  datatype Response =
    | Ok(rows: seq<Row>)
    | BadRequest(detail: string)
    | ServerError(detail: string)

  const MaxFiles := 10
  const PdfType := "application/pdf"
  const LimitMessage := "You can only upload a maximum of 10 files at a time."
  const NoDataMessage := "No data could be extracted from the provided files."

  function NotPdfMessage(filename: string): (m: string) {
    "File '" + filename + "' is not a PDF."
  }

  /** One file as the endpoint handles it (main.py:154-171): the media type
      is checked before anything is read. */
  function Screen(f: Upload, extract: seq<byte> -> Result<string, string>,
                     complete: string -> Result<string, string>,
                     decode: string -> Option<Record>): (a: Attempt)
    ensures a.NotPdf? <==> f.contentType != PdfType
    ensures !a.NotPdf? ==> a == Process(f, extract, complete, decode)
  {
    if f.contentType != PdfType then NotPdf else Process(f, extract, complete, decode)
  }

  function Screened(files: seq<Upload>, extract: seq<byte> -> Result<string, string>,
                       complete: string -> Result<string, string>,
                       decode: string -> Option<Record>): (a: seq<Attempt>)
    ensures |a| == |files|
    ensures forall i :: 0 <= i < |files| ==> a[i] == Screen(files[i], extract, complete, decode)
  {
    seq(|files|, i requires 0 <= i < |files| => Screen(files[i], extract, complete, decode))
  }

  /** The exception a fatal outcome of file `f` raises. */
  function ErrorOf(f: Upload, a: Attempt): (r: Response)
    requires a.Fatal()
    ensures r.BadRequest? <==> a.NotPdf?
    ensures r.ServerError? <==> a.ExtractFailed? || a.CompletionFailed?
  {
    match a
    case NotPdf => BadRequest(NotPdfMessage(f.filename))
    case ExtractFailed(e) => ServerError("Error processing PDF: " + e)
    case CompletionFailed(e) => ServerError("Error calling OpenAI API: " + e)
  }

  /** The answer once the batch has run to its end with `kept` records. */
  function Finish(kept: seq<Record>): (r: Response)
    ensures r.Ok? <==> kept != []
    ensures r.Ok? ==> |r.rows| == |kept|
    ensures !r.Ok? ==> r == BadRequest(NoDataMessage)
  {
    if kept == [] then BadRequest(NoDataMessage) else Ok(Transform(kept))
  }

  /** The same answer with the rows as pandas builds them (main.py:176-179):
      rows are answered exactly when records were collected, and then
      either none or one per record. */
  function FinishAsWritten(kept: seq<Record>): (r: Response)
    ensures r.Ok? <==> kept != []
    ensures r.Ok? ==> r.rows == [] || |r.rows| == |kept|
    ensures !r.Ok? ==> r == BadRequest(NoDataMessage)
  {
    if kept == [] then BadRequest(NoDataMessage) else Ok(PandasTransform(kept))
  }

  /** Replies that all decode to `{}`: as written, the endpoint answers
      `200 OK` with no rows, while `Finish` answers one row per record. */
  lemma EmptyRepliesAsWritten(kept: seq<Record>)
    requires kept != []
    requires forall k :: 0 <= k < |kept| ==> kept[k] == map[]
    ensures FinishAsWritten(kept) == Ok([])
    ensures Finish(kept).Ok? && |Finish(kept).rows| == |kept| > 0
  {
    EmptyRecordsNoRows(kept);
  }

  /** The rest of the batch, `files`, run with the records `acc` already
      collected: each file either aborts the batch, is kept, or is skipped. */
  function Run(files: seq<Upload>, extract: seq<byte> -> Result<string, string>,
                  complete: string -> Result<string, string>,
                  decode: string -> Option<Record>,
                  acc: seq<Record>): (r: Response)
    decreases |files|
    ensures r.Ok? ==> 0 < |r.rows| <= |acc| + |files|
  {
    if files == [] then Finish(acc)
    else
      var a := Screen(files[0], extract, complete, decode);
      if a.Fatal() then ErrorOf(files[0], a)
      else Run(files[1..], extract, complete, decode, if a.Parsed? then acc + [a.record] else acc)
  }

  /** The endpoint as a function of its inputs. */
  function Endpoint(files: seq<Upload>, extract: seq<byte> -> Result<string, string>,
                  complete: string -> Result<string, string>,
                  decode: string -> Option<Record>): (r: Response)
    ensures |files| > MaxFiles ==> r == BadRequest(LimitMessage)
    ensures r.Ok? ==> 0 < |r.rows| <= |files| <= MaxFiles
  {
    if |files| > MaxFiles then BadRequest(LimitMessage) else Run(files, extract, complete, decode, [])
  }

  /** The batch, read as a whole: the first file in upload order that
      aborts decides the answer; without one, the answer is made of the
      records collected before plus those of every decoded file. */
  function Outcome(files: seq<Upload>, extract: seq<byte> -> Result<string, string>,
                      complete: string -> Result<string, string>,
                      decode: string -> Option<Record>,
                      acc: seq<Record>): (r: Response)
  {
    var a := Screened(files, extract, complete, decode);
    match FirstFatal(a)
    case Some(i) => ErrorOf(files[i], a[i])
    case None => Finish(acc + Kept(a))
  }

  /** A first file that does not abort hands the batch on to the rest. */
  lemma OutcomeCons(files: seq<Upload>, extract: seq<byte> -> Result<string, string>,
                      complete: string -> Result<string, string>,
                      decode: string -> Option<Record>,
                       acc: seq<Record>)
    requires files != [] && !Screen(files[0], extract, complete, decode).Fatal()
    ensures var a0 := Screen(files[0], extract, complete, decode);
            Outcome(files, extract, complete, decode, acc) ==
              Outcome(files[1..], extract, complete, decode, if a0.Parsed? then acc + [a0.record] else acc)
  {
    var a := Screened(files, extract, complete, decode);
    var b := Screened(files[1..], extract, complete, decode);
    assert b == a[1..];
    FirstFatalCons(a);
    KeptCons(a);
    var acc' := if a[0].Parsed? then acc + [a[0].record] else acc;
    assert acc' + Kept(b) == acc + Kept(a);
    if FirstFatal(b).Some? {
      assert files[FirstFatal(b).value + 1] == files[1..][FirstFatal(b).value];
    }
  }

  /** The loop-shaped run and the whole-batch reading agree. */
  lemma {:induction false} RunSpec(files: seq<Upload>, extract: seq<byte> -> Result<string, string>,
                      complete: string -> Result<string, string>,
                      decode: string -> Option<Record>,
                                      acc: seq<Record>)
    decreases |files|
    ensures Run(files, extract, complete, decode, acc) == Outcome(files, extract, complete, decode, acc)
  {
    if files == [] {
      assert acc + Kept(Screened(files, extract, complete, decode)) == acc;
    } else if Screen(files[0], extract, complete, decode).Fatal() {
      FirstFatalAt(Screened(files, extract, complete, decode), 0);
    } else {
      var a0 := Screen(files[0], extract, complete, decode);
      RunSpec(files[1..], extract, complete, decode, if a0.Parsed? then acc + [a0.record] else acc);
      OutcomeCons(files, extract, complete, decode, acc);
    }
  }

  /** `extract_data_from_pdfs`: the loop over the uploads, stopping at the
      first file that raises, skipping replies that do not parse. */
  method ExtractDataFromPdfs(files: seq<Upload>, extract: seq<byte> -> Result<string, string>,
                                complete: string -> Result<string, string>,
                                decode: string -> Option<Record>) returns (resp: Response)
    ensures resp == Endpoint(files, extract, complete, decode)
  {
    if |files| > MaxFiles {
      return BadRequest(LimitMessage);
    }
    var allData: seq<Record> := [];
    var i := 0;
    while i < |files|
      invariant 0 <= i <= |files|
      invariant Run(files[i..], extract, complete, decode, allData) == Run(files, extract, complete, decode, [])
    {
      var file := files[i];
      assert files[i..][0] == file && files[i..][1..] == files[i + 1..];
      if file.contentType != PdfType {
        return BadRequest(NotPdfMessage(file.filename));
      }
      var text := extract(file.content);
      if text.Failure? {
        return ServerError("Error processing PDF: " + text.error);
      }
      var reply := complete(text.value);
      if reply.Failure? {
        return ServerError("Error calling OpenAI API: " + reply.error);
      }
      var parsed := ParseReply(reply.value, decode);
      if parsed.Success? {
        allData := allData + [parsed.value];
      }
      i := i + 1;
    }
    assert files[|files|..] == [];
    if allData == [] {
      return BadRequest(NoDataMessage);
    }
    resp := Ok(Transform(allData));
  }

  /** More than ten files are refused before any of them is read. */
  lemma TooManyFiles(files: seq<Upload>, extract: seq<byte> -> Result<string, string>,
                        complete: string -> Result<string, string>,
                        decode: string -> Option<Record>)
    requires |files| > MaxFiles
    ensures Endpoint(files, extract, complete, decode) == BadRequest(LimitMessage)
  {
  }

  /** A file that is not a PDF, preceded only by files that did not abort
      the batch, is reported by name whatever comes after it. */
  lemma NotPdfReported(files: seq<Upload>, i: nat, extract: seq<byte> -> Result<string, string>,
                          complete: string -> Result<string, string>,
                          decode: string -> Option<Record>)
    requires |files| <= MaxFiles && i < |files| && files[i].contentType != PdfType
    requires forall j :: 0 <= j < i ==> !Screen(files[j], extract, complete, decode).Fatal()
    ensures Endpoint(files, extract, complete, decode) == BadRequest(NotPdfMessage(files[i].filename))
  {
    FirstFatalAt(Screened(files, extract, complete, decode), i);
    RunSpec(files, extract, complete, decode, []);
  }

  /** The first file that aborts the batch decides the answer, whatever
      the files after it are. */
  lemma FirstFatalDecides(files: seq<Upload>, extract: seq<byte> -> Result<string, string>,
                             complete: string -> Result<string, string>,
                             decode: string -> Option<Record>)
    requires |files| <= MaxFiles
    ensures var a := Screened(files, extract, complete, decode);
            FirstFatal(a).Some? ==>
              var i := FirstFatal(a).value;
              && Endpoint(files, extract, complete, decode) == ErrorOf(files[i], a[i])
              && (Endpoint(files, extract, complete, decode).BadRequest? <==> files[i].contentType != PdfType)
  {
    RunSpec(files, extract, complete, decode, []);
  }

  /** When no file aborts the batch, the endpoint answers with one row per
      decoded file, in upload order, each the reshaped record, and refuses
      with "No data" exactly when no file decoded. */
  lemma NoFatalOutcome(files: seq<Upload>, extract: seq<byte> -> Result<string, string>,
                          complete: string -> Result<string, string>,
                          decode: string -> Option<Record>)
    requires |files| <= MaxFiles
    requires forall j :: 0 <= j < |files| ==> !Screen(files[j], extract, complete, decode).Fatal()
    ensures var a := Screened(files, extract, complete, decode);
            var resp := Endpoint(files, extract, complete, decode);
            && (resp == BadRequest(NoDataMessage) <==> forall j :: 0 <= j < |files| ==> !a[j].Parsed?)
            && (resp.Ok? <==> exists j :: 0 <= j < |files| && a[j].Parsed?)
            && (resp.Ok? ==> resp.rows == Transform(Kept(a)))
  {
    var a := Screened(files, extract, complete, decode);
    KeptEmpty(a);
    RunSpec(files, extract, complete, decode, []);
    assert [] + Kept(a) == Kept(a);
  }

  /** A successful answer has between one and ten rows, one per decoded
      file, and every row is the reshaped record of the file it comes
      from, under the 34-name header. */
  lemma OkRows(files: seq<Upload>, extract: seq<byte> -> Result<string, string>,
                  complete: string -> Result<string, string>,
                  decode: string -> Option<Record>)
    ensures var resp := Endpoint(files, extract, complete, decode);
            var a := Screened(files, extract, complete, decode);
            resp.Ok? ==>
              && 1 <= |resp.rows| <= MaxFiles
              && |resp.rows| == |KeptIndices(a)|
              && forall i :: 0 <= i < |resp.rows| ==>
                   && i < |KeptIndices(a)| && KeptIndices(a)[i] < |a|
                   && a[KeptIndices(a)[i]].Parsed?
                   && resp.rows[i] == Reshape(a[KeptIndices(a)[i]].record)
                   && |resp.rows[i]| == |Header|
  {
    var a := Screened(files, extract, complete, decode);
    KeptSpec(a);
    RunSpec(files, extract, complete, decode, []);
    assert [] + Kept(a) == Kept(a);
    var resp := Endpoint(files, extract, complete, decode);
    if resp.Ok? {
      forall i | 0 <= i < |resp.rows| ensures |resp.rows[i]| == |Header| {
        ReshapeHeader(Kept(a)[i]);
      }
    }
  }
}
