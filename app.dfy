/** The Streamlit page of app.py:69-184: the same batch as the service,
    drawn as a sequence of page elements.  Unlike the service, the page
    reports each reply it cannot parse, lets an extraction or model error
    escape (ending the run), and indexes the frame strictly, so that a key
    no record carries raises `KeyError`. */
module App {
  import opened Wrappers
  import opened Schema
  import opened Frame
  import opened Pipeline
  import Service

  /** One element written to the page, in the order the script writes it. */
  datatype Widget =
    | Info(text: string)
    | ErrorBox(text: string)
    | ParseErrorBox(filename: string)
    | RawResponse(caption: string, text: string)
    | SuccessBox(text: string)
    | Table(columns: seq<Series>)
    | CsvDownload(caption: string, fileName: string, columns: seq<Series>)

  /** An exception that escapes `main()` and ends the script run. */
  datatype Crash =
    | ExtractCrash(error: string)
    | CompletionCrash(error: string)
    | MissingColumn(key: string)

  /** What one run of the script leaves: the elements written before it
      ended, and the exception that ended it, if any. */
  datatype Page = Page(widgets: seq<Widget>, crash: Option<Crash>)

  const MaxFiles := 10
  const LimitMessage := "You can only upload a maximum of 10 files at a time."
  const SuccessMessage := "Successfully extracted data from all files!"
  const ResponseLabel := "LLM Response"
  const DownloadLabel := "Download data as CSV"
  const DownloadName := "extracted_data.csv"

  function ProcessingMessage(filename: string): (m: string) {
    "Processing `" + filename + "`..."
  }

  /** Elements written in front of the rest of a run. */
  function Prepend(w: seq<Widget>, p: Page): (r: Page)
    ensures r.crash == p.crash && |r.widgets| == |w| + |p.widgets|
    ensures r.widgets[..|w|] == w && r.widgets[|w|..] == p.widgets
  {
    Page(w + p.widgets, p.crash)
  }

  /** The elements one file adds when it does not end the run. */
  function FileWidgets(f: Upload, a: Attempt): (w: seq<Widget>)
    ensures |w| == (if a.Unparsed? then 3 else 1)
    ensures w[0] == Info(ProcessingMessage(f.filename))
    ensures a.Unparsed? ==> w[1..] == [ParseErrorBox(f.filename), RawResponse(ResponseLabel, a.shown)]
  {
    [Info(ProcessingMessage(f.filename))] +
    (if a.Unparsed? then [ParseErrorBox(f.filename), RawResponse(ResponseLabel, a.shown)] else [])
  }

  /** The exception an extraction or model failure raises. */
  function CrashOf(a: Attempt): (c: Crash)
    requires a.ExtractFailed? || a.CompletionFailed?
  {
    if a.ExtractFailed? then ExtractCrash(a.error) else CompletionCrash(a.error)
  }

  /** app.py:112-184: the table, once all files are handled. */
  function Finish(kept: seq<Record>): (p: Page)
    ensures kept == [] ==> p == Page([], None)
    ensures p.crash.Some? ==> p.crash.value.MissingColumn? && !HasColumn(RenameFrame(kept), p.crash.value.key)
    ensures p.crash.None? && kept != [] ==> |p.widgets| == 3 && p.widgets[0] == SuccessBox(SuccessMessage)
  {
    if kept == [] then Page([], None)
    else
      match StrictProject(RenameFrame(kept))
      case Failure(e) => Page([], Some(MissingColumn(e.key)))
      case Success(cols) =>
        Page([SuccessBox(SuccessMessage), Table(cols), CsvDownload(DownloadLabel, DownloadName, cols)], None)
  }

  /** The rest of the file loop of app.py:88-110, with the records `acc`
      already collected. */
  function Run(files: seq<Upload>, extract: seq<byte> -> Result<string, string>,
                  complete: string -> Result<string, string>,
                  decode: string -> Option<Record>, acc: seq<Record>): (p: Page)
    decreases |files|
    ensures files != [] ==> p.widgets != [] && p.widgets[0] == Info(ProcessingMessage(files[0].filename))
  {
    if files == [] then Finish(acc)
    else
      var f := files[0];
      var a := Process(f, extract, complete, decode);
      if a.ExtractFailed? || a.CompletionFailed? then Page([Info(ProcessingMessage(f.filename))], Some(CrashOf(a)))
      else Prepend(FileWidgets(f, a), Run(files[1..], extract, complete, decode, if a.Parsed? then acc + [a.record] else acc))
  }

  /** `main()` as a function of the uploads. */
  function MainPage(files: seq<Upload>, extract: seq<byte> -> Result<string, string>,
                       complete: string -> Result<string, string>,
                       decode: string -> Option<Record>): (p: Page)
    ensures |files| > MaxFiles ==> p == Page([ErrorBox(LimitMessage)], None)
    ensures 0 < |files| <= MaxFiles ==> p.widgets != [] && p.widgets[0] == Info(ProcessingMessage(files[0].filename))
  {
    if files == [] then Page([], None)
    else if |files| > MaxFiles then Page([ErrorBox(LimitMessage)], None)
    else Run(files, extract, complete, decode, [])
  }

  /** How `Process` ends, read off the three steps the loop body takes. */
  lemma ProcessSteps(f: Upload, extract: seq<byte> -> Result<string, string>,
                    complete: string -> Result<string, string>,
                    decode: string -> Option<Record>)
    ensures var a := Process(f, extract, complete, decode);
            var text := extract(f.content);
            && (text.Failure? ==> a == ExtractFailed(text.error))
            && (text.Success? && complete(text.value).Failure? ==> a == CompletionFailed(complete(text.value).error))
            && (text.Success? && complete(text.value).Success? ==>
                  var parsed := ParseReply(complete(text.value).value, decode);
                  a == if parsed.Success? then Parsed(parsed.value) else Unparsed(parsed.error))
  {
  }

  /** One turn of the file loop, from position `i`. */
  lemma RunAt(files: seq<Upload>, i: nat, extract: seq<byte> -> Result<string, string>,
                    complete: string -> Result<string, string>,
                    decode: string -> Option<Record>, acc: seq<Record>)
    requires i < |files|
    ensures var f := files[i];
            var a := Process(f, extract, complete, decode);
            Run(files[i..], extract, complete, decode, acc) ==
              if a.ExtractFailed? || a.CompletionFailed? then Page([Info(ProcessingMessage(f.filename))], Some(CrashOf(a)))
              else Prepend(FileWidgets(f, a), Run(files[i + 1..], extract, complete, decode, if a.Parsed? then acc + [a.record] else acc))
  {
    assert files[i..][0] == files[i] && files[i..][1..] == files[i + 1..];
  }

  lemma PrependTwice(w: seq<Widget>, h: seq<Widget>, p: Page)
    ensures Prepend(w + h, p) == Prepend(w, Prepend(h, p))
  {
    assert (w + h) + p.widgets == w + (h + p.widgets);
  }

  /** The outcome of every upload, in upload order. */
  function Attempts(files: seq<Upload>, extract: seq<byte> -> Result<string, string>,
                       complete: string -> Result<string, string>,
                       decode: string -> Option<Record>): (a: seq<Attempt>)
    ensures |a| == |files|
    ensures forall i :: 0 <= i < |files| ==> a[i] == Process(files[i], extract, complete, decode)
  {
    seq(|files|, i requires 0 <= i < |files| => Process(files[i], extract, complete, decode))
  }

  /** The elements the files write, one after the other, when none of
      them ends the run. */
  function Log(files: seq<Upload>, extract: seq<byte> -> Result<string, string>,
                  complete: string -> Result<string, string>,
                  decode: string -> Option<Record>): (w: seq<Widget>)
    decreases |files|
  {
    if files == [] then []
    else FileWidgets(files[0], Process(files[0], extract, complete, decode)) + Log(files[1..], extract, complete, decode)
  }

  /** The run read as a whole: the first file whose extraction or model
      call fails ends it after its "Processing" line; without one, every
      file's elements are followed by the table of all collected records. */
  function Outcome(files: seq<Upload>, extract: seq<byte> -> Result<string, string>,
                      complete: string -> Result<string, string>,
                      decode: string -> Option<Record>, acc: seq<Record>): (p: Page)
  {
    var a := Attempts(files, extract, complete, decode);
    match FirstFatal(a)
    case Some(i) =>
      Page(Log(files[..i], extract, complete, decode) + [Info(ProcessingMessage(files[i].filename))], Some(CrashOf(a[i])))
    case None => Prepend(Log(files, extract, complete, decode), Finish(acc + Kept(a)))
  }

  /** The elements of two batches of files, one after the other. */
  lemma {:induction false} LogAppend(s: seq<Upload>, t: seq<Upload>, extract: seq<byte> -> Result<string, string>,
                                        complete: string -> Result<string, string>,
                                        decode: string -> Option<Record>)
    decreases |s|
    ensures Log(s + t, extract, complete, decode) == Log(s, extract, complete, decode) + Log(t, extract, complete, decode)
  {
    if s == [] {
      assert s + t == t;
    } else {
      assert (s + t)[0] == s[0] && (s + t)[1..] == s[1..] + t;
      LogAppend(s[1..], t, extract, complete, decode);
    }
  }

  /** The whole-run reading when a file ends the run. */
  lemma OutcomeCrashed(files: seq<Upload>, extract: seq<byte> -> Result<string, string>,
                          complete: string -> Result<string, string>,
                          decode: string -> Option<Record>, acc: seq<Record>)
    requires FirstFatal(Attempts(files, extract, complete, decode)).Some?
    ensures var a := Attempts(files, extract, complete, decode);
            var i := FirstFatal(a).value;
            Outcome(files, extract, complete, decode, acc) ==
              Page(Log(files[..i], extract, complete, decode) + [Info(ProcessingMessage(files[i].filename))], Some(CrashOf(a[i])))
  {
  }

  /** The whole-run reading when no file ends the run. */
  lemma OutcomeComplete(files: seq<Upload>, extract: seq<byte> -> Result<string, string>,
                           complete: string -> Result<string, string>,
                           decode: string -> Option<Record>, acc: seq<Record>)
    requires FirstFatal(Attempts(files, extract, complete, decode)).None?
    ensures Outcome(files, extract, complete, decode, acc) ==
              Prepend(Log(files, extract, complete, decode), Finish(acc + Kept(Attempts(files, extract, complete, decode))))
  {
  }

  /** OutcomeComplete, with nothing collected before the first file. */
  lemma OutcomeFromStart(files: seq<Upload>, extract: seq<byte> -> Result<string, string>,
                            complete: string -> Result<string, string>,
                            decode: string -> Option<Record>)
    requires FirstFatal(Attempts(files, extract, complete, decode)).None?
    ensures Outcome(files, extract, complete, decode, []) ==
              Prepend(Log(files, extract, complete, decode), Finish(Kept(Attempts(files, extract, complete, decode))))
  {
    assert [] + Kept(Attempts(files, extract, complete, decode)) == Kept(Attempts(files, extract, complete, decode));
  }

  /** The outcomes of all files but the first. */
  lemma AttemptsTail(files: seq<Upload>, extract: seq<byte> -> Result<string, string>,
                        complete: string -> Result<string, string>,
                        decode: string -> Option<Record>)
    requires files != []
    ensures Attempts(files[1..], extract, complete, decode) == Attempts(files, extract, complete, decode)[1..]
  {
  }

  /** The elements of the first `i + 1` files, read from the front. */
  lemma LogHead(files: seq<Upload>, i: nat, extract: seq<byte> -> Result<string, string>,
                   complete: string -> Result<string, string>,
                   decode: string -> Option<Record>)
    requires i < |files|
    ensures Log(files[..i + 1], extract, complete, decode) ==
              FileWidgets(files[0], Process(files[0], extract, complete, decode)) + Log(files[1..][..i], extract, complete, decode)
  {
    assert files[..i + 1][0] == files[0] && files[..i + 1][1..] == files[1..][..i];
  }

  /** OutcomeCons, when a later file ends the run. */
  lemma OutcomeConsCrashed(files: seq<Upload>, extract: seq<byte> -> Result<string, string>,
                              complete: string -> Result<string, string>,
                              decode: string -> Option<Record>, acc: seq<Record>, acc': seq<Record>)
    requires files != [] && !Process(files[0], extract, complete, decode).Fatal()
    requires FirstFatal(Attempts(files[1..], extract, complete, decode)).Some?
    ensures Outcome(files, extract, complete, decode, acc) ==
              Prepend(FileWidgets(files[0], Process(files[0], extract, complete, decode)),
                      Outcome(files[1..], extract, complete, decode, acc'))
  {
    var a := Attempts(files, extract, complete, decode);
    var b := Attempts(files[1..], extract, complete, decode);
    AttemptsTail(files, extract, complete, decode);
    FirstFatalCons(a);
    var i := FirstFatal(b).value;
    OutcomeCrashed(files, extract, complete, decode, acc);
    OutcomeCrashed(files[1..], extract, complete, decode, acc');
    LogHead(files, i, extract, complete, decode);
    assert files[i + 1] == files[1..][i] && a[i + 1] == b[i];
    var w := FileWidgets(files[0], a[0]);
    var rest := Log(files[1..][..i], extract, complete, decode);
    var last := [Info(ProcessingMessage(files[i + 1].filename))];
    assert w + (rest + last) == (w + rest) + last;
  }

  /** OutcomeCons, when no later file ends the run. */
  lemma OutcomeConsComplete(files: seq<Upload>, extract: seq<byte> -> Result<string, string>,
                               complete: string -> Result<string, string>,
                               decode: string -> Option<Record>, acc: seq<Record>)
    requires files != [] && !Process(files[0], extract, complete, decode).Fatal()
    requires FirstFatal(Attempts(files[1..], extract, complete, decode)).None?
    ensures var a0 := Process(files[0], extract, complete, decode);
            Outcome(files, extract, complete, decode, acc) ==
              Prepend(FileWidgets(files[0], a0),
                      Outcome(files[1..], extract, complete, decode, if a0.Parsed? then acc + [a0.record] else acc))
  {
    var a := Attempts(files, extract, complete, decode);
    var b := Attempts(files[1..], extract, complete, decode);
    AttemptsTail(files, extract, complete, decode);
    FirstFatalCons(a);
    KeptCons(a);
    var acc' := if a[0].Parsed? then acc + [a[0].record] else acc;
    assert acc' + Kept(b) == acc + Kept(a);
    OutcomeComplete(files, extract, complete, decode, acc);
    OutcomeComplete(files[1..], extract, complete, decode, acc');
    PrependTwice(FileWidgets(files[0], a[0]), Log(files[1..], extract, complete, decode), Finish(acc' + Kept(b)));
  }

  /** A first file that does not end the run writes its elements in front
      of the run of the rest. */
  lemma OutcomeCons(files: seq<Upload>, extract: seq<byte> -> Result<string, string>,
                       complete: string -> Result<string, string>,
                       decode: string -> Option<Record>, acc: seq<Record>)
    requires files != [] && !Process(files[0], extract, complete, decode).Fatal()
    ensures var a0 := Process(files[0], extract, complete, decode);
            Outcome(files, extract, complete, decode, acc) ==
              Prepend(FileWidgets(files[0], a0),
                      Outcome(files[1..], extract, complete, decode, if a0.Parsed? then acc + [a0.record] else acc))
  {
    var a0 := Process(files[0], extract, complete, decode);
    if FirstFatal(Attempts(files[1..], extract, complete, decode)).Some? {
      OutcomeConsCrashed(files, extract, complete, decode, acc, if a0.Parsed? then acc + [a0.record] else acc);
    } else {
      OutcomeConsComplete(files, extract, complete, decode, acc);
    }
  }

  /** The loop-shaped run and the whole-run reading agree. */
  lemma {:induction false} RunSpec(files: seq<Upload>, extract: seq<byte> -> Result<string, string>,
                                      complete: string -> Result<string, string>,
                                      decode: string -> Option<Record>, acc: seq<Record>)
    decreases |files|
    ensures Run(files, extract, complete, decode, acc) == Outcome(files, extract, complete, decode, acc)
  {
    if files == [] {
      assert acc + Kept(Attempts(files, extract, complete, decode)) == acc;
      assert Prepend([], Finish(acc)) == Finish(acc);
    } else if Process(files[0], extract, complete, decode).Fatal() {
      FirstFatalAt(Attempts(files, extract, complete, decode), 0);
      assert files[..0] == [];
    } else {
      var a0 := Process(files[0], extract, complete, decode);
      RunSpec(files[1..], extract, complete, decode, if a0.Parsed? then acc + [a0.record] else acc);
      OutcomeCons(files, extract, complete, decode, acc);
    }
  }

  /** Between one and ten uploads, the page is the whole-run reading
      started with nothing collected. */
  lemma MainOutcome(files: seq<Upload>, extract: seq<byte> -> Result<string, string>,
                       complete: string -> Result<string, string>,
                       decode: string -> Option<Record>)
    requires 1 <= |files| <= MaxFiles
    ensures MainPage(files, extract, complete, decode) == Outcome(files, extract, complete, decode, [])
  {
    RunSpec(files, extract, complete, decode, []);
  }

  /** The table, the projection's exception, or nothing, as the records
      collected decide. */
  lemma FinishCases(kept: seq<Record>)
    ensures kept == [] ==> Finish(kept) == Page([], None)
    ensures kept != [] && StrictProject(RenameFrame(kept)).Failure? ==>
              Finish(kept) == Page([], Some(MissingColumn(StrictProject(RenameFrame(kept)).error.key)))
    ensures kept != [] && StrictProject(RenameFrame(kept)).Success? ==>
              var cols := StrictProject(RenameFrame(kept)).value;
              Finish(kept) == Page([SuccessBox(SuccessMessage), Table(cols), CsvDownload(DownloadLabel, DownloadName, cols)], None)
  {
  }

  /** The elements of the first `n` files begin those of the first `m`,
      for `n <= m`. */
  lemma LogPrefix(files: seq<Upload>, n: nat, m: nat, extract: seq<byte> -> Result<string, string>,
                     complete: string -> Result<string, string>,
                     decode: string -> Option<Record>)
    requires n <= m <= |files|
    ensures var short := Log(files[..n], extract, complete, decode);
            var long := Log(files[..m], extract, complete, decode);
            |short| <= |long| && long[..|short|] == short
  {
    assert files[..m] == files[..n] + files[n..m];
    LogAppend(files[..n], files[n..m], extract, complete, decode);
  }

  /** One more file adds its own elements at the end. */
  lemma LogSnoc(files: seq<Upload>, k: nat, extract: seq<byte> -> Result<string, string>,
                   complete: string -> Result<string, string>,
                   decode: string -> Option<Record>)
    requires k < |files|
    ensures Log(files[..k + 1], extract, complete, decode) ==
              Log(files[..k], extract, complete, decode) + FileWidgets(files[k], Process(files[k], extract, complete, decode))
  {
    assert [files[k]][1..] == [];
    assert Log([files[k]], extract, complete, decode) == FileWidgets(files[k], Process(files[k], extract, complete, decode));
    assert files[..k + 1] == files[..k] + [files[k]];
    LogAppend(files[..k], [files[k]], extract, complete, decode);
  }

  /** While no file has ended the run, the page begins with the elements
      of the files handled so far. */
  lemma PagePrefix(files: seq<Upload>, n: nat, extract: seq<byte> -> Result<string, string>,
                      complete: string -> Result<string, string>,
                      decode: string -> Option<Record>)
    requires n <= |files|
    requires forall j :: 0 <= j < n ==> !Process(files[j], extract, complete, decode).Fatal()
    ensures var w := Outcome(files, extract, complete, decode, []).widgets;
            var head := Log(files[..n], extract, complete, decode);
            |head| <= |w| && w[..|head|] == head
  {
    var a := Attempts(files, extract, complete, decode);
    if FirstFatal(a).Some? {
      var i := FirstFatal(a).value;
      OutcomeCrashed(files, extract, complete, decode, []);
      LogPrefix(files, n, i, extract, complete, decode);
    } else {
      OutcomeFromStart(files, extract, complete, decode);
      assert files[..|files|] == files;
      LogPrefix(files, n, |files|, extract, complete, decode);
    }
  }

  /** The first three elements after a known beginning. */
  lemma PrefixParts(w: seq<Widget>, head: seq<Widget>, mine: seq<Widget>)
    requires |head + mine| <= |w| && w[..|head + mine|] == head + mine
    ensures w[..|head|] == head
    ensures |mine| > 0 ==> w[|head|] == mine[0]
    ensures |mine| > 2 ==> w[|head| + 1] == mine[1] && w[|head| + 2] == mine[2]
  {
    assert w[..|head|] == (head + mine)[..|head|];
    if |mine| > 0 {
      assert w[|head|] == (head + mine)[|head|];
    }
    if |mine| > 2 {
      assert w[|head| + 1] == (head + mine)[|head| + 1];
      assert w[|head| + 2] == (head + mine)[|head| + 2];
    }
  }

  /** Nothing is uploaded: nothing is written. */
  lemma NoUpload(extract: seq<byte> -> Result<string, string>,
                    complete: string -> Result<string, string>,
                    decode: string -> Option<Record>)
    ensures MainPage([], extract, complete, decode) == Page([], None)
  {
  }

  /** More than ten files: the one error message, and no file is read. */
  lemma TooManyFiles(files: seq<Upload>, extract: seq<byte> -> Result<string, string>,
                        complete: string -> Result<string, string>,
                        decode: string -> Option<Record>)
    requires |files| > MaxFiles
    ensures MainPage(files, extract, complete, decode) == Page([ErrorBox(LimitMessage)], None)
  {
  }

  /** The script's exception is the first extraction or model failure in
      upload order; without one, it is the `KeyError` of the projection,
      raised exactly when some record was collected and one of the eleven
      fields the projection reads is a column under none of its names. */
  lemma CrashDecided(files: seq<Upload>, extract: seq<byte> -> Result<string, string>,
                        complete: string -> Result<string, string>,
                        decode: string -> Option<Record>)
    requires 1 <= |files| <= MaxFiles
    ensures var a := Attempts(files, extract, complete, decode);
            var page := MainPage(files, extract, complete, decode);
            && (FirstFatal(a).Some? ==> page.crash == Some(CrashOf(a[FirstFatal(a).value])))
            && (FirstFatal(a).None? ==>
                  (page.crash.Some? <==> Kept(a) != [] && StrictProject(RenameFrame(Kept(a))).Failure?))
            && (page.crash.Some? && page.crash.value.MissingColumn? ==>
                  !HasColumn(RenameFrame(Kept(a)), page.crash.value.key))
  {
    var a := Attempts(files, extract, complete, decode);
    RunSpec(files, extract, complete, decode, []);
    assert [] + Kept(a) == Kept(a);
  }

  /** Every file before the first failure writes its elements in upload
      order: the page begins with those of the files before it, then its
      "Processing" line and, for a reply that does not parse, the error
      naming the file and the text that was shown. */
  lemma FileShown(files: seq<Upload>, k: nat, extract: seq<byte> -> Result<string, string>,
                     complete: string -> Result<string, string>,
                     decode: string -> Option<Record>)
    requires 1 <= |files| <= MaxFiles && k < |files|
    requires forall j :: 0 <= j <= k ==> !Process(files[j], extract, complete, decode).Fatal()
    ensures var page := Outcome(files, extract, complete, decode, []);
            var p := |Log(files[..k], extract, complete, decode)|;
            var a := Process(files[k], extract, complete, decode);
            && |page.widgets| >= p + |FileWidgets(files[k], a)|
            && page.widgets[..p] == Log(files[..k], extract, complete, decode)
            && page.widgets[p] == Info(ProcessingMessage(files[k].filename))
            && (a.Unparsed? ==>
                  page.widgets[p + 1] == ParseErrorBox(files[k].filename) &&
                  page.widgets[p + 2] == RawResponse(ResponseLabel, a.shown))
  {
    MainOutcome(files, extract, complete, decode);
    PagePrefix(files, k + 1, extract, complete, decode);
    LogSnoc(files, k, extract, complete, decode);
    PrefixParts(Outcome(files, extract, complete, decode, []).widgets, Log(files[..k], extract, complete, decode),
                FileWidgets(files[k], Process(files[k], extract, complete, decode)));
  }

  /** The page of a run that handled every file and projected the table:
      every file's elements, then the success message, the table and its
      download, and no exception. */
  predicate ShowsTable(files: seq<Upload>, extract: seq<byte> -> Result<string, string>,
                          complete: string -> Result<string, string>,
                          decode: string -> Option<Record>)
  {
    var r := StrictProject(RenameFrame(Kept(Attempts(files, extract, complete, decode))));
    && r.Success?
    && MainPage(files, extract, complete, decode) ==
         Page(Log(files, extract, complete, decode) +
              [SuccessBox(SuccessMessage), Table(r.value), CsvDownload(DownloadLabel, DownloadName, r.value)], None)
  }

  /** All files handled and the projection fine: the page ends with the
      success message, the table and its download, after every file's
      elements. */
  lemma SuccessPage(files: seq<Upload>, extract: seq<byte> -> Result<string, string>,
                       complete: string -> Result<string, string>,
                       decode: string -> Option<Record>)
    requires 1 <= |files| <= MaxFiles
    requires var a := Attempts(files, extract, complete, decode);
             FirstFatal(a).None? && Kept(a) != [] && StrictProject(RenameFrame(Kept(a))).Success?
    ensures ShowsTable(files, extract, complete, decode)
  {
    MainOutcome(files, extract, complete, decode);
    OutcomeFromStart(files, extract, complete, decode);
    FinishCases(Kept(Attempts(files, extract, complete, decode)));
  }

  /** All files handled but no reply parsed: the page holds only the
      files' own elements, with no table and no exception. */
  lemma NoRecordsNoTable(files: seq<Upload>, extract: seq<byte> -> Result<string, string>,
                         complete: string -> Result<string, string>,
                         decode: string -> Option<Record>)
    requires FirstFatal(Attempts(files, extract, complete, decode)).None?
    requires Kept(Attempts(files, extract, complete, decode)) == []
    ensures Outcome(files, extract, complete, decode, []) == Page(Log(files, extract, complete, decode), None)
  {
    OutcomeFromStart(files, extract, complete, decode);
    assert Log(files, extract, complete, decode) + [] == Log(files, extract, complete, decode);
  }

  /** The two front ends read the same text from every upload.  They use
      different extraction code (main.py:34-43 and app.py:15-21), and they
      differ on a page without text, so the lemmas relating them state this
      as a condition. */
  predicate ExtractAlike(files: seq<Upload>, extractMain: seq<byte> -> Result<string, string>,
                            extractApp: seq<byte> -> Result<string, string>)
  {
    forall i :: 0 <= i < |files| ==> extractMain(files[i].content) == extractApp(files[i].content)
  }

  /** When every upload is a PDF that both front ends read alike, the
      service sees the files as the page does: it answers with rows exactly
      when no file ends the page's run and some record was collected, and
      the rows are those records, reshaped. */
  lemma ServiceSeesSame(files: seq<Upload>, extractMain: seq<byte> -> Result<string, string>,
                           extractApp: seq<byte> -> Result<string, string>,
                           complete: string -> Result<string, string>,
                           decode: string -> Option<Record>)
    requires |files| <= MaxFiles
    requires forall i :: 0 <= i < |files| ==> files[i].contentType == Service.PdfType
    requires ExtractAlike(files, extractMain, extractApp)
    ensures var resp := Service.Endpoint(files, extractMain, complete, decode);
            var a := Attempts(files, extractApp, complete, decode);
            && (resp.Ok? <==> FirstFatal(a).None? && Kept(a) != [])
            && (resp.Ok? ==> resp.rows == Transform(Kept(a)))
  {
    var a := Attempts(files, extractApp, complete, decode);
    var screened := Service.Screened(files, extractMain, complete, decode);
    forall i | 0 <= i < |files| ensures screened[i] == a[i] {
      assert extractMain(files[i].content) == extractApp(files[i].content);
    }
    assert screened == a;
    Service.RunSpec(files, extractMain, complete, decode, []);
    assert [] + Kept(a) == Kept(a);
  }

  /** When every upload is a PDF both front ends read alike, the service
      answers with rows and the page's projection finds its columns, the
      page shows its table after every file's elements. */
  lemma ServiceRowsPageTable(files: seq<Upload>, extractMain: seq<byte> -> Result<string, string>,
                                extractApp: seq<byte> -> Result<string, string>,
                                complete: string -> Result<string, string>,
                                decode: string -> Option<Record>)
    requires 1 <= |files| <= MaxFiles
    requires forall i :: 0 <= i < |files| ==> files[i].contentType == Service.PdfType
    requires ExtractAlike(files, extractMain, extractApp)
    requires Service.Endpoint(files, extractMain, complete, decode).Ok?
    requires StrictProject(RenameFrame(Kept(Attempts(files, extractApp, complete, decode)))).Success?
    ensures ShowsTable(files, extractApp, complete, decode)
  {
    ServiceSeesSame(files, extractMain, extractApp, complete, decode);
    SuccessPage(files, extractApp, complete, decode);
  }

  /** Under the same conditions, that table holds the service's rows,
      column by column. */
  lemma TableMatchesService(files: seq<Upload>, extractMain: seq<byte> -> Result<string, string>,
                               extractApp: seq<byte> -> Result<string, string>,
                               complete: string -> Result<string, string>,
                               decode: string -> Option<Record>)
    requires 1 <= |files| <= MaxFiles
    requires forall i :: 0 <= i < |files| ==> files[i].contentType == Service.PdfType
    requires ExtractAlike(files, extractMain, extractApp)
    requires Service.Endpoint(files, extractMain, complete, decode).Ok?
    requires StrictProject(RenameFrame(Kept(Attempts(files, extractApp, complete, decode)))).Success?
    ensures TableHolds(StrictProject(RenameFrame(Kept(Attempts(files, extractApp, complete, decode)))).value,
                       Service.Endpoint(files, extractMain, complete, decode).rows)
  {
    ServiceSeesSame(files, extractMain, extractApp, complete, decode);
    TableCells(Kept(Attempts(files, extractApp, complete, decode)), Service.Endpoint(files, extractMain, complete, decode).rows);
  }

  /** The condition is needed.  For a PDF with a page without text the
      service's extraction yields the empty string (main.py:40) while the
      page's raises (app.py:20): the service answers with rows, the page
      ends with the extraction error. */
  lemma TextlessPageDiffers(f: Upload)
    requires f.contentType == Service.PdfType
    ensures Service.Endpoint([f], TextlessMain, AnswerEmpty, DecodeEmpty).Ok?
    ensures MainPage([f], TextlessApp, AnswerEmpty, DecodeEmpty).crash == Some(ExtractCrash(TextlessError))
  {
    var s := Service.Screened([f], TextlessMain, AnswerEmpty, DecodeEmpty);
    assert s[0] == Parsed(map[]);
    Service.NoFatalOutcome([f], TextlessMain, AnswerEmpty, DecodeEmpty);
    var a := Attempts([f], TextlessApp, AnswerEmpty, DecodeEmpty);
    assert a[0] == ExtractFailed(TextlessError);
    FirstFatalAt(a, 0);
    CrashDecided([f], TextlessApp, AnswerEmpty, DecodeEmpty);
  }

  const TextlessError := "TypeError"

  /** The service's reading of such a PDF: no text, no error. */
  function TextlessMain(content: seq<byte>): (r: Result<string, string>) { Success("") }

  /** The page's reading of the same PDF: an exception. */
  function TextlessApp(content: seq<byte>): (r: Result<string, string>) { Failure(TextlessError) }

  /** A model that answers `{}` to every text. */
  function AnswerEmpty(text: string): (r: Result<string, string>) { Success("{}") }

  /** A decoder that reads every text as the empty object. */
  function DecodeEmpty(text: string): (r: Option<Record>) { Some(map[]) }

  /** A table of 34 columns holds the rows column by column: column `j`
      has one cell per row, each row has one cell per column, and cell `k`
      of column `j` is cell `j` of row `k`, under the same name. */
  predicate TableHolds(cols: seq<Series>, rows: seq<Row>) {
    && |cols| == |ColumnTable|
    && forall j, k :: 0 <= j < |cols| && 0 <= k < |rows| ==>
         |cols[j].1| == |rows| && |rows[k]| == |cols| && (cols[j].0, cols[j].1[k]) == rows[k][j]
  }

  /** The page's table against rows reshaped from the same records. */
  lemma TableCells(kept: seq<Record>, rows: seq<Row>)
    requires rows == Transform(kept)
    requires StrictProject(RenameFrame(kept)).Success?
    ensures TableHolds(StrictProject(RenameFrame(kept)).value, rows)
  {
    var cols := StrictProject(RenameFrame(kept)).value;
    StrictColumns(RenameFrame(kept));
    forall j, k | 0 <= j < |cols| && 0 <= k < |rows|
      ensures |cols[j].1| == |rows| && |rows[k]| == |cols| && (cols[j].0, cols[j].1[k]) == rows[k][j]
    {
      StrictCell(kept, j, k);
    }
  }

  /** `df.rename(columns={src: dst})`: every row's `src` renamed. */
  function RenameAll(df: Frame, src: string, dst: string): (r: Frame)
    ensures |r| == |df|
    ensures forall k :: 0 <= k < |df| ==> r[k] == RenameKey(df[k], src, dst)
  {
    seq(|df|, k requires 0 <= k < |df| => RenameKey(df[k], src, dst))
  }

  /** The first `e` guarded renames, applied to every row. */
  function RenamedUpTo(frame: Frame, e: nat): (r: Frame)
    requires e <= |RenameTable|
    ensures |r| == |frame|
  {
    seq(|frame|, k requires 0 <= k < |frame| => RenameWith(frame[k], RenameTable[..e]))
  }

  /** One more guarded rename: a frame without the source column is left
      as it is, since renaming an absent key changes no row. */
  lemma RenameStep(frame: Frame, e: nat)
    requires e < |RenameTable|
    ensures var df := RenamedUpTo(frame, e);
            RenamedUpTo(frame, e + 1) ==
              if HasColumn(df, RenameTable[e].0) then RenameAll(df, RenameTable[e].0, RenameTable[e].1) else df
  {
    var df := RenamedUpTo(frame, e);
    assert RenameTable[..e + 1][..e] == RenameTable[..e];
    assert RenameTable[..e + 1][e] == RenameTable[e];
    if !HasColumn(df, RenameTable[e].0) {
      forall k | 0 <= k < |frame| ensures RenamedUpTo(frame, e + 1)[k] == df[k] {
        assert RenameTable[e].0 !in df[k];
      }
    }
  }

  /** The seven guarded in-place renames of app.py:117-136. */
  method RenameColumns(frame: Frame) returns (df: Frame)
    ensures df == RenameFrame(frame)
  {
    df := frame;
    assert RenameTable[..0] == [];
    var e := 0;
    while e < |RenameTable|
      invariant 0 <= e <= |RenameTable|
      invariant df == RenamedUpTo(frame, e)
    {
      var (src, dst) := RenameTable[e];
      RenameStep(frame, e);
      if HasColumn(df, src) {
        df := RenameAll(df, src, dst);
      }
      e := e + 1;
    }
    assert RenameTable[..|RenameTable|] == RenameTable;
  }

  /** The 34 column assignments of app.py:138-172, in order, on the
      renamed frame; the first `df[key]` with no such column raises. */
  method FillColumns(df: Frame) returns (r: Result<seq<Series>, KeyError>)
    ensures r == StrictProject(df)
  {
    var cols: seq<Series> := [];
    var j := 0;
    while j < |ColumnTable|
      invariant 0 <= j <= |ColumnTable|
      invariant MissingFrom(df, 0) == MissingFrom(df, j)
      invariant cols == ColumnsUpTo(df, j)
    {
      var c := ColumnTable[j];
      if c.source.From? && !(exists k :: 0 <= k < |df| && c.source.key in df[k]) {
        return Failure(KeyError(c.source.key));
      }
      cols := cols + [ColumnOf(df, c)];
      j := j + 1;
    }
    return Success(cols);
  }

  /** The body of the file loop of app.py:88-110 for one upload: the
      elements it writes, the exception that escapes, and the record it
      collects. */
  method HandleFile(file: Upload, extract: seq<byte> -> Result<string, string>,
                       complete: string -> Result<string, string>,
                       decode: string -> Option<Record>)
    returns (added: seq<Widget>, crash: Option<Crash>, record: Option<Record>)
    ensures var a := Process(file, extract, complete, decode);
            if a.ExtractFailed? || a.CompletionFailed? then
              added == [Info(ProcessingMessage(file.filename))] && crash == Some(CrashOf(a))
            else
              && added == FileWidgets(file, a) && crash == None
              && record == (if a.Parsed? then Some(a.record) else None)
  {
    ProcessSteps(file, extract, complete, decode);
    added := [Info(ProcessingMessage(file.filename))];
    crash := None;
    record := None;
    var text := extract(file.content);
    if text.Failure? {
      crash := Some(ExtractCrash(text.error));
      return;
    }
    var reply := complete(text.value);
    if reply.Failure? {
      crash := Some(CompletionCrash(reply.error));
      return;
    }
    var parsed := ParseReply(reply.value, decode);
    if parsed.Success? {
      record := Some(parsed.value);
    } else {
      added := added + [ParseErrorBox(file.filename), RawResponse(ResponseLabel, parsed.error)];
    }
  }

  /** app.py:112-184: rename, fill the 34 columns, and show the table. */
  method ShowTable(allData: seq<Record>) returns (widgets: seq<Widget>, crash: Option<Crash>)
    ensures Page(widgets, crash) == Finish(allData)
  {
    widgets := [];
    crash := None;
    if allData != [] {
      var df := RenameColumns(allData);
      var table := FillColumns(df);
      match table
      case Failure(e) =>
        crash := Some(MissingColumn(e.key));
      case Success(cols) =>
        widgets := [SuccessBox(SuccessMessage), Table(cols), CsvDownload(DownloadLabel, DownloadName, cols)];
    }
  }

  /** `main()`: the limit check, the file loop, then the table. */
  method RunMain(files: seq<Upload>, extract: seq<byte> -> Result<string, string>,
                    complete: string -> Result<string, string>,
                    decode: string -> Option<Record>) returns (widgets: seq<Widget>, crash: Option<Crash>)
    ensures Page(widgets, crash) == MainPage(files, extract, complete, decode)
  {
    widgets := [];
    crash := None;
    if files == [] {
      return;
    }
    if |files| > MaxFiles {
      widgets := [ErrorBox(LimitMessage)];
      return;
    }
    var allData: seq<Record> := [];
    var i := 0;
    while i < |files|
      invariant 0 <= i <= |files|
      invariant crash == None
      invariant Prepend(widgets, Run(files[i..], extract, complete, decode, allData)) ==
                Run(files, extract, complete, decode, [])
    {
      RunAt(files, i, extract, complete, decode, allData);
      var added, failure, record := HandleFile(files[i], extract, complete, decode);
      if failure.Some? {
        widgets, crash := widgets + added, failure;
        return;
      }
      PrependTwice(widgets, added, Run(files[i + 1..], extract, complete, decode,
                                       if record.Some? then allData + [record.value] else allData));
      widgets := widgets + added;
      if record.Some? {
        allData := allData + [record.value];
      }
      i := i + 1;
    }
    assert files[|files|..] == [];
    var tail, ending := ShowTable(allData);
    widgets, crash := widgets + tail, ending;
  }
}
