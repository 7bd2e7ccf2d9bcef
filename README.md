# Invoice PDF extractor — a Dafny model

The system turns up to ten invoice PDFs into one table. Each PDF's text is
sent to a language model, which is asked for a JSON object with eleven
invoice fields. The reply is cleaned of a Markdown ```` ```json ```` fence
and decoded. The decoded records are then reshaped into a fixed table of
output columns.

The system has two front ends, and both are modelled:

- the FastAPI endpoint `POST /api/extract` in `main.py`;
- the Streamlit page in `app.py`.

The project models the part of the system that does not depend on I/O:

- the fence stripper, `text.dfy` and `fence.dfy`. Python's `str.find`, `in` and `str.split` are modelled.
- the outcome of one upload, `pipeline.dfy`: an extraction or model error, a reply that does not parse, or a decoded record.
- `transform_data` and its inline copy in `app.py`:
  - `schema.dfy` covers the seven guarded renames and the 34-column projection, one record at a time;
  - `frame.dfy` covers the DataFrame-level reading. In `app.py` a column that no record carries raises `KeyError`;
  - `frame_index.dfy` covers how `main.py`'s `final_df = pd.DataFrame()` gets its rows (see Findings).
- the endpoint's file loop, `service.dfy`.
- the Streamlit `main()` loop and the page it writes, `app.dfy`.

Both front ends are written twice:

1. **The loop.** An imperative method with a `while` loop, as the source has it: `Service.ExtractDataFromPdfs`, `App.RunMain`, `App.RenameColumns` and `App.FillColumns`.
2. **The whole-batch reading.** A declarative description, connected to the loop by lemmas. Its pieces are:
   - the first file whose extraction or model call fails (`FirstFatal`);
   - the records that were decoded (`Kept`);
   - the elements each file writes to the page (`Log`).

The page lemmas about a whole batch are stated on `App.Outcome`. `App.MainOutcome` proves that it equals `main()`'s page for 1 to 10 files.

Three things are parameters of every operation, not modelled:

- PDF text extraction (`extract`);
- the chat completion (`complete`);
- `json.loads` (`decode`, which yields an object or nothing).

Field values are the JSON datatype `Schema.Value`. A JSON number keeps its literal text.

Three points of the code shape the model:

- The output has 34 columns, one per assignment (`main.py:110-143`, `app.py:139-172`).
- `app.py` indexes the frame strictly (`df['PoNumber']`), so it raises `KeyError` when no decoded record carries a needed field. `main.py` uses `df.get` and yields missing values instead.
- An extraction or completion failure ends the whole batch, not just its own document. `main.py:42-43` and `main.py:89-90` raise a 500 for the request. `app.py:92-95` lets the exception end the script run.

## Model

| member | source | states |
|---|---|---|
| Text.FindFrom | main.py:162 | the first index at or after `from` where the pattern occurs; none before it; `None` exactly when there is no later occurrence |
| Text.Split | main.py:163 | Python's `split`: at least one piece; exactly one when the separator does not occur; the first piece is the text before the first occurrence and has no separator |
| Text.Contains | main.py:162 | Python's `in`: true only when the pattern fits in the text; ContainsAt and ContainsIff tie it to an occurrence |
| Text.ContainsIff | main.py:162 | `pat in s` holds exactly when the pattern occurs at some index |
| Text.SplitJoin | main.py:163 | joining the pieces with the separator gives the text back |
| Fence.StripFence | main.py:162-163 | no marker: reply unchanged; `IndexError` exactly when "```json" occurs but "```json\n" does not; a stripped body never contains "```" or "```json" |
| Fence.StripIdempotent | app.py:103-104 | cleaning a cleaned reply changes nothing |
| Fence.StripFormula | main.py:163 | when the opener occurs, the result is the text after the first opener, cut at the next opener and then at the first "```" |
| Fence.StripShape | main.py:163 | the body is the slice right after the first opener, and ends at the end of the reply or at a "```" |
| Fence.StripFencedBlock | main.py:162-163 | prefix + "```json\n" + body + "```" + tail yields exactly the body. Conditions: no opener in the prefix; no "```" in the body; the body does not end with a backtick; the tail does not start with "`json\n" or "``json\n" |
| Fence.StripUnclosed | main.py:163 | an opener without a closing fence yields everything after the opener |
| Pipeline.ParseReply | main.py:161-166 | decoded exactly when the cleaned text decodes; a failure carries the reply itself when the split raised, and the stripped text when decoding failed (the text `app.py:110` shows) |
| Pipeline.ParseBare | app.py:103-106 | a reply without the marker is decoded as it stands |
| Pipeline.ParseBrokenFence | main.py:163-166 | a reply with "```json" but no "```json\n" is a parse failure, whatever the decoder |
| Pipeline.FencedParsesLikeBare | main.py:162-164 | a fenced reply parses like its body alone, under the conditions of StripFencedBlock |
| Pipeline.Process | app.py:92-108 | extraction error, model error, parse failure or record, each exactly under its condition, in that order |
| Pipeline.FirstFatal | main.py:153-159 | the upload that aborts the batch: it raises and no earlier upload does; `None` exactly when no upload raises |
| Pipeline.Kept | main.py:165 | `all_data`: never more records than uploads (KeptSpec says which) |
| Pipeline.FirstFatalFrom | main.py:153-159 | the first file, in upload order, whose handling raises; no earlier one raises |
| Pipeline.FirstFatalAt | main.py:153-159 | a raising file with no raising predecessor is the first |
| Pipeline.KeptSpec | main.py:165 | the collected records are exactly the decoded ones, in upload order |
| Pipeline.KeptEmpty | main.py:173 | nothing is collected exactly when no reply decoded |
| Pipeline.KeptCons | main.py:165 | collecting from the front: the first record, if decoded, then the rest |
| Schema.Columns | main.py:110-143 | (helper) the 34 output columns in the order the code assigns them |
| Schema.ColumnAt | main.py:110-143 | column `j` of the assignments: blank exactly when its name is one of the twenty in `BlankColumns`; the only literal column is "Currency" = "INR" |
| Schema.RenameKey | main.py:94-95 | one guarded rename: the source key goes, the target gets its value, every other key is untouched |
| Schema.RenameWith | main.py:94-107 | the guarded renames of a table, in order: a key they add is a source or target of the table |
| Schema.Rename | main.py:94-107 | the seven renames: no source key remains; each target is present exactly when its source or the target itself was |
| Schema.RenameTableDisjoint | main.py:94-107 | no rename's target is another rename's source, and sources and targets are pairwise different |
| Schema.RenameWithSpec | main.py:94-107 | after the seven renames no source key remains; each target holds the source's value, or keeps its own when the source was absent; every other key is unchanged |
| Schema.RenameWithNoSources | main.py:94-107 | a record without any source key is left as it is |
| Schema.RenameIdempotent | main.py:94-107 | renaming a renamed record changes nothing |
| Schema.RenamedEntry | main.py:94-107 | each rename target reads the source's value if present, else its own |
| Schema.RenameKeeps | main.py:94-107 | a key no rename mentions reads the same before and after |
| Schema.RenamedFields | main.py:94-107 | the eleven fields the projection reads, in terms of the record as decoded |
| Schema.Lookup | main.py:110 | (helper) `df.get(key)` on one row: the value exactly when the key is present, else `None` |
| Schema.Project | main.py:109-143 | one row of `final_df`: the 34 header names, in order |
| Schema.Reshape | main.py:92-145 | rename, then project: 34 cells |
| Schema.Transform | main.py:92-145 | one row of 34 cells per record (the corrected reading; see Findings) |
| Schema.ColumnNames | main.py:110-143 | (helper) the column table names the header, column by column |
| Schema.HeaderDistinct | main.py:110-143 | 34 pairwise different column names |
| Schema.ProjectAt | main.py:110-143 | (helper) column `j` of a row is the `j`-th column's name with its cell |
| Schema.ReshapeHeader | main.py:109-145 | every row has the 34 names in order, whatever the record, and no other key appears |
| Schema.ReshapeConstantCells | main.py:111-143 | "Currency" is "INR"; the twenty unsourced columns are the empty string |
| Schema.BlankColumnsEmpty | main.py:111-143 | a cell is the empty string exactly when its column is one of the twenty in `BlankColumns` (the corrected reading; see Findings) |
| Schema.ReshapeSourcedCells | main.py:110-140 | the eleven sourced cells copy the renamed fields; "Net P O Rate" equals "Gross Rate"; "Taxable Value" equals "Basic Value" |
| Frame.HasColumn | app.py:117 | `key in df.columns`: some record carries the key, so an empty frame has no columns |
| Frame.RenameFrame | app.py:116-136 | the frame keeps one row per record; column effects are stated by RenamedColumn and KeptColumn |
| Frame.RenamedColumn | app.py:116-136 | after the renames a target column exists iff its source or target column existed |
| Frame.KeptColumn | app.py:116-136 | a column no rename mentions exists after iff before |
| Frame.MissingFrom | app.py:139-169 | the first output column, in assignment order, whose key no row carries |
| Frame.ColumnOf | app.py:139 | (helper) a column copies the cell of every row, in row order |
| Frame.ColumnsUpToSpec | app.py:138-172 | the columns assigned so far are the first `j` output columns |
| Frame.StrictProject | app.py:138-172 | succeeds exactly when no column's key is missing; a failure names a key no row carries; success gives 34 columns |
| Frame.StrictProjectSpec | app.py:138-172 | succeeds iff every sourced key is a column; a failure names a key no row carries; success gives 34 named columns whose cells are the per-record projection |
| Frame.AppProjectionSucceeds | app.py:116-172 | the page's projection succeeds iff each of the eleven fields, or its pre-rename name, occurs in some decoded record |
| Frame.PromptFieldsSuffice | app.py:31-42 | if every field the prompt asks for occurs in some record, the projection cannot fail |
| Frame.StrictCell | app.py:139-172 | one cell of the page's table equals the same cell of `transform_data`'s row |
| Frame.StrictAgreesWithTransform | app.py:138-172 | when it succeeds, the page's table is `transform_data`'s rows read by column |
| FrameIndex.FirstSeriesFrom | main.py:110-143 | the first assignment at or after `j` that stores a Series; none before it does; `None` exactly when none does |
| FrameIndex.PandasTransform | main.py:92-145 | `transform_data` as pandas runs it: no rows exactly when there is no record or no assignment stores a Series; otherwise one row per record |
| FrameIndex.PandasMatchesTransform | main.py:109-110 | when some record has a PO number, the pandas result is exactly `Transform` |
| FrameIndex.EmptyRecordsNoRows | main.py:109-143 | records that are all `{}`: pandas gives no rows, `Transform` one per record |
| FrameIndex.NoPoNumberCells | main.py:110-111 | no PO number in any record but some row: "PO NUMBER" and "PO Item No" are missing values in every row |
| Service.Screen | main.py:154-159 | a file whose media type is not `application/pdf` is refused; otherwise it is processed |
| Service.Screened | main.py:153-159 | (helper) the outcome of each upload, in order |
| Service.ErrorOf | main.py:154-155 | the exception of a raising file: 400 exactly for a non-PDF, 500 exactly for an extraction or model error |
| Service.Finish | main.py:173-179 | the no-data 400 exactly when nothing was collected; otherwise one row per record (the corrected reading; see Findings) |
| Service.FinishAsWritten | main.py:173-179 | as written: rows exactly when records were collected, and then none or one per record |
| Service.EmptyRepliesAsWritten | main.py:109-179 | every reply `{}`: as written, 200 with no rows; `Finish` gives one row per record |
| Service.Run | main.py:152-179 | the rest of the loop: it answers at least one row and at most one per collected or remaining file (the corrected reading; see Findings) |
| Service.Endpoint | main.py:147-179 | more than ten files: the limit 400; rows: between one and the number of files, at most ten (the corrected reading; see Findings) |
| Service.OutcomeCons | main.py:153-171 | a first file that does not raise hands the batch, with its record if any, to the rest |
| Service.RunSpec | main.py:152-179 | the file loop returns what the whole-batch reading says |
| Service.ExtractDataFromPdfs | main.py:147-179 | the endpoint's loop returns exactly Endpoint's answer (the corrected reading; see Findings) |
| Service.TooManyFiles | main.py:149-150 | more than ten files: 400 with the limit message |
| Service.NotPdfReported | main.py:154-155 | a non-PDF with no raising predecessor: 400 naming that file |
| Service.FirstFatalDecides | main.py:153-159 | the first raising file decides the answer; 400 iff it is a non-PDF, else 500 |
| Service.NoFatalOutcome | main.py:173-179 | without a raising file: the no-data 400 iff nothing decoded, rows iff something did, and the rows are the reshaped records |
| Service.OkRows | main.py:176-179 | rows: 1 to 10, one per decoded file in upload order, each the reshape of its record with 34 columns |
| App.ProcessSteps | app.py:92-110 | (helper) one upload: extraction error, then model error, then parse outcome |
| App.FileWidgets | app.py:89-110 | one file that does not raise: its "Processing" line first; a reply that does not parse adds the error box and the raw text (3 elements, else 1) |
| App.Finish | app.py:112-184 | no records: nothing; an exception is only the `KeyError` of a key that is not a column; success: three elements, the success message first |
| App.Run | app.py:88-110 | the rest of the loop: the first element is the first remaining file's "Processing" line |
| App.MainPage | app.py:83-184 | more than ten files: only the limit error; 1 to 10 files: the page starts with the first file's "Processing" line |
| App.Attempts | app.py:88-110 | (helper) the outcome of each upload in order |
| App.LogAppend | app.py:88-110 | the elements of two batches written one after the other are the two logs concatenated |
| App.OutcomeCrashed | app.py:88-95 | (helper) the first raising file ends the page after its "Processing" line, with that exception |
| App.OutcomeComplete | app.py:88-112 | (helper) without one, every file's elements come first, then what the table step adds |
| App.OutcomeFromStart | app.py:87-112 | (helper) the same, from an empty record list |
| App.OutcomeCons | app.py:88-110 | a first file that does not raise writes its elements, then hands on to the rest |
| App.RunSpec | app.py:88-184 | the file loop's page is the whole-batch page |
| App.MainOutcome | app.py:83-112 | for 1 to 10 files, `main()`'s page is the whole-batch page |
| App.FinishCases | app.py:112-184 | (helper) no records: nothing more; a missing key: `KeyError` with nothing more; else success message, table and CSV download |
| App.NoUpload | app.py:83 | no upload: an empty page |
| App.TooManyFiles | app.py:84-85 | more than ten files: only the limit error |
| App.CrashDecided | app.py:88-169 | the page ends in an exception iff a file's extraction or model call raised (the first such) or, with none, the table step raised `KeyError` for a key no record carries |
| App.FileShown | app.py:89-110 | each file before the first raise gets "Processing `name`..." right after the earlier files' elements; an unparsed reply adds the error and the raw text |
| App.SuccessPage | app.py:173-184 | a clean batch whose projection succeeds: all files' elements, then success message, table and download |
| App.NoRecordsNoTable | app.py:112 | no raising file and nothing decoded: only the files' elements, no table, no exception |
| App.ServiceSeesSame | main.py:147-179 | for PDFs both front ends read alike, the endpoint answers with rows iff no file raises on the page and some record was decoded; the rows are those records reshaped |
| App.ServiceRowsPageTable | app.py:173-184 | when every upload is a PDF both front ends read alike, the endpoint answers rows and the page's projection succeeds: the page shows every file's elements, then the success message, the table and the download |
| App.TableMatchesService | app.py:138-175 | under the same conditions (PDFs both front ends read alike) the page's table holds the endpoint's rows cell for cell (`TableHolds`) |
| App.TextlessPageDiffers | app.py:15-21 | a PDF the endpoint reads as `''` (`main.py:40`) but the page fails to read (`app.py:20`): the endpoint answers rows, the page ends with the extraction error |
| App.RenameAll | app.py:117-118 | (helper) `df.rename` renames the key in every row |
| App.RenameStep | app.py:116-136 | one guarded rename of the frame: applied iff some row carries the source key |
| App.RenameColumns | app.py:116-136 | the seven-step loop gives the renamed frame |
| App.FillColumns | app.py:138-172 | the column-by-column loop gives the strict projection, or the first missing key |
| App.HandleFile | app.py:89-110 | one file's elements, the exception it raises, and the record it adds |
| App.ShowTable | app.py:112-184 | the table step's elements and exception |
| App.RunMain | app.py:83-184 | the script's page is `MainPage` |

## Left out

- PDF text extraction (pdfplumber, `main.py:34-43`, `app.py:15-21`) is a parameter: `extract`, or `extractMain` and `extractApp` where both front ends meet. Its errors appear only as `Failure`. The two readers differ on a page without text: `main.py:40` adds `''`, `app.py:20` raises. The lemmas relating the endpoint to the page (App.ServiceSeesSame, App.ServiceRowsPageTable, App.TableMatchesService) therefore require `ExtractAlike`, that both read every upload alike; App.TextlessPageDiffers shows the endpoint answering rows while the page crashes when they do not.
- The chat completion (`main.py:45-90`, `app.py:23-67`) is the parameter `complete`. The prompt text, the model name and the client set-up are not modelled. Because `complete` is a function of the text, two uploads with the same text get the same reply in the model; the real model call need not be deterministic. No property relies on this.
- `json.loads` is the parameter `decode`, which yields an object or nothing. A reply that decodes to a JSON value other than an object is treated as a parse failure. The source would append it.
- pandas is modelled row-wise, with a missing cell as `None` (pandas' NaN). The order of the frame's own columns and the dtypes are not modelled. How `final_df = pd.DataFrame()` gets its rows is modelled in `FrameIndex`. The rest of the model uses the corrected one-row-per-record reading (see Findings).
- Schema.ReshapeConstantCells: states the cells of one reshaped row, the corrected reading. As written, `main.py` produces these cells only when some assignment stores a Series. The cells assigned before the first Series are NaN. So when no record has a PO number but one has a later copied field, "PO NUMBER" and "PO Item No" are NaN, not the value and `''` (FrameIndex.NoPoNumberCells).
- Schema.BlankColumnsEmpty: states the corrected reading, for the same reason as Schema.ReshapeConstantCells. As written, when no record has a PO number but one has a later copied field, "PO Item No" is NaN in every row, not `''` (FrameIndex.NoPoNumberCells).
- Service.OkRows: states one row per decoded record, the corrected reading. As written, a batch whose records carry none of the eleven copied keys (every reply `{}`) is answered 200 with `[]` (Service.EmptyRepliesAsWritten).
- Service.NoFatalOutcome: the rows it names are the corrected ones, for the same reason as Service.OkRows.
- App.ServiceSeesSame: the endpoint's rows are the corrected ones. They equal pandas' rows whenever some record has a PO number (FrameIndex.PandasMatchesTransform), and the page's projection needs one.
- How FastAPI encodes a NaN cell in the JSON response is not modelled. Starlette's `JSONResponse` renders with `allow_nan=False`, so a NaN cell most likely turns the answer into a 500. That covers the records of the Findings row with a Quantity but no PO number. It also covers any batch where one record lacks a copied key that another record has.
- A rename whose target column already exists gives pandas duplicate column labels. The model lets the renamed value overwrite the target. In the program, `df.get(...)` or `df[...]` on a duplicated label then returns a two-column frame, and assigning it to one `final_df` column raises `ValueError`: in `main.py` that becomes a 500, in `app.py` the script run ends. This failure is not modelled.
- The guarded renames and the 34 assignments are written as tables (`RenameTable`, `ColumnAt`) driven by loops and recursion, in the source's order, not as 41 separate statements.
- Fence.StripFencedBlock: holds only when the body contains no "```", the body does not end with a backtick, and the tail does not start with "`json\n" or "``json\n". Each excluded case makes Python's split cut elsewhere: at the body's own fence, one backtick early, or at an opener formed from the closing fence's last backticks. `StripFormula` and `StripShape` still say what the result is.
- Pipeline.FencedParsesLikeBare: the same conditions as Fence.StripFencedBlock, for the same reason. The body conditions hold for every JSON object without "```" in a string.
- The page layout is not modelled: title, layout, uploader widget, `st.dataframe` rendering, CSV bytes and encoding.
- In the parse-error box (`app.py:109`) only the file name is kept. The exception text is not.
- Console logging in the endpoint (`main.py:168-169`) is not modelled.
- App set-up is not modelled: FastAPI, CORS, `.env` loading, the `GET /` welcome endpoint and the async request handling.
- FastAPI rejects a request without files before the handler runs; this is not modelled. `Service.Endpoint` answers an empty list with the no-data 400.

## Findings

| source | as written | input that shows it | evidently intended | confidence | as-written member | corrected member |
|---|---|---|---|---|---|---|
| main.py:109-143 | `final_df = pd.DataFrame()` is filled column by column. Scalar columns assigned before the first Series give no rows, and the first Series turns them into NaN | every reply decodes to `{}` (one PDF, reply `{}`): 200 with `[]`, not one row and not the no-data 400; records with a Quantity but no PO number: "PO NUMBER" and "PO Item No" are NaN | one row per decoded record, with `''` and `'INR'` in the constant columns | medium; not executed | FrameIndex.PandasTransform, Service.EmptyRepliesAsWritten, FrameIndex.NoPoNumberCells | Schema.Transform, Schema.BlankColumnsEmpty, Service.Finish, Service.OkRows, FrameIndex.PandasMatchesTransform |
