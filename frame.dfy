/** The whole-table view of the reshaper that app.py:114-172 uses.

    app.py builds a DataFrame from the parsed records and indexes it with
    `df[key]`, which raises `KeyError` when no record at all carries `key`;
    where only some records lack it, those rows get a missing value.  A
    frame is modelled as its sequence of rows; the reshaped table is kept
    column by column, as the DataFrame stores it. */
module Frame {
  import opened Wrappers
  import opened Schema

  type Frame = seq<Record>

  /** One column of the reshaped table: its name and one cell per row. */
  type Series = (string, seq<Cell>)

  /** The exception `df[key]` raises when `key` is not a column. */
  datatype KeyError = KeyError(key: string)

  /** `key in df.columns`: the columns of a DataFrame built from a list of
      records are the union of the records' keys. */
  predicate HasColumn(frame: Frame, key: string)
    ensures HasColumn(frame, key) ==> frame != []
  {
    exists k :: 0 <= k < |frame| && key in frame[k]
  }

  /** The guarded renames applied to every row of the frame. */
  function RenameFrame(frame: Frame): (r: Frame)
    ensures |r| == |frame|
  {
    seq(|frame|, k requires 0 <= k < |frame| => Rename(frame[k]))
  }

  /** Column `j` of the table reads a key the frame does not have. */
  predicate Missing(frame: Frame, j: nat)
    requires j < |ColumnTable|
  {
    ColumnTable[j].source.From? && !HasColumn(frame, ColumnTable[j].source.key)
  }

  /** The first column at or after `j` whose key is missing, if any. */
  function MissingFrom(frame: Frame, j: nat): (r: Option<nat>)
    requires j <= |ColumnTable|
    ensures r.Some? ==> j <= r.value < |ColumnTable| && Missing(frame, r.value)
    ensures r.Some? ==> forall i :: j <= i < r.value ==> !Missing(frame, i)
    ensures r.None? ==> forall i :: j <= i < |ColumnTable| ==> !Missing(frame, i)
    decreases |ColumnTable| - j
  {
    if j == |ColumnTable| then None
    else if Missing(frame, j) then Some(j)
    else MissingFrom(frame, j + 1)
  }

  /** The cells a column source produces for every row of the frame. */
  function ColumnOf(frame: Frame, c: Column): (s: Series)
    ensures s.0 == c.name && |s.1| == |frame|
    ensures forall k :: 0 <= k < |frame| ==> s.1[k] == CellOf(c.source, frame[k])
  {
    (c.name, seq(|frame|, k requires 0 <= k < |frame| => CellOf(c.source, frame[k])))
  }

  /** The 34 assignments of app.py:138-172 on a renamed frame: the
      `KeyError` of the first column whose key the frame lacks, or the
      table, column by column. */
  function StrictProject(frame: Frame): (r: Result<seq<Series>, KeyError>)
    ensures r.Success? <==> forall j :: 0 <= j < |ColumnTable| ==> !Missing(frame, j)
    ensures r.Failure? ==> !HasColumn(frame, r.error.key)
    ensures r.Success? ==> |r.value| == |ColumnTable|
  {
    match MissingFrom(frame, 0)
    case Some(j) => Failure(KeyError(ColumnTable[j].source.key))
    case None =>
      ColumnsUpToSpec(frame, |ColumnTable|);
      Success(ColumnsUpTo(frame, |ColumnTable|))
  }

  /** The first `j` columns of the table, assigned one after another. */
  function ColumnsUpTo(frame: Frame, j: nat): (cols: seq<Series>)
    requires j <= |ColumnTable|
  {
    if j == 0 then [] else ColumnsUpTo(frame, j - 1) + [ColumnOf(frame, ColumnTable[j - 1])]
  }

  lemma {:induction false} ColumnsUpToSpec(frame: Frame, j: nat)
    requires j <= |ColumnTable|
    ensures |ColumnsUpTo(frame, j)| == j
    ensures forall i :: 0 <= i < j ==> ColumnsUpTo(frame, j)[i] == ColumnOf(frame, ColumnTable[i])
  {
    if j > 0 {
      ColumnsUpToSpec(frame, j - 1);
      var init := ColumnsUpTo(frame, j - 1);
      var last := ColumnOf(frame, ColumnTable[j - 1]);
      assert ColumnsUpTo(frame, j) == init + [last];
      forall i | 0 <= i < j ensures ColumnsUpTo(frame, j)[i] == ColumnOf(frame, ColumnTable[i]) {
        if i < j - 1 {
          assert (init + [last])[i] == init[i];
        }
      }
    }
  }

  /** The eleven keys the projection reads are columns of the frame. */
  predicate HasSourcedKeys(frame: Frame) {
    && HasColumn(frame, "PoNumber")
    && HasColumn(frame, "Quantity")
    && HasColumn(frame, "Vendor Challan No")
    && HasColumn(frame, "Challan Date")
    && HasColumn(frame, "Gross Rate")
    && HasColumn(frame, "Basic value")
    && HasColumn(frame, "IGST VALUE")
    && HasColumn(frame, "INVOICE VALUE")
    && HasColumn(frame, "GSTIN Number")
    && HasColumn(frame, "TML GSTIN")
    && HasColumn(frame, "IRN")
  }

  /** Which column reads which key: the sourced entries of the table. */
  lemma SourcedColumns()
    ensures forall j :: 0 <= j < |ColumnTable| && ColumnTable[j].source.From? ==>
      ColumnTable[j].source.key in {"PoNumber", "Quantity", "Vendor Challan No", "Challan Date", "Gross Rate", "Basic value", "IGST VALUE", "INVOICE VALUE", "GSTIN Number", "TML GSTIN", "IRN"}
  {
  }

  lemma FoundAt(frame: Frame, j: nat, key: string)
    requires j < |ColumnTable| && ColumnAt(j).source == From(key)
    ensures MissingFrom(frame, 0).None? ==> HasColumn(frame, key)
  {
    if MissingFrom(frame, 0).None? {
      assert !Missing(frame, j);
    }
  }

  lemma FoundSourcedA(frame: Frame)
    ensures MissingFrom(frame, 0).None? ==>
              && HasColumn(frame, "PoNumber")
              && HasColumn(frame, "Quantity")
              && HasColumn(frame, "Vendor Challan No")
              && HasColumn(frame, "Challan Date")
  {
    SourcedColumnsLow();
    SourcedColumnsHigh();
    FoundAt(frame, 0, "PoNumber");
    FoundAt(frame, 2, "Quantity");
    FoundAt(frame, 3, "Vendor Challan No");
    FoundAt(frame, 4, "Challan Date");
  }

  lemma FoundSourcedB(frame: Frame)
    ensures MissingFrom(frame, 0).None? ==>
              && HasColumn(frame, "Gross Rate")
              && HasColumn(frame, "Basic value")
              && HasColumn(frame, "IGST VALUE")
              && HasColumn(frame, "INVOICE VALUE")
  {
    SourcedColumnsLow();
    SourcedColumnsHigh();
    FoundAt(frame, 5, "Gross Rate");
    FoundAt(frame, 7, "Basic value");
    FoundAt(frame, 11, "IGST VALUE");
    FoundAt(frame, 18, "INVOICE VALUE");
  }

  lemma FoundSourcedC(frame: Frame)
    ensures MissingFrom(frame, 0).None? ==>
              && HasColumn(frame, "GSTIN Number")
              && HasColumn(frame, "TML GSTIN")
              && HasColumn(frame, "IRN")
  {
    SourcedColumnsLow();
    SourcedColumnsHigh();
    FoundAt(frame, 23, "GSTIN Number");
    FoundAt(frame, 28, "TML GSTIN");
    FoundAt(frame, 30, "IRN");
  }

  lemma FoundSourced(frame: Frame)
    ensures MissingFrom(frame, 0).None? ==> HasSourcedKeys(frame)
  {
    FoundSourcedA(frame);
    FoundSourcedB(frame);
    FoundSourcedC(frame);
  }

  lemma NoneMissing(frame: Frame)
    ensures HasSourcedKeys(frame) ==> forall j :: 0 <= j < |ColumnTable| ==> !Missing(frame, j)
  {
    if HasSourcedKeys(frame) {
      SourcedColumns();
      forall j | 0 <= j < |ColumnTable|
        ensures !Missing(frame, j)
      {
        if ColumnTable[j].source.From? {
          var key := ColumnTable[j].source.key;
          assert key in {"PoNumber", "Quantity", "Vendor Challan No", "Challan Date", "Gross Rate", "Basic value", "IGST VALUE", "INVOICE VALUE", "GSTIN Number", "TML GSTIN", "IRN"};
        }
      }
    }
  }

  lemma StrictColumns(frame: Frame)
    ensures StrictProject(frame).Success? ==>
              var cols := StrictProject(frame).value;
              && |cols| == |ColumnTable|
              && forall j :: 0 <= j < |cols| ==>
                   && cols[j].0 == ColumnTable[j].name
                   && |cols[j].1| == |frame|
                   && forall k :: 0 <= k < |frame| ==> cols[j].1[k] == Project(frame[k])[j].1
  {
    ColumnsUpToSpec(frame, |ColumnTable|);
  }

  /** The projection of app.py:138-172 fails exactly when one of the keys
      it reads is not a column, and then on a key that is not a column;
      otherwise it yields all 34 columns, in order, each holding, row by
      row, the cell the one-record projection computes. */
  lemma StrictProjectSpec(frame: Frame)
    ensures StrictProject(frame).Success? <==> HasSourcedKeys(frame)
    ensures StrictProject(frame).Failure? ==> !HasColumn(frame, StrictProject(frame).error.key)
    ensures StrictProject(frame).Success? ==>
              var cols := StrictProject(frame).value;
              && |cols| == |ColumnTable|
              && forall j :: 0 <= j < |cols| ==>
                   && cols[j].0 == ColumnTable[j].name
                   && |cols[j].1| == |frame|
                   && forall k :: 0 <= k < |frame| ==> cols[j].1[k] == Project(frame[k])[j].1
  {
    FoundSourced(frame);
    NoneMissing(frame);
    StrictColumns(frame);
  }

  /** A rename target is a column of the renamed frame exactly when its
      source or the target itself was a column before. */
  lemma RenamedColumn(frame: Frame, e: nat)
    requires e < |RenameTable|
    ensures HasColumn(RenameFrame(frame), RenameTable[e].1) <==>
              HasColumn(frame, RenameTable[e].0) || HasColumn(frame, RenameTable[e].1)
  {
    var (src, dst) := RenameTable[e];
    var r := RenameFrame(frame);
    forall k | 0 <= k < |frame|
      ensures dst in r[k] <==> src in frame[k] || dst in frame[k]
    {
      RenamedEntry(frame[k], e);
    }
    if HasColumn(r, dst) {
      var k :| 0 <= k < |r| && dst in r[k];
      assert src in frame[k] || dst in frame[k];
    }
    if HasColumn(frame, src) || HasColumn(frame, dst) {
      var k :| 0 <= k < |frame| && (src in frame[k] || dst in frame[k]);
      assert dst in r[k];
    }
  }

  /** A key outside the rename table is a column of the renamed frame
      exactly when it was a column before. */
  lemma KeptColumn(frame: Frame, key: string)
    requires !Renamed(RenameTable, key)
    ensures HasColumn(RenameFrame(frame), key) <==> HasColumn(frame, key)
  {
    var r := RenameFrame(frame);
    forall k | 0 <= k < |frame|
      ensures key in r[k] <==> key in frame[k]
    {
      RenameKeeps(frame[k], key);
    }
    if HasColumn(r, key) {
      var k :| 0 <= k < |r| && key in r[k];
    }
    if HasColumn(frame, key) {
      var k :| 0 <= k < |frame| && key in frame[k];
      assert key in r[k];
    }
  }

  lemma RenamedColumnsLow(records: Frame)
    ensures var r := RenameFrame(records);
            && (HasColumn(r, "PoNumber") <==> HasColumn(records, "Buyer's Order No.") || HasColumn(records, "PoNumber"))
            && (HasColumn(r, "Vendor Challan No") <==> HasColumn(records, "InvoiceNo") || HasColumn(records, "Vendor Challan No"))
            && (HasColumn(r, "Challan Date") <==> HasColumn(records, "Ack Date") || HasColumn(records, "Challan Date"))
            && (HasColumn(r, "Basic value") <==> HasColumn(records, "Basic amount without tax") || HasColumn(records, "Basic value"))
  {
    RenamedColumn(records, 0);
    RenamedColumn(records, 1);
    RenamedColumn(records, 2);
    RenamedColumn(records, 3);
  }

  lemma RenamedColumnsHigh(records: Frame)
    ensures var r := RenameFrame(records);
            && (HasColumn(r, "IGST VALUE") <==> HasColumn(records, "IGST") || HasColumn(records, "IGST VALUE"))
            && (HasColumn(r, "INVOICE VALUE") <==> HasColumn(records, "Total Amount") || HasColumn(records, "INVOICE VALUE"))
            && (HasColumn(r, "Gross Rate") <==> HasColumn(records, "Rate") || HasColumn(records, "Gross Rate"))
  {
    RenamedColumn(records, 4);
    RenamedColumn(records, 5);
    RenamedColumn(records, 6);
  }

  lemma KeptColumns(records: Frame)
    ensures var r := RenameFrame(records);
            && (HasColumn(r, "Quantity") <==> HasColumn(records, "Quantity"))
            && (HasColumn(r, "GSTIN Number") <==> HasColumn(records, "GSTIN Number"))
            && (HasColumn(r, "TML GSTIN") <==> HasColumn(records, "TML GSTIN"))
            && (HasColumn(r, "IRN") <==> HasColumn(records, "IRN"))
  {
    assert !Renamed(RenameTable, "Quantity") && !Renamed(RenameTable, "GSTIN Number");
    assert !Renamed(RenameTable, "TML GSTIN") && !Renamed(RenameTable, "IRN");
    KeptColumn(records, "Quantity");
    KeptColumn(records, "GSTIN Number");
    KeptColumn(records, "TML GSTIN");
    KeptColumn(records, "IRN");
  }

  /** app.py:117-172 on the parsed records: the projection succeeds exactly
      when each of the eleven prompt fields is a column under its original
      or its renamed name. */
  lemma AppProjectionSucceeds(records: Frame)
    ensures StrictProject(RenameFrame(records)).Success? <==>
              && (HasColumn(records, "Buyer's Order No.") || HasColumn(records, "PoNumber"))
              && (HasColumn(records, "InvoiceNo") || HasColumn(records, "Vendor Challan No"))
              && (HasColumn(records, "Ack Date") || HasColumn(records, "Challan Date"))
              && (HasColumn(records, "Basic amount without tax") || HasColumn(records, "Basic value"))
              && (HasColumn(records, "IGST") || HasColumn(records, "IGST VALUE"))
              && (HasColumn(records, "Total Amount") || HasColumn(records, "INVOICE VALUE"))
              && (HasColumn(records, "Rate") || HasColumn(records, "Gross Rate"))
              && HasColumn(records, "Quantity")
              && HasColumn(records, "GSTIN Number")
              && HasColumn(records, "TML GSTIN")
              && HasColumn(records, "IRN")
  {
    StrictProjectSpec(RenameFrame(records));
    RenamedColumnsLow(records);
    RenamedColumnsHigh(records);
    KeptColumns(records);
  }

  /** When every field the prompt asks for is a column, as the prompt
      requests, the projection of app.py succeeds. */
  lemma PromptFieldsSuffice(records: Frame)
    requires forall i :: 0 <= i < |PromptFields| ==> HasColumn(records, PromptFields[i])
    ensures StrictProject(RenameFrame(records)).Success?
  {
    AppProjectionSucceeds(records);
    assert HasColumn(records, PromptFields[0]);
    assert HasColumn(records, PromptFields[1]);
    assert HasColumn(records, PromptFields[2]);
    assert HasColumn(records, PromptFields[3]);
    assert HasColumn(records, PromptFields[4]);
    assert HasColumn(records, PromptFields[5]);
    assert HasColumn(records, PromptFields[6]);
    assert HasColumn(records, PromptFields[7]);
    assert HasColumn(records, PromptFields[8]);
    assert HasColumn(records, PromptFields[9]);
    assert HasColumn(records, PromptFields[10]);
  }

  lemma StrictCell(records: Frame, j: nat, k: nat)
    requires StrictProject(RenameFrame(records)).Success?
    requires j < |ColumnTable| && k < |records|
    ensures var cols := StrictProject(RenameFrame(records)).value;
            && |cols| == |ColumnTable| && |cols[j].1| == |records|
            && |Transform(records)[k]| == |ColumnTable|
            && (cols[j].0, cols[j].1[k]) == Transform(records)[k][j]
  {
    StrictColumns(RenameFrame(records));
    assert Transform(records)[k] == Project(RenameFrame(records)[k]);
    ProjectAt(RenameFrame(records)[k], j);
  }

  /** Where the projection of app.py succeeds, its table holds the same
      cells as the rows `transform_data` of main.py yields: column `j` of
      the table, read at row `k`, is cell `j` of reshaped record `k`. */
  lemma StrictAgreesWithTransform(records: Frame)
    requires StrictProject(RenameFrame(records)).Success?
    ensures var cols := StrictProject(RenameFrame(records)).value;
            && |cols| == |ColumnTable|
            && forall j, k :: 0 <= j < |ColumnTable| && 0 <= k < |records| ==>
                 && |cols[j].1| == |records| && |Transform(records)[k]| == |ColumnTable|
                 && (cols[j].0, cols[j].1[k]) == Transform(records)[k][j]
  {
    StrictColumns(RenameFrame(records));
    forall j, k | 0 <= j < |ColumnTable| && 0 <= k < |records|
      ensures var cols := StrictProject(RenameFrame(records)).value;
              && |cols[j].1| == |records| && |Transform(records)[k]| == |ColumnTable|
              && (cols[j].0, cols[j].1[k]) == Transform(records)[k][j]
    {
      StrictCell(records, j, k);
    }
  }
}
