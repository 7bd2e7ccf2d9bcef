/** How `final_df` of main.py:109-143 gets its rows when pandas runs the
    assignments on `pd.DataFrame(all_data)`.

    `final_df` starts as `pd.DataFrame()`, with no rows.  Assigning a
    scalar to a frame without rows (`''`, `'INR'`, or the `None` that
    `df.get` returns for a key that is not a column) adds a column with no
    cells.  The first assignment of a Series gives the frame the Series'
    rows, and every column assigned before it is filled with NaN, modelled
    as a missing value.  When no assignment stores a Series, the frame
    keeps no rows at all. */
module FrameIndex {
  import opened Wrappers
  import opened Schema
  import opened Frame

  /** Column `j` stores a Series: it copies a key that is a column of the
      renamed frame, so `df.get` returns that column and not `None`. */
  predicate SeriesAt(frame: Frame, j: nat)
    requires j < |ColumnTable|
  {
    ColumnTable[j].source.From? && HasColumn(frame, ColumnTable[j].source.key)
  }

  /** The first assignment at or after `j` that stores a Series. */
  function FirstSeriesFrom(frame: Frame, j: nat): (r: Option<nat>)
    requires j <= |ColumnTable|
    ensures r.Some? ==> j <= r.value < |ColumnTable| && SeriesAt(frame, r.value)
    ensures r.Some? ==> forall i :: j <= i < r.value ==> !SeriesAt(frame, i)
    ensures r.None? ==> forall i :: j <= i < |ColumnTable| ==> !SeriesAt(frame, i)
    decreases |ColumnTable| - j
  {
    if j == |ColumnTable| then None
    else if SeriesAt(frame, j) then Some(j)
    else FirstSeriesFrom(frame, j + 1)
  }

  /** A row whose first `f` cells were assigned before the frame had rows. */
  function Unindexed(row: Row, f: nat): (r: Row) {
    seq(|row|, j requires 0 <= j < |row| => if j < f then (row[j].0, Src(None)) else row[j])
  }

  /** `transform_data` of main.py:92-145 as pandas runs it: no rows when no
      assignment stores a Series, and otherwise one row per record in
      which the cells assigned before the first Series are missing. */
  function PandasTransform(records: Frame): (rows: seq<Row>)
    ensures rows == [] <==>
              records == [] || forall j :: 0 <= j < |ColumnTable| ==> !SeriesAt(RenameFrame(records), j)
    ensures rows != [] ==> |rows| == |records|
  {
    match FirstSeriesFrom(RenameFrame(records), 0)
    case None => []
    case Some(f) => UnindexedRows(records, f)
  }

  /** Every record reshaped, with its first `f` cells missing. */
  function UnindexedRows(records: Frame, f: nat): (rows: seq<Row>)
    ensures |rows| == |records|
  {
    seq(|records|, k requires 0 <= k < |records| => Unindexed(Reshape(records[k]), f))
  }

  /** When some record carries the PO number, the first assignment stores
      a Series, so pandas gives exactly one reshaped row per record. */
  lemma PandasMatchesTransform(records: Frame)
    requires HasColumn(RenameFrame(records), "PoNumber")
    ensures PandasTransform(records) == Transform(records)
  {
    assert ColumnTable[0] == ColumnAt(0);
    assert SeriesAt(RenameFrame(records), 0);
    assert FirstSeriesFrom(RenameFrame(records), 0) == Some(0);
    forall k | 0 <= k < |records|
      ensures PandasTransform(records)[k] == Transform(records)[k]
    {
      UnindexedNone(Reshape(records[k]));
    }
  }

  lemma UnindexedNone(row: Row)
    ensures Unindexed(row, 0) == row
  {
  }

  /** A record that the renames leave empty keeps no field at all. */
  lemma RenameEmpty()
    ensures Rename(map[]) == map[]
  {
    RenameWithNoSources(map[], RenameTable);
  }

  /** Replies that all decode to `{}` give no assignment a Series, so the
      frame pandas builds has no rows, while one row per record is what the
      other assignments describe. */
  lemma EmptyRecordsNoRows(records: Frame)
    requires records != []
    requires forall k :: 0 <= k < |records| ==> records[k] == map[]
    ensures PandasTransform(records) == []
    ensures |Transform(records)| == |records|
  {
    RenameEmpty();
    var frame := RenameFrame(records);
    forall j | 0 <= j < |ColumnTable| ensures !SeriesAt(frame, j) {
      forall k | 0 <= k < |frame| ensures frame[k] == map[] {
      }
    }
  }

  /** With no PO number in any record but some other copied field, the
      "PO NUMBER" and "PO Item No" cells are missing values, not the copied
      value and the empty string. */
  lemma NoPoNumberCells(records: Frame)
    requires !HasColumn(RenameFrame(records), "PoNumber")
    requires PandasTransform(records) != []
    ensures forall k :: 0 <= k < |records| ==>
              && PandasTransform(records)[k][0] == ("PO NUMBER", Src(None))
              && PandasTransform(records)[k][1] == ("PO Item No", Src(None))
  {
    var frame := RenameFrame(records);
    assert ColumnTable[0] == ColumnAt(0) && ColumnTable[1] == ColumnAt(1);
    assert !SeriesAt(frame, 0) && !SeriesAt(frame, 1);
    var f := FirstSeriesFrom(frame, 0).value;
    assert 2 <= f;
    forall k | 0 <= k < |records|
      ensures && PandasTransform(records)[k][0] == ("PO NUMBER", Src(None))
              && PandasTransform(records)[k][1] == ("PO Item No", Src(None))
    {
      ReshapeHeader(records[k]);
    }
  }
}
