/** The record reshaper of main.py:92-145 (`transform_data`), whose inline
    copy is app.py:114-172, taken one record (one DataFrame row) at a time.

    A record is the JSON object the model returned for one invoice, a map
    from field names to JSON values.  Reshaping
    first applies seven guarded renames to its keys, then projects it onto
    a fixed list of 34 output columns, each of which is copied from a
    (renamed) field, the constant "INR", or the empty string. */
module Schema {
  import opened Wrappers

  /** A JSON value as `json.loads` produces it; a number keeps its literal
      text, so that no floating point is involved. */
  datatype Value =
    | Null
    | Bool(truth: bool)
    | Number(literal: string)
    | Text(chars: string)
    | Array(items: seq<Value>)
    | Object(members: seq<(string, Value)>)

  type Record = map<string, Value>

  /** One output cell: the empty string, a constant text, or the value
      copied from a field (`None` where `df.get` finds no value). */
  datatype Cell = Empty | Const(text: string) | Src(value: Option<Value>)

  /** An output row: column names with their cells, in column order. */
  type Row = seq<(string, Cell)>

  /** Where an output column takes its value from. */
  datatype Source = Blank | Literal(text: string) | From(key: string)

  datatype Column = Column(name: string, source: Source)

  /** The seven renames of main.py:94-107, in program order:
      (field the model returns, name used by the projection). */
  const RenameTable: seq<(string, string)> := [
    ("Buyer's Order No.", "PoNumber"),
    ("InvoiceNo", "Vendor Challan No"),
    ("Ack Date", "Challan Date"),
    ("Basic amount without tax", "Basic value"),
    ("IGST", "IGST VALUE"),
    ("Total Amount", "INVOICE VALUE"),
    ("Rate", "Gross Rate")
  ]

  /** Column `j` of the 34 column assignments of main.py:110-143, in
      program order. */
  function ColumnAt(j: nat): (c: Column)
    requires j < 34
    ensures c.source.Blank? <==> c.name in BlankColumns
    ensures c.source.Literal? <==> c == Column("Currency", Literal("INR"))
  {
    match j
    case 0 => Column("PO NUMBER", From("PoNumber"))
    case 1 => Column("PO Item No", Blank)
    case 2 => Column("Quantity", From("Quantity"))
    case 3 => Column("VENDOR CHALLAN NO", From("Vendor Challan No"))
    case 4 => Column("Challan Date", From("Challan Date"))
    case 5 => Column("Gross Rate", From("Gross Rate"))
    case 6 => Column("Net P O Rate", From("Gross Rate"))
    case 7 => Column("Basic Value", From("Basic value"))
    case 8 => Column("Taxable Value", From("Basic value"))
    case 9 => Column("SGST VALUE", Blank)
    case 10 => Column("CGST VALUE", Blank)
    case 11 => Column("IGST VALUE", From("IGST VALUE"))
    case 12 => Column("SGST RATE", Blank)
    case 13 => Column("CGST RATE", Blank)
    case 14 => Column("IGST RATE", Blank)
    case 15 => Column("Packing Amount", Blank)
    case 16 => Column("Freight Amount", Blank)
    case 17 => Column("Others Amount", Blank)
    case 18 => Column("INVOICE VALUE", From("INVOICE VALUE"))
    case 19 => Column("Currency", Literal("INR"))
    case 20 => Column("E Way Bill", Blank)
    case 21 => Column("57F4 NUMBER", Blank)
    case 22 => Column("57F4 NO DATE", Blank)
    case 23 => Column("GSTIN Number", From("GSTIN Number"))
    case 24 => Column("Vehicle Number", Blank)
    case 25 => Column("PART REV Level", Blank)
    case 26 => Column("COP Certificate", Blank)
    case 27 => Column("Certificate Date", Blank)
    case 28 => Column("TML GSTIN", From("TML GSTIN"))
    case 29 => Column("Digital Invoice File Name", Blank)
    case 30 => Column("IRN", From("IRN"))
    case 31 => Column("TCS Value", Blank)
    case 32 => Column("Field4", Blank)
    case _ => Column("Field5", Blank)
  }

  /** The 34 column assignments of main.py:110-143. */
  function Columns(): (s: seq<Column>)
    ensures |s| == 34
    ensures forall j :: 0 <= j < 34 ==> s[j] == ColumnAt(j)
  {
    seq(34, j requires 0 <= j < 34 => ColumnAt(j))
  }

  const ColumnTable: seq<Column> := Columns()

  /** The published output header: the 34 column names, in order, as the
      CSV export and the JSON rows carry them. */
  const Header: seq<string> := [
    "PO NUMBER", "PO Item No", "Quantity", "VENDOR CHALLAN NO", "Challan Date",
    "Gross Rate", "Net P O Rate", "Basic Value", "Taxable Value", "SGST VALUE",
    "CGST VALUE", "IGST VALUE", "SGST RATE", "CGST RATE", "IGST RATE",
    "Packing Amount", "Freight Amount", "Others Amount", "INVOICE VALUE", "Currency",
    "E Way Bill", "57F4 NUMBER", "57F4 NO DATE", "GSTIN Number", "Vehicle Number",
    "PART REV Level", "COP Certificate", "Certificate Date", "TML GSTIN",
    "Digital Invoice File Name", "IRN", "TCS Value", "Field4", "Field5"
  ]

  /** The twenty columns that are always the empty string. */
  const BlankColumns: set<string> := {
    "PO Item No", "SGST VALUE", "CGST VALUE", "SGST RATE", "CGST RATE", "IGST RATE",
    "Packing Amount", "Freight Amount", "Others Amount", "E Way Bill", "57F4 NUMBER",
    "57F4 NO DATE", "Vehicle Number", "PART REV Level", "COP Certificate",
    "Certificate Date", "Digital Invoice File Name", "TCS Value", "Field4", "Field5"
  }

  /** The eleven fields the extraction prompt asks for (main.py:54-64). */
  const PromptFields: seq<string> := [
    "Buyer's Order No.", "Quantity", "Rate", "Basic amount without tax", "IGST",
    "Total Amount", "InvoiceNo", "Ack Date", "GSTIN Number", "TML GSTIN", "IRN"
  ]

  /** `df.rename(columns={src: dst})` on one row, done only when the key is
      present: the value moves from `src` to `dst`, all other keys stay. */
  function RenameKey(rec: Record, src: string, dst: string): (r: Record)
    ensures src in rec && src != dst ==> src !in r
    ensures src in rec ==> dst in r && r[dst] == rec[src]
    ensures src !in rec ==> r == rec
    ensures forall k :: k != src && k != dst ==> (k in r <==> k in rec)
    ensures forall k :: k != src && k != dst && k in r ==> r[k] == rec[k]
  {
    if src in rec then (rec - {src})[dst := rec[src]] else rec
  }

  /** The guarded renames of `table`, applied in order. */
  function RenameWith(rec: Record, table: seq<(string, string)>): (r: Record)
    decreases |table|
    ensures forall k :: k in r && k !in rec ==> Renamed(table, k)
  {
    if table == [] then rec
    else
      var last := table[|table| - 1];
      RenameKey(RenameWith(rec, table[..|table| - 1]), last.0, last.1)
  }

  /** Step 1 of the reshaper: the seven renames of main.py:94-107. */
  function Rename(rec: Record): (r: Record)
    ensures forall e :: 0 <= e < |RenameTable| ==> RenameTable[e].0 !in r
    ensures forall e :: 0 <= e < |RenameTable| ==>
      (RenameTable[e].1 in r <==> RenameTable[e].0 in rec || RenameTable[e].1 in rec)
  {
    RenameTableDisjoint();
    RenameWithSpec(rec, RenameTable);
    RenameWith(rec, RenameTable)
  }

  /** `k` is the source or the target of some entry of `table`. */
  predicate Renamed(table: seq<(string, string)>, k: string) {
    exists e :: 0 <= e < |table| && (table[e].0 == k || table[e].1 == k)
  }

  /** A rename table whose sources are distinct, whose targets are distinct,
      and in which no target is also a source, so that the renames do not
      interfere with one another. */
  predicate Disjoint(table: seq<(string, string)>) {
    forall e, f :: 0 <= e < |table| && 0 <= f < |table| ==>
      table[e].0 != table[f].1 && (e != f ==> table[e].0 != table[f].0 && table[e].1 != table[f].1)
  }

  /** Entry `e` of the rename table shares no name with any other entry,
      and its source is no entry's target. */
  lemma DisjointRow(e: nat)
    requires e < |RenameTable|
    ensures forall f :: 0 <= f < |RenameTable| ==>
      RenameTable[e].0 != RenameTable[f].1 && RenameTable[f].0 != RenameTable[e].1 &&
      (f != e ==> RenameTable[e].0 != RenameTable[f].0 && RenameTable[e].1 != RenameTable[f].1)
  {
    if e == 0 {
    } else if e == 1 {
    } else if e == 2 {
    } else if e == 3 {
    } else if e == 4 {
    } else if e == 5 {
    } else {
    }
  }

  /** The seven renames do not interfere with one another. */
  lemma RenameTableDisjoint()
    ensures Disjoint(RenameTable)
  {
    forall e | 0 <= e < |RenameTable|
      ensures forall f :: 0 <= f < |RenameTable| ==>
        RenameTable[e].0 != RenameTable[f].1 && RenameTable[f].0 != RenameTable[e].1 &&
        (f != e ==> RenameTable[e].0 != RenameTable[f].0 && RenameTable[e].1 != RenameTable[f].1)
    {
      DisjointRow(e);
    }
  }

  /** What a table of non-interfering guarded renames does to a record:
      every source key disappears; every target key is present exactly when
      its source or the target itself was, holding the source's value when
      the source was present; every key outside the table is untouched. */
  lemma {:induction false} RenameWithSpec(rec: Record, table: seq<(string, string)>)
    requires Disjoint(table)
    decreases |table|
    ensures var r := RenameWith(rec, table);
            forall e :: 0 <= e < |table| ==>
              && table[e].0 !in r
              && (table[e].1 in r <==> table[e].0 in rec || table[e].1 in rec)
              && (table[e].0 in rec ==> r[table[e].1] == rec[table[e].0])
              && (table[e].0 !in rec && table[e].1 in rec ==> r[table[e].1] == rec[table[e].1])
    ensures var r := RenameWith(rec, table);
            forall k :: !Renamed(table, k) ==> (k in r <==> k in rec) && (k in r ==> r[k] == rec[k])
  {
    if table != [] {
      var init := table[..|table| - 1];
      var last := table[|table| - 1];
      assert Disjoint(init);
      RenameWithSpec(rec, init);
      var mid := RenameWith(rec, init);
      assert forall e :: 0 <= e < |init| ==> init[e] == table[e];
      assert forall k :: !Renamed(table, k) ==> !Renamed(init, k) && k != last.0 && k != last.1 by {
        forall k | !Renamed(table, k) ensures !Renamed(init, k) && k != last.0 && k != last.1 {
          assert forall e :: 0 <= e < |init| ==> init[e].0 != k && init[e].1 != k;
          assert table[|table| - 1] == last;
        }
      }
      assert !Renamed(init, last.0) && !Renamed(init, last.1) by {
        assert table[|table| - 1] == last;
        forall e | 0 <= e < |init|
          ensures init[e].0 != last.0 && init[e].1 != last.0 && init[e].0 != last.1 && init[e].1 != last.1
        {
          assert table[e] == init[e];
        }
      }
    }
  }

  /** A table of renames leaves a record without any of its sources alone. */
  lemma {:induction false} RenameWithNoSources(rec: Record, table: seq<(string, string)>)
    requires forall e :: 0 <= e < |table| ==> table[e].0 !in rec
    decreases |table|
    ensures RenameWith(rec, table) == rec
  {
    if table != [] {
      RenameWithNoSources(rec, table[..|table| - 1]);
    }
  }

  /** Renaming twice is renaming once: the targets are disjoint from the
      sources, so a renamed record has nothing left to rename. */
  lemma RenameIdempotent(rec: Record)
    ensures Rename(Rename(rec)) == Rename(rec)
  {
    RenameTableDisjoint();
    RenameWithSpec(rec, RenameTable);
    RenameWithNoSources(Rename(rec), RenameTable);
  }

  /** `df.get(key)` read on one row: the value, or `None` where the row has
      no such key (pandas gives NaN or `None`, never an exception). */
  function Lookup(rec: Record, key: string): (r: Option<Value>)
    ensures r.Some? <==> key in rec
    ensures r.Some? ==> r.value == rec[key]
  {
    if key in rec then Some(rec[key]) else None
  }

  /** The cell a column source produces for a renamed record. */
  function CellOf(source: Source, rec: Record): (c: Cell) {
    match source
    case Blank => Empty
    case Literal(text) => Const(text)
    case From(key) => Src(Lookup(rec, key))
  }

  /** Step 2 of the reshaper: the projection of main.py:109-143 on one
      renamed record. */
  function Project(rec: Record): (r: Row)
    ensures |r| == |Header|
    ensures forall i :: 0 <= i < |r| ==> r[i].0 == Header[i]
  {
    ColumnNames();
    seq(|ColumnTable|, i requires 0 <= i < |ColumnTable| =>
      (ColumnTable[i].name, CellOf(ColumnTable[i].source, rec)))
  }

  /** `transform_data` on one record: rename, then project. */
  function Reshape(rec: Record): (r: Row)
    ensures |r| == |Header|
  {
    Project(Rename(rec))
  }

  /** `transform_data` on a whole table, row by row. */
  function Transform(records: seq<Record>): (rows: seq<Row>)
    ensures |rows| == |records|
    ensures forall k :: 0 <= k < |rows| ==> |rows[k]| == |Header|
  {
    seq(|records|, i requires 0 <= i < |records| => Reshape(records[i]))
  }

  /** The value a renamed column ends up with, read in the record as the
      model returned it: the field under its original name when present,
      else under the renamed name, else nothing. */
  function FieldValue(rec: Record, field: string, renamed: string): (v: Option<Value>) {
    if field in rec then Some(rec[field]) else Lookup(rec, renamed)
  }

  lemma HeaderDistinctLow()
    ensures forall i, j :: 0 <= i < j < 17 ==> Header[i] != Header[j]
  {
  }

  lemma HeaderDistinctHigh()
    ensures forall i, j :: 17 <= i < j < 34 ==> Header[i] != Header[j]
  {
  }

  lemma HeaderDistinctAcross()
    ensures forall i, j :: 0 <= i < 17 <= j < 34 ==> Header[i] != Header[j]
  {
  }

  /** The header is 34 distinct names, so the 34 column assignments of the
      projection create 34 different columns. */
  lemma HeaderDistinct()
    ensures |Header| == 34
    ensures forall i, j :: 0 <= i < j < |Header| ==> Header[i] != Header[j]
  {
    HeaderDistinctLow();
    HeaderDistinctHigh();
    HeaderDistinctAcross();
  }

  /** Every reshaped row has exactly the 34 header columns in header order,
      whatever keys the record had; in particular a key that is not a
      header name (an extra field invented by the model) never appears. */
  lemma ReshapeHeader(rec: Record)
    ensures |Reshape(rec)| == |Header|
    ensures forall i :: 0 <= i < |Header| ==> Reshape(rec)[i].0 == Header[i]
    ensures forall k :: k !in Header ==> forall i :: 0 <= i < |Header| ==> Reshape(rec)[i].0 != k
  {
  }

  /** The column table names the header, column by column. */
  lemma ColumnNames()
    ensures |ColumnTable| == |Header|
    ensures forall i :: 0 <= i < |Header| ==> ColumnTable[i].name == Header[i]
  {
    assert forall i :: 0 <= i < |Header| ==> ColumnTable[i].name == Header[i];
  }

  /** The columns copied from a field, with the field each reads. */
  lemma SourcedColumnsLow()
    ensures && ColumnAt(0).source == From("PoNumber")
            && ColumnAt(2).source == From("Quantity")
            && ColumnAt(3).source == From("Vendor Challan No")
            && ColumnAt(4).source == From("Challan Date")
            && ColumnAt(5).source == From("Gross Rate")
            && ColumnAt(7).source == From("Basic value")
  {
  }

  lemma SourcedColumnsHigh()
    ensures && ColumnAt(11).source == From("IGST VALUE")
            && ColumnAt(18).source == From("INVOICE VALUE")
            && ColumnAt(23).source == From("GSTIN Number")
            && ColumnAt(28).source == From("TML GSTIN")
            && ColumnAt(30).source == From("IRN")
  {
  }

  /** Cell `j` of a projected row comes from column `j` of the table. */
  lemma ProjectAt(rec: Record, j: nat)
    requires j < 34
    ensures |Project(rec)| == 34
    ensures Project(rec)[j] == (ColumnAt(j).name, CellOf(ColumnAt(j).source, rec))
  {
  }

  lemma ProjectConstants0(rec: Record)
    ensures var row := Project(rec);
            && row[19] == ("Currency", Const("INR"))
            && row[1] == ("PO Item No", Empty)
            && row[9] == ("SGST VALUE", Empty)
            && row[10] == ("CGST VALUE", Empty)
  {
    ProjectAt(rec, 19);
    ProjectAt(rec, 1);
    ProjectAt(rec, 9);
    ProjectAt(rec, 10);
  }

  lemma ProjectConstants1(rec: Record)
    ensures var row := Project(rec);
            && row[12] == ("SGST RATE", Empty)
            && row[13] == ("CGST RATE", Empty)
            && row[14] == ("IGST RATE", Empty)
            && row[15] == ("Packing Amount", Empty)
  {
    ProjectAt(rec, 12);
    ProjectAt(rec, 13);
    ProjectAt(rec, 14);
    ProjectAt(rec, 15);
  }

  lemma ProjectConstants2(rec: Record)
    ensures var row := Project(rec);
            && row[16] == ("Freight Amount", Empty)
            && row[17] == ("Others Amount", Empty)
            && row[20] == ("E Way Bill", Empty)
            && row[21] == ("57F4 NUMBER", Empty)
  {
    ProjectAt(rec, 16);
    ProjectAt(rec, 17);
    ProjectAt(rec, 20);
    ProjectAt(rec, 21);
  }

  lemma ProjectConstants3(rec: Record)
    ensures var row := Project(rec);
            && row[22] == ("57F4 NO DATE", Empty)
            && row[24] == ("Vehicle Number", Empty)
            && row[25] == ("PART REV Level", Empty)
            && row[26] == ("COP Certificate", Empty)
  {
    ProjectAt(rec, 22);
    ProjectAt(rec, 24);
    ProjectAt(rec, 25);
    ProjectAt(rec, 26);
  }

  lemma ProjectConstants4(rec: Record)
    ensures var row := Project(rec);
            && row[27] == ("Certificate Date", Empty)
            && row[29] == ("Digital Invoice File Name", Empty)
            && row[31] == ("TCS Value", Empty)
            && row[32] == ("Field4", Empty)
  {
    ProjectAt(rec, 27);
    ProjectAt(rec, 29);
    ProjectAt(rec, 31);
    ProjectAt(rec, 32);
  }

  lemma ProjectConstants5(rec: Record)
    ensures var row := Project(rec);
            && row[33] == ("Field5", Empty)
  {
    ProjectAt(rec, 33);
  }

  /** The constant columns: "Currency" is always "INR" (main.py:129) and
      twenty columns are always the empty string (main.py:111, 119-120,
      122-127, 130-132, 134-137, 139, 141-143), whatever the record holds. */
  lemma ReshapeConstantCells(rec: Record)
    ensures var row := Reshape(rec);
            && row[19] == ("Currency", Const("INR"))
            && row[1] == ("PO Item No", Empty)
            && row[9] == ("SGST VALUE", Empty)
            && row[10] == ("CGST VALUE", Empty)
            && row[12] == ("SGST RATE", Empty)
            && row[13] == ("CGST RATE", Empty)
            && row[14] == ("IGST RATE", Empty)
            && row[15] == ("Packing Amount", Empty)
            && row[16] == ("Freight Amount", Empty)
            && row[17] == ("Others Amount", Empty)
            && row[20] == ("E Way Bill", Empty)
            && row[21] == ("57F4 NUMBER", Empty)
            && row[22] == ("57F4 NO DATE", Empty)
            && row[24] == ("Vehicle Number", Empty)
            && row[25] == ("PART REV Level", Empty)
            && row[26] == ("COP Certificate", Empty)
            && row[27] == ("Certificate Date", Empty)
            && row[29] == ("Digital Invoice File Name", Empty)
            && row[31] == ("TCS Value", Empty)
            && row[32] == ("Field4", Empty)
            && row[33] == ("Field5", Empty)
  {
    ProjectConstants0(Rename(rec));
    ProjectConstants1(Rename(rec));
    ProjectConstants2(Rename(rec));
    ProjectConstants3(Rename(rec));
    ProjectConstants4(Rename(rec));
    ProjectConstants5(Rename(rec));
  }

  /** The twenty columns named in `BlankColumns` are exactly the columns
      whose cell is the empty string, whatever the record holds. */
  lemma BlankColumnsEmpty(rec: Record)
    ensures forall j :: 0 <= j < |Header| ==>
      (Reshape(rec)[j].1 == Empty <==> Header[j] in BlankColumns)
  {
    forall j | 0 <= j < |Header|
      ensures Reshape(rec)[j].1 == Empty <==> Header[j] in BlankColumns
    {
      ProjectAt(Rename(rec), j);
      ColumnNames();
    }
  }

  lemma ProjectSourced0(rec: Record)
    ensures var row := Project(rec);
            && row[0] == ("PO NUMBER", Src(Lookup(rec, "PoNumber")))
            && row[2] == ("Quantity", Src(Lookup(rec, "Quantity")))
            && row[3] == ("VENDOR CHALLAN NO", Src(Lookup(rec, "Vendor Challan No")))
            && row[4] == ("Challan Date", Src(Lookup(rec, "Challan Date")))
  {
    ProjectAt(rec, 0);
    ProjectAt(rec, 2);
    ProjectAt(rec, 3);
    ProjectAt(rec, 4);
  }

  lemma ProjectSourced1(rec: Record)
    ensures var row := Project(rec);
            && row[5] == ("Gross Rate", Src(Lookup(rec, "Gross Rate")))
            && row[6] == ("Net P O Rate", Src(Lookup(rec, "Gross Rate")))
            && row[7] == ("Basic Value", Src(Lookup(rec, "Basic value")))
            && row[8] == ("Taxable Value", Src(Lookup(rec, "Basic value")))
  {
    ProjectAt(rec, 5);
    ProjectAt(rec, 6);
    ProjectAt(rec, 7);
    ProjectAt(rec, 8);
  }

  lemma ProjectSourced2(rec: Record)
    ensures var row := Project(rec);
            && row[11] == ("IGST VALUE", Src(Lookup(rec, "IGST VALUE")))
            && row[18] == ("INVOICE VALUE", Src(Lookup(rec, "INVOICE VALUE")))
            && row[23] == ("GSTIN Number", Src(Lookup(rec, "GSTIN Number")))
            && row[28] == ("TML GSTIN", Src(Lookup(rec, "TML GSTIN")))
  {
    ProjectAt(rec, 11);
    ProjectAt(rec, 18);
    ProjectAt(rec, 23);
    ProjectAt(rec, 28);
  }

  lemma ProjectSourced3(rec: Record)
    ensures var row := Project(rec);
            && row[30] == ("IRN", Src(Lookup(rec, "IRN")))
  {
    ProjectAt(rec, 30);
  }

  lemma RenamedEntry(rec: Record, e: nat)
    requires e < |RenameTable|
    ensures Lookup(Rename(rec), RenameTable[e].1) == FieldValue(rec, RenameTable[e].0, RenameTable[e].1)
  {
    RenameTableDisjoint();
    RenameWithSpec(rec, RenameTable);
  }

  lemma RenameKeeps(rec: Record, k: string)
    requires !Renamed(RenameTable, k)
    ensures Lookup(Rename(rec), k) == Lookup(rec, k)
  {
    RenameTableDisjoint();
    RenameWithSpec(rec, RenameTable);
  }

  /** The renamed record, read in the record as the model returned it: each
      projected field holds its original field's value. */
  lemma RenamedFields(rec: Record)
    ensures var r := Rename(rec);
            && Lookup(r, "PoNumber") == FieldValue(rec, "Buyer's Order No.", "PoNumber")
            && Lookup(r, "Vendor Challan No") == FieldValue(rec, "InvoiceNo", "Vendor Challan No")
            && Lookup(r, "Challan Date") == FieldValue(rec, "Ack Date", "Challan Date")
            && Lookup(r, "Basic value") == FieldValue(rec, "Basic amount without tax", "Basic value")
            && Lookup(r, "IGST VALUE") == FieldValue(rec, "IGST", "IGST VALUE")
            && Lookup(r, "INVOICE VALUE") == FieldValue(rec, "Total Amount", "INVOICE VALUE")
            && Lookup(r, "Gross Rate") == FieldValue(rec, "Rate", "Gross Rate")
            && Lookup(r, "Quantity") == Lookup(rec, "Quantity")
            && Lookup(r, "GSTIN Number") == Lookup(rec, "GSTIN Number")
            && Lookup(r, "TML GSTIN") == Lookup(rec, "TML GSTIN")
            && Lookup(r, "IRN") == Lookup(rec, "IRN")
  {
    RenamedEntry(rec, 0);
    RenamedEntry(rec, 1);
    RenamedEntry(rec, 2);
    RenamedEntry(rec, 3);
    RenamedEntry(rec, 4);
    RenamedEntry(rec, 5);
    RenamedEntry(rec, 6);
    RenameKeeps(rec, "Quantity");
    RenameKeeps(rec, "GSTIN Number");
    RenameKeeps(rec, "TML GSTIN");
    RenameKeeps(rec, "IRN");
  }

  /** The copied columns (main.py:110, 112-118, 121, 128, 133, 138, 140):
      each holds the value of the field the prompt asked for, under its
      original name or its renamed one, and `None` when the record has
      neither; "Net P O Rate" repeats "Gross Rate" and "Taxable Value"
      repeats "Basic Value". */
  lemma ReshapeSourcedCells(rec: Record)
    ensures var row := Reshape(rec);
            && row[0] == ("PO NUMBER", Src(FieldValue(rec, "Buyer's Order No.", "PoNumber")))
            && row[2] == ("Quantity", Src(Lookup(rec, "Quantity")))
            && row[3] == ("VENDOR CHALLAN NO", Src(FieldValue(rec, "InvoiceNo", "Vendor Challan No")))
            && row[4] == ("Challan Date", Src(FieldValue(rec, "Ack Date", "Challan Date")))
            && row[5] == ("Gross Rate", Src(FieldValue(rec, "Rate", "Gross Rate")))
            && row[7] == ("Basic Value", Src(FieldValue(rec, "Basic amount without tax", "Basic value")))
            && row[11] == ("IGST VALUE", Src(FieldValue(rec, "IGST", "IGST VALUE")))
            && row[18] == ("INVOICE VALUE", Src(FieldValue(rec, "Total Amount", "INVOICE VALUE")))
            && row[23] == ("GSTIN Number", Src(Lookup(rec, "GSTIN Number")))
            && row[28] == ("TML GSTIN", Src(Lookup(rec, "TML GSTIN")))
            && row[30] == ("IRN", Src(Lookup(rec, "IRN")))
            && row[6] == ("Net P O Rate", row[5].1)
            && row[8] == ("Taxable Value", row[7].1)
  {
    RenamedFields(rec);
    ProjectSourced0(Rename(rec));
    ProjectSourced1(Rename(rec));
    ProjectSourced2(Rename(rec));
    ProjectSourced3(Rename(rec));
  }
}
