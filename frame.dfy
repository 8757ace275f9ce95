/**
 * The table schema and `_clean_numeric` (dash_versi5.py:35-45) over a frame
 * whose rows are updated in place, column by column.
 */
module Frames {
  import opened Decimals
  import opened Cells

  /** The identity columns `_clean_numeric` never touches. */
  const IdColumns: seq<string> := ["Tanggal", "Silo", "Peneliti"]

  /** The 23 measured quantities, in form and table order (`num_fields`). */
  const NumFields: seq<string> := [
    "SiO2", "Al2O3", "Fe2O3", "CaO", "MgO", "SO3", "C3S", "C2S", "C3A", "C4AF",
    "FL", "LOI", "Residu", "Blaine", "Insoluble", "Na2O", "K2O",
    "Kuat Tekan 1 Hari", "Kuat Tekan 3 Hari", "Kuat Tekan 7 Hari", "Kuat Tekan 28 Hari",
    "Setting Time Awal", "Setting Time Akhir"
  ]

  /** The 26 table columns (`cols_all`). */
  const Columns: seq<string> := IdColumns + NumFields

  predicate IsIdColumn(name: string) {
    name in IdColumns
  }

  type Row = seq<Cell>

  /** Every row has exactly `width` cells. */
  predicate Rectangular(width: nat, rows: seq<Row>) {
    forall i :: 0 <= i < |rows| ==> |rows[i]| == width
  }

  /** A row as `_clean_numeric` leaves it: identity cells kept, every other cell cleaned. */
  function CleanRow(columns: seq<string>, row: Row): (r: Row)
    requires |row| == |columns|
    ensures |r| == |row|
    ensures forall j :: 0 <= j < |row| && IsIdColumn(columns[j]) ==> r[j] == row[j]
    ensures forall j :: 0 <= j < |row| && !IsIdColumn(columns[j]) ==> IsCleaned(r[j])
  {
    seq(|row|, j requires 0 <= j < |row| => if IsIdColumn(columns[j]) then row[j] else CleanCell(row[j]))
  }

  /** The whole frame after `_clean_numeric`: every row cleaned on its own. */
  function CleanFrame(columns: seq<string>, rows: seq<Row>): (r: seq<Row>)
    requires Rectangular(|columns|, rows)
    ensures |r| == |rows| && Rectangular(|columns|, r)
    ensures forall i, j :: 0 <= i < |rows| && 0 <= j < |columns| ==>
      if IsIdColumn(columns[j]) then r[i][j] == rows[i][j] else IsCleaned(r[i][j])
  {
    seq(|rows|, i requires 0 <= i < |rows| => CleanRow(columns, rows[i]))
  }

  /** `df[col] = df[col].astype(str).str.replace(...)` for the column at index j. */
  function NormalizeColumn(rows: seq<Row>, j: nat): (r: seq<Row>)
    requires forall i :: 0 <= i < |rows| ==> j < |rows[i]|
    ensures |r| == |rows| && forall i :: 0 <= i < |rows| ==> |r[i]| == |rows[i]|
  {
    seq(|rows|, i requires 0 <= i < |rows| => rows[i][j := NormalizeCell(rows[i][j])])
  }

  /** `df[col] = pd.to_numeric(df[col], errors="coerce")` for the column at index j. */
  function CoerceColumn(rows: seq<Row>, j: nat): (r: seq<Row>)
    requires forall i :: 0 <= i < |rows| ==> j < |rows[i]|
    ensures |r| == |rows| && forall i :: 0 <= i < |rows| ==> |r[i]| == |rows[i]|
  {
    seq(|rows|, i requires 0 <= i < |rows| => rows[i][j := Coerce(rows[i][j])])
  }

  /** A frame: fixed column names and rows of cells that cleaning rewrites in place. */
  class Frame {
    const columns: seq<string>
    var rows: seq<Row>

    constructor (columns: seq<string>, rows: seq<Row>)
      ensures this.columns == columns && this.rows == rows
    {
      this.columns := columns;
      this.rows := rows;
    }
  }

  /** A row once the columns before index j have been processed. */
  function CleanedRowBefore(columns: seq<string>, row: Row, j: nat): (r: Row)
    requires |row| == |columns|
    ensures |r| == |row|
  {
    seq(|row|, k requires 0 <= k < |row| => if k < j && !IsIdColumn(columns[k]) then CleanCell(row[k]) else row[k])
  }

  /** The frame once the columns before index j have been processed. */
  function CleanedBefore(columns: seq<string>, rows: seq<Row>, j: nat): (r: seq<Row>)
    requires Rectangular(|columns|, rows)
    ensures Rectangular(|columns|, r) && |r| == |rows|
  {
    seq(|rows|, i requires 0 <= i < |rows| => CleanedRowBefore(columns, rows[i], j))
  }

  /** Every cell of column j cleaned, the rest of the frame as it was. */
  function CleanColumn(rows: seq<Row>, j: nat): (r: seq<Row>)
    requires forall i :: 0 <= i < |rows| ==> j < |rows[i]|
    ensures |r| == |rows| && forall i :: 0 <= i < |rows| ==> |r[i]| == |rows[i]|
  {
    seq(|rows|, i requires 0 <= i < |rows| => rows[i][j := CleanCell(rows[i][j])])
  }

  /**
   * One pass of the loop body of `_clean_numeric` (dash_versi5.py:39-44):
   * overwrite column j with its normalised text, then with the coerced numbers.
   */
  method CleanColumnInPlace(df: Frame, j: nat)
    requires Rectangular(|df.columns|, df.rows) && j < |df.columns|
    modifies df
    ensures df.rows == CleanColumn(old(df.rows), j)
  {
    ghost var before := df.rows;
    df.rows := NormalizeColumn(df.rows, j);
    df.rows := CoerceColumn(df.rows, j);
    NormalizeThenCoerce(before, j);
  }

  lemma {:induction false} NormalizeThenCoerce(rows: seq<Row>, j: nat)
    requires forall i :: 0 <= i < |rows| ==> j < |rows[i]|
    ensures CoerceColumn(NormalizeColumn(rows, j), j) == CleanColumn(rows, j)
  {
    var text := NormalizeColumn(rows, j);
    forall i | 0 <= i < |rows|
      ensures CoerceColumn(text, j)[i] == CleanColumn(rows, j)[i]
    {
      assert text[i] == rows[i][j := NormalizeCell(rows[i][j])];
    }
  }

  /**
   * `_clean_numeric`: every column not named as an identity column is
   * cleaned in place. Columns are independent, so the order pandas visits
   * them in does not matter.
   */
  method CleanNumeric(df: Frame)
    requires Rectangular(|df.columns|, df.rows)
    modifies df
    ensures df.rows == CleanFrame(df.columns, old(df.rows))
  {
    ghost var original := df.rows;
    var j := 0;
    CleanedNone(df.columns, original);
    while j < |df.columns|
      invariant 0 <= j <= |df.columns|
      invariant df.rows == CleanedBefore(df.columns, original, j)
    {
      VisitColumn(df, original, j);
      j := j + 1;
    }
    CleanedAll(df.columns, original);
  }

  /** One iteration of the column loop: column j is cleaned unless it is an identity column. */
  method VisitColumn(df: Frame, ghost original: seq<Row>, j: nat)
    requires Rectangular(|df.columns|, original) && j < |df.columns|
    requires df.rows == CleanedBefore(df.columns, original, j)
    modifies df
    ensures df.rows == CleanedBefore(df.columns, original, j + 1)
  {
    CleanStep(df.columns, original, j);
    if !IsIdColumn(df.columns[j]) {
      CleanColumnInPlace(df, j);
    }
  }

  /** Processing column j turns the frame cleaned before j into the frame cleaned before j + 1. */
  lemma {:induction false} CleanStep(columns: seq<string>, rows: seq<Row>, j: nat)
    requires Rectangular(|columns|, rows) && j < |columns|
    ensures var r := CleanedBefore(columns, rows, j);
            CleanedBefore(columns, rows, j + 1) == if IsIdColumn(columns[j]) then r else CleanColumn(r, j)
  {
    var r := CleanedBefore(columns, rows, j);
    var next := CleanedBefore(columns, rows, j + 1);
    forall i | 0 <= i < |rows|
      ensures next[i] == if IsIdColumn(columns[j]) then r[i] else CleanColumn(r, j)[i]
    {
      CleanRowStep(columns, rows[i], j);
    }
  }

  lemma {:induction false} CleanRowStep(columns: seq<string>, row: Row, j: nat)
    requires |row| == |columns| && j < |columns|
    ensures CleanedRowBefore(columns, row, j + 1) ==
      if IsIdColumn(columns[j]) then CleanedRowBefore(columns, row, j)
      else CleanedRowBefore(columns, row, j)[j := CleanCell(row[j])]
  {
    var before := CleanedRowBefore(columns, row, j);
    var after := CleanedRowBefore(columns, row, j + 1);
    var expected := if IsIdColumn(columns[j]) then before else before[j := CleanCell(row[j])];
    assert |after| == |expected|;
    forall k | 0 <= k < |row|
      ensures after[k] == expected[k]
    {
      if k != j {
        assert after[k] == before[k];
      }
    }
  }

  lemma {:induction false} CleanedNone(columns: seq<string>, rows: seq<Row>)
    requires Rectangular(|columns|, rows)
    ensures CleanedBefore(columns, rows, 0) == rows
  {
    var none := CleanedBefore(columns, rows, 0);
    forall i | 0 <= i < |rows|
      ensures none[i] == rows[i]
    {
      assert CleanedRowBefore(columns, rows[i], 0) == rows[i];
    }
  }

  lemma {:induction false} CleanedAll(columns: seq<string>, rows: seq<Row>)
    requires Rectangular(|columns|, rows)
    ensures CleanedBefore(columns, rows, |columns|) == CleanFrame(columns, rows)
  {
    var all := CleanedBefore(columns, rows, |columns|);
    forall i | 0 <= i < |rows|
      ensures all[i] == CleanRow(columns, rows[i])
    {
      assert CleanedRowBefore(columns, rows[i], |columns|) == CleanRow(columns, rows[i]);
    }
  }
}

module FrameProofs {
  import opened Decimals
  import opened Cells
  import opened CellProofs
  import opened Frames

  /** 26 columns: the three identity columns first, then the 23 numeric fields. */
  lemma {:induction false} SchemaShape()
    ensures |IdColumns| == 3 && |NumFields| == 23 && |Columns| == 26
    ensures forall j :: 0 <= j < |Columns| ==> (IsIdColumn(Columns[j]) <==> j < 3)
  {
    forall j | 3 <= j < |Columns|
      ensures !IsIdColumn(Columns[j])
    {
      assert Columns[j] == NumFields[j - 3];
      assert NumFields[j - 3][0] !in "TSP" || |NumFields[j - 3]| != 7;
    }
  }

  /**
   * On a row of the table schema, the date, silo and researcher cells come
   * through unchanged and each of the 23 measurements is cleaned on its own.
   */
  lemma {:induction false} CleanRowSchema(row: Row)
    requires |row| == |Columns|
    ensures var r := CleanRow(Columns, row);
            && |r| == |Columns|
            && r[..3] == row[..3]
            && (forall j :: 3 <= j < |Columns| ==> r[j] == CleanCell(row[j]) && IsCleaned(r[j]))
  {
    SchemaShape();
  }

  /** Cleaning a cleaned frame changes nothing. */
  lemma {:induction false} CleanRowIdempotent(columns: seq<string>, row: Row)
    requires |row| == |columns|
    ensures CleanRow(columns, CleanRow(columns, row)) == CleanRow(columns, row)
  {
    var once := CleanRow(columns, row);
    forall j | 0 <= j < |row|
      ensures CleanRow(columns, once)[j] == once[j]
    {
      CleanCellIdempotent(row[j]);
    }
  }

  lemma {:induction false} CleanFrameIdempotent(columns: seq<string>, rows: seq<Row>)
    requires Rectangular(|columns|, rows)
    ensures Rectangular(|columns|, CleanFrame(columns, rows))
    ensures CleanFrame(columns, CleanFrame(columns, rows)) == CleanFrame(columns, rows)
  {
    var once := CleanFrame(columns, rows);
    forall i | 0 <= i < |rows|
      ensures CleanFrame(columns, once)[i] == once[i]
    {
      CleanRowIdempotent(columns, rows[i]);
    }
  }

  /**
   * A cell that does not parse spoils nothing else: changing one cell of a row
   * changes only that cell of the cleaned row.
   */
  lemma {:induction false} CleanRowLocal(columns: seq<string>, row: Row, j: nat, c: Cell)
    requires |row| == |columns| && j < |row|
    ensures forall k :: 0 <= k < |row| && k != j ==> CleanRow(columns, row[j := c])[k] == CleanRow(columns, row)[k]
  {
  }

  /** Rows are cleaned independently, so cleaning commutes with concatenation. */
  lemma {:induction false} CleanFrameAppend(columns: seq<string>, a: seq<Row>, b: seq<Row>)
    requires Rectangular(|columns|, a) && Rectangular(|columns|, b)
    ensures Rectangular(|columns|, a + b)
    ensures CleanFrame(columns, a + b) == CleanFrame(columns, a) + CleanFrame(columns, b)
  {
  }

  /** Removing row i before or after cleaning gives the same frame. */
  lemma {:induction false} CleanFrameRemove(columns: seq<string>, rows: seq<Row>, i: nat)
    requires Rectangular(|columns|, rows) && i < |rows|
    ensures Rectangular(|columns|, rows[..i] + rows[i + 1..])
    ensures CleanFrame(columns, rows[..i] + rows[i + 1..]) == CleanFrame(columns, rows)[..i] + CleanFrame(columns, rows)[i + 1..]
  {
  }
}
