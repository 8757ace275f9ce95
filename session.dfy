/**
 * The session's row store `data_list` (dash_versi5.py:48-49) and the three
 * ways the page changes it: the manual form, the spreadsheet upload and the
 * per-row delete button; plus the display table built from it on every run.
 */
module Store {
  import opened Wrappers
  import opened Decimals
  import opened Cells
  import opened Frames

  /** The row the manual form appends: date, silo, researcher, then the 23 readings in `num_fields` order. */
  function ManualRow(date: string, silo: string, researcher: string, values: map<string, Decimal>): (r: Row)
    requires forall f :: f in NumFields ==> f in values
    ensures |r| == |Columns|
    ensures r[..3] == [Text(date), Text(silo), Text(researcher)]
    ensures forall k :: 0 <= k < |NumFields| ==> r[3 + k] == Num(values[NumFields[k]])
  {
    [Text(date), Text(silo), Text(researcher)] + seq(|NumFields|, k requires 0 <= k < |NumFields| => Num(values[NumFields[k]]))
  }

  /** Why `pd.DataFrame(data_list, columns=cols_all)` refuses the stored rows. */
  datatype TableError = WidthMismatch(width: nat)

  /** The number of columns pandas infers from a list of rows: the longest row's length. */
  function MaxWidth(rows: seq<Row>): (w: nat)
    ensures forall i :: 0 <= i < |rows| ==> |rows[i]| <= w
    ensures rows != [] ==> exists i :: 0 <= i < |rows| && |rows[i]| == w
    ensures rows == [] ==> w == 0
  {
    if rows == [] then 0
    else
      var w := MaxWidth(rows[..|rows| - 1]);
      var last := |rows[|rows| - 1]|;
      assert forall i :: 0 <= i < |rows| - 1 ==> rows[i] == rows[..|rows| - 1][i];
      if last > w then last else w
  }

  /** A shorter row is filled out with missing values. */
  function Pad(row: Row, width: nat): (r: Row)
    requires |row| <= width
    ensures |r| == width && r[..|row|] == row
    ensures forall k :: |row| <= k < width ==> r[k] == Missing
  {
    row + seq(width - |row|, _ => Missing)
  }

  function PadAll(rows: seq<Row>, width: nat): (r: seq<Row>)
    requires forall i :: 0 <= i < |rows| ==> |rows[i]| <= width
    ensures Rectangular(width, r)
  {
    seq(|rows|, i requires 0 <= i < |rows| => Pad(rows[i], width))
  }

  /**
   * The display table (dash_versi5.py:91-94): the stored rows under the 26
   * column names, cleaned unless there are none. Pandas refuses the rows when
   * the longest of them is not 26 cells wide.
   */
  function Table(rows: seq<Row>): (t: Result<seq<Row>, TableError>)
    ensures t.Ok? ==> |t.value| == |rows| && Rectangular(|Columns|, t.value)
    ensures t.Err? ==> rows != [] && t.error.width != |Columns|
  {
    if rows == [] then Ok([])
    else if MaxWidth(rows) != |Columns| then Err(WidthMismatch(MaxWidth(rows)))
    else Ok(CleanFrame(Columns, PadAll(rows, |Columns|)))
  }

  /** The rows the manual form and a well-formed upload produce: exactly 26 cells each. */
  predicate WellFormed(rows: seq<Row>) {
    Rectangular(|Columns|, rows)
  }

  /** `st.session_state`: the list of stored rows, kept across page runs. */
  class Session {
    var dataList: seq<Row>

    /** The first run of a session starts with no rows. */
    constructor ()
      ensures dataList == []
    {
      dataList := [];
    }

    /** "Simpan Data" (dash_versi5.py:74-77): append the form's row. */
    method SaveManual(date: string, silo: string, researcher: string, values: map<string, Decimal>)
      requires forall f :: f in NumFields ==> f in values
      modifies this
      ensures dataList == old(dataList) + [ManualRow(date, silo, researcher, values)]
    {
      dataList := dataList + [ManualRow(date, silo, researcher, values)];
    }

    /**
     * An uploaded sheet (dash_versi5.py:82-87): clean the uploaded frame in
     * place by its own column names, then append its rows in file order.
     * No column name is compared with the table's.
     */
    method Upload(up: Frame)
      requires Rectangular(|up.columns|, up.rows)
      modifies this, up
      ensures up.rows == CleanFrame(up.columns, old(up.rows))
      ensures dataList == old(dataList) + up.rows
    {
      CleanNumeric(up);
      dataList := dataList + up.rows;
    }

    /** The delete button of row i (dash_versi5.py:105-109): `data_list.pop(i)`. */
    method DeleteAt(i: nat)
      requires i < |dataList|
      modifies this
      ensures dataList == old(dataList)[..i] + old(dataList)[i + 1..]
    {
      dataList := dataList[..i] + dataList[i + 1..];
    }

    /** Build the display table from the store; the store itself is left alone. */
    method ToTable() returns (t: Result<seq<Row>, TableError>)
      ensures t == Table(dataList)
    {
      if dataList == [] {
        return Ok([]);
      }
      var width := MaxWidth(dataList);
      if width != |Columns| {
        return Err(WidthMismatch(width));
      }
      var df := new Frame(Columns, PadAll(dataList, width));
      CleanNumeric(df);
      return Ok(df.rows);
    }
  }
}

module StoreProofs {
  import opened Wrappers
  import opened Decimals
  import opened Cells
  import opened CellProofs
  import opened Frames
  import opened FrameProofs
  import opened Store

  /**
   * The table can be built exactly when the store is empty, or no row is
   * longer than 26 cells and at least one row is exactly 26 cells long.
   */
  lemma {:induction false} TableOkIff(rows: seq<Row>)
    ensures Table(rows).Ok? <==>
      rows == [] ||
      ((forall i :: 0 <= i < |rows| ==> |rows[i]| <= |Columns|) && exists i :: 0 <= i < |rows| && |rows[i]| == |Columns|)
  {
  }

  /** On rows of the right width padding does nothing: the table is the cleaned store. */
  lemma {:induction false} TableWellFormed(rows: seq<Row>)
    requires WellFormed(rows)
    ensures Table(rows) == Ok(CleanFrame(Columns, rows))
  {
    if rows != [] {
      MaxWidthIs(rows, 0);
      assert PadAll(rows, |Columns|) == rows by {
        forall k | 0 <= k < |rows|
          ensures PadAll(rows, |Columns|)[k] == rows[k]
        {
          assert seq(|Columns| - |rows[k]|, _ => Missing) == [];
          assert rows[k] + [] == rows[k];
        }
      }
    } else {
      assert CleanFrame(Columns, rows) == [];
    }
  }

  /**
   * One row longer than 26 cells makes the table unavailable, whatever else is
   * stored before or after it.
   */
  lemma {:induction false} WideRowBreaksTable(before: seq<Row>, row: Row, after: seq<Row>)
    requires |row| > |Columns|
    ensures Table(before + [row] + after) == Err(WidthMismatch(MaxWidth(before + [row] + after)))
  {
    var rows := before + [row] + after;
    assert rows[|before|] == row;
  }

  /** The longest row decides the width pandas infers. */
  lemma {:induction false} MaxWidthIs(rows: seq<Row>, k: nat)
    requires k < |rows| && forall i :: 0 <= i < |rows| ==> |rows[i]| <= |rows[k]|
    ensures MaxWidth(rows) == |rows[k]|
  {
    var w :| 0 <= w < |rows| && |rows[w]| == MaxWidth(rows);
  }

  /**
   * Rows shorter than 26 cells, such as an upload with fewer columns, are
   * padded with missing values once a full-width row is stored.
   */
  lemma {:induction false} NarrowRowsPadded(full: seq<Row>, narrow: seq<Row>)
    requires WellFormed(full) && full != []
    requires forall i :: 0 <= i < |narrow| ==> |narrow[i]| <= |Columns|
    ensures Table(full + narrow).Ok?
    ensures forall i :: 0 <= i < |narrow| ==>
      Table(full + narrow).value[|full| + i] == CleanRow(Columns, Pad(narrow[i], |Columns|))
  {
    var rows := full + narrow;
    NoRowWider(full, narrow);
    assert |rows[0]| == |Columns|;
    TableOfFullRow(rows, 0);
    forall i | 0 <= i < |narrow|
      ensures Table(rows).value[|full| + i] == CleanRow(Columns, Pad(narrow[i], |Columns|))
    {
      PaddedAt(rows, |full| + i);
      assert rows[|full| + i] == narrow[i];
    }
  }

  lemma {:induction false} NoRowWider(full: seq<Row>, narrow: seq<Row>)
    requires WellFormed(full)
    requires forall i :: 0 <= i < |narrow| ==> |narrow[i]| <= |Columns|
    ensures forall i :: 0 <= i < |full + narrow| ==> |(full + narrow)[i]| <= |Columns|
  {
    var rows := full + narrow;
    forall i | 0 <= i < |rows|
      ensures |rows[i]| <= |Columns|
    {
      if i >= |full| {
        assert rows[i] == narrow[i - |full|];
      }
    }
  }

  /** Row k of the padded, cleaned store is row k padded and cleaned. */
  lemma {:induction false} PaddedAt(rows: seq<Row>, k: nat)
    requires k < |rows| && forall i :: 0 <= i < |rows| ==> |rows[i]| <= |Columns|
    ensures CleanFrame(Columns, PadAll(rows, |Columns|))[k] == CleanRow(Columns, Pad(rows[k], |Columns|))
  {
  }

  /** With one full-width row and none wider, the table is the padded, cleaned store. */
  lemma {:induction false} TableOfFullRow(rows: seq<Row>, k: nat)
    requires k < |rows| && |rows[k]| == |Columns|
    requires forall i :: 0 <= i < |rows| ==> |rows[i]| <= |Columns|
    ensures Table(rows) == Ok(CleanFrame(Columns, PadAll(rows, |Columns|)))
  {
    MaxWidthIs(rows, k);
  }


  /**
   * Saving the form adds one table row at the end: the date, silo and
   * researcher as entered and the 23 readings in field order, each with its
   * value kept; the rows already shown do not change.
   */
  lemma {:induction false} SaveManualDisplay(rows: seq<Row>, date: string, silo: string, researcher: string, values: map<string, Decimal>)
    requires WellFormed(rows)
    requires forall f :: f in NumFields ==> f in values
    ensures var m := ManualRow(date, silo, researcher, values);
            && Table(rows + [m]).Ok?
            && var t := Table(rows + [m]).value;
            && |t| == |rows| + 1
            && t[..|rows|] == CleanFrame(Columns, rows)
            && t[|rows|][..3] == [Text(date), Text(silo), Text(researcher)]
            && forall k :: 0 <= k < |NumFields| ==> t[|rows|][3 + k] == Num(Canonicalize(values[NumFields[k]]))
  {
    var m := ManualRow(date, silo, researcher, values);
    assert WellFormed(rows + [m]);
    TableWellFormed(rows + [m]);
    CleanFrameAppend(Columns, rows, [m]);
    var t := Table(rows + [m]).value;
    assert t[|rows|] == CleanRow(Columns, m);
    CleanRowSchema(m);
  }

  /**
   * An upload whose sheet has the table's 26 columns is shown exactly as it
   * was cleaned on upload, after the rows already stored.
   */
  lemma {:induction false} UploadDisplay(rows: seq<Row>, up: seq<Row>)
    requires WellFormed(rows) && WellFormed(up)
    ensures WellFormed(CleanFrame(Columns, up))
    ensures Table(rows + CleanFrame(Columns, up)) == Ok(CleanFrame(Columns, rows) + CleanFrame(Columns, up))
  {
    var cleaned := CleanFrame(Columns, up);
    CleanFrameIdempotent(Columns, up);
    CleanFrameAppend(Columns, rows, cleaned);
    TableWellFormed(rows + cleaned);
  }

  /**
   * Deleting the only full-width row of a store whose other rows are narrower
   * breaks the table: pandas then infers fewer than 26 columns.
   */
  lemma {:induction false} DeleteLastFullRowBreaksTable(rows: seq<Row>, i: nat)
    requires i < |rows| && |rows| > 1 && |rows[i]| == |Columns|
    requires forall k :: 0 <= k < |rows| && k != i ==> |rows[k]| < |Columns|
    ensures Table(rows).Ok?
    ensures Table(rows[..i] + rows[i + 1..]).Err?
  {
    TableOkIff(rows);
    var rest := rows[..i] + rows[i + 1..];
    assert forall k :: 0 <= k < |rest| ==> |rest[k]| < |Columns| by {
      forall k | 0 <= k < |rest|
        ensures |rest[k]| < |Columns|
      {
        if k < i {
          assert rest[k] == rows[k];
        } else {
          assert rest[k] == rows[k + 1];
        }
      }
    }
    TableOkIff(rest);
  }

  /** Deleting row i removes exactly table row i; later rows move up by one. */
  lemma {:induction false} DeleteDisplay(rows: seq<Row>, i: nat)
    requires WellFormed(rows) && i < |rows|
    ensures var t := CleanFrame(Columns, rows);
            Table(rows[..i] + rows[i + 1..]) == Ok(t[..i] + t[i + 1..])
  {
    CleanFrameRemove(Columns, rows, i);
    TableWellFormed(rows[..i] + rows[i + 1..]);
  }

  /**
   * Nothing checks an uploaded sheet's headers: any 26 columns are stored by
   * position and displayed under the table's own names, so a sheet in another
   * column order puts its values under the wrong headings.
   */
  lemma {:induction false} UploadByPosition(rows: seq<Row>, columns: seq<string>, up: seq<Row>)
    requires WellFormed(rows) && |columns| == |Columns| && Rectangular(|columns|, up)
    ensures WellFormed(CleanFrame(columns, up))
    ensures Table(rows + CleanFrame(columns, up)) == Ok(CleanFrame(Columns, rows) + CleanFrame(Columns, CleanFrame(columns, up)))
  {
    var cleaned := CleanFrame(columns, up);
    CleanFrameAppend(Columns, rows, cleaned);
    TableWellFormed(rows + cleaned);
  }
}
