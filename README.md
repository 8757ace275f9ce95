# Cement quality recorder: row store and numeric cleaning

This project models the data core of a Streamlit page that records cement
quality measurements (`dash_versi5.py`). The page keeps a list of rows in the
session. Each row holds a date, a silo, a researcher and 23 measured
quantities (oxide contents, clinker phases, fineness, compressive strengths,
setting times). The model covers four things:

- the manual form appends one row;
- an uploaded spreadsheet is cleaned and its rows are appended;
- a delete button removes one row;
- on every run the list is turned into a 26-column table and cleaned again.

Cleaning (`_clean_numeric`) leaves the three identity columns (`Tanggal`,
`Silo`, `Peneliti`) alone. Every other cell is handled in three steps:

1. it is rendered as text;
2. all whitespace is removed and every comma becomes a dot;
3. it is coerced to a number, and text that is not a number becomes a missing value.

Files:

- `wrappers.dfy`: the `Option` and `Result` datatypes.
- `decimals.dfy`: exact decimal numbers, how they are printed, and the decimal grammar
  that stands in for `pd.to_numeric`. It proves that printing and parsing are a round
  trip, and that the parser accepts exactly the grammar.
- `numeric_text.dfy`: the whitespace and comma replacements, proved character by
  character.
- `cells.dfy`: a table cell, the two cell steps of cleaning, and what cleaning does
  to numbers, missing values and text.
- `frame.dfy`: the 26-column schema, a `Frame` class whose rows `_clean_numeric`
  overwrites column by column, and the properties of a cleaned frame.
- `session.dfy`: the `Session` class holding `data_list`, its save, upload and delete
  operations, the display table, and end-to-end properties of the table after each
  operation.

Two behaviours follow directly from the code:

- No column name of an uploaded sheet is compared with `cols_all`
  (dash_versi5.py:84-87).
  - The uploaded frame is cleaned by its own column names, and its rows are stored
    by position (`UploadByPosition`).
  - A sheet wider than 26 columns makes the table itself fail on every later run
    (`WideRowBreaksTable`).
  - A narrower sheet is padded with missing values, but only while at least one
    stored row has all 26 cells (`NarrowRowsPadded`). If no stored row is 26 cells
    wide, for example after a narrow sheet is uploaded into an empty store, building
    the table fails (`TableOkIff`).
- Delete buttons are drawn only for indices of the displayed table
  (dash_versi5.py:105-109), so `pop(i)` never gets an invalid index. `DeleteAt`
  requires a valid index, and `Table` has one row per stored row, so every button's
  index is valid.
- A delete can break the table. If the deleted row was the only 26-cell row and the
  other rows are narrower, the next run's `pd.DataFrame(data_list, columns=cols_all)`
  fails (`DeleteLastFullRowBreaksTable`).

## Model

| member | source | states |
|---|---|---|
| `Decimals.Pow10` | dash_versi5.py:44 | powers of ten used for decimal values are at least 1 |
| `Decimals.Canonicalize` | dash_versi5.py:44 | a coerced number is stored in its unique spelling, with no trailing fractional zero and no more fractional digits than before |
| `Decimals.CanonicalizeSameValue` | dash_versi5.py:44 | canonicalising keeps the numeric value |
| `Decimals.CanonicalizeFixpoint` | dash_versi5.py:44 | an already canonical number is left unchanged |
| `Decimals.CanonicalUnique` | dash_versi5.py:44 | two canonical numbers with the same value are equal, so equal values give equal cells |
| `Decimals.SameValueTransitive` | dash_versi5.py:44 | equality of decimal values is transitive |
| `Decimals.NatToDigits` | dash_versi5.py:40 | the digit text of a natural number spells that number and has no leading zero unless the number is 0 |
| `Decimals.PadDigits` | dash_versi5.py:40 | padding digit text with leading zeros keeps its value |
| `Decimals.DigitsAppend` | dash_versi5.py:44 | the value of concatenated digit strings is positional |
| `Decimals.Render` | dash_versi5.py:40 | `astype(str)` of a number starts with '-' exactly when it is negative, and has exactly `scale` digits after its dot |
| `Decimals.Parse` | dash_versi5.py:44 | a successful coercion yields a canonical number |
| `DecimalProofs.RenderParse` | dash_versi5.py:40-44 | rendering a number as text (`astype(str)`) and coercing it back gives the same value in canonical spelling |
| `DecimalProofs.ParseAcceptsExactly` | dash_versi5.py:44 | coercion succeeds exactly on texts with an optional sign, then digits and at most one dot, with at least one digit |
| `DecimalProofs.ParseDecimalText` | dash_versi5.py:44 | an optional sign, digits, a dot and digits, with at least one digit in all ("+5.", ".5", "-0.50"), coerce to the signed number the digits spell, with the fractional digit count as scale |
| `DecimalProofs.ParseIntegerText` | dash_versi5.py:44 | an optional sign and digits without a dot ("+5", "007") coerce to the signed integer the digits spell |
| `DecimalProofs.RenderCharset` | dash_versi5.py:40 | a rendered number contains only digits, '.', and '-' |
| `DecimalProofs.DotIndexSpec` | dash_versi5.py:44 | the split point of a number text is its first dot, or the end of the text |
| `NumericText.IsWhitespace` | dash_versi5.py:41 | the characters `\s` matches include the blank, tab, line breaks and the no-break space, and never a digit, sign, dot or comma |
| `NumericText.RemoveWhitespace` | dash_versi5.py:41 | the result contains no whitespace character and is no longer than the input |
| `NumericText.CommaToDot` | dash_versi5.py:42 | the length is kept, no comma remains, and only commas change, each into a dot |
| `NumericText.Normalize` | dash_versi5.py:41-42 | normalised text contains no whitespace and no comma and is no longer than the input |
| `NumericTextProofs.NormalizeAppend` | dash_versi5.py:40-42 | normalisation of a concatenation is the concatenation of the normalisations, so character order is kept |
| `NumericTextProofs.NormalizeSingle` | dash_versi5.py:41-42 | a whitespace character vanishes, a comma becomes exactly one dot, and any other character is kept |
| `NumericTextProofs.NormalizeByChars` | dash_versi5.py:40-42 | normalisation equals the left-to-right concatenation of each character's contribution |
| `NumericTextProofs.NormalizeSubset` | dash_versi5.py:40-42 | every output character is a dot or a character of the input |
| `NumericTextProofs.NormalizeFixpoint` | dash_versi5.py:40-42 | normalisation leaves a text unchanged if and only if it has no whitespace and no comma |
| `NumericTextProofs.NormalizeIdempotent` | dash_versi5.py:40-42 | normalising twice equals normalising once |
| `NumericTextProofs.NormalizeDecimalComma` | dash_versi5.py:42 | "12,5" becomes "12.5" |
| `NumericTextProofs.NormalizeGroupedNumber` | dash_versi5.py:41-42 | a space between digit groups is removed and the decimal comma becomes a dot ("1 234,56" becomes "1234.56") |
| `NumericTextProofs.NormalizeBlank` | dash_versi5.py:41 | any text made only of whitespace characters becomes the empty text |
| `Cells.AsText` | dash_versi5.py:40 | the text of a number reads back as that number, the text of a missing value ("nan") as no number, and neither holds whitespace or a comma |
| `Cells.NormalizeCell` | dash_versi5.py:39-43 | the first assignment turns a cell into text with no whitespace and no comma |
| `Cells.Coerce` | dash_versi5.py:44 | the second assignment yields a missing value or a canonical number, never an error |
| `Cells.CleanCell` | dash_versi5.py:39-44 | a cleaned cell is missing or a canonical number; a missing cell stays missing and a numeric cell keeps its value |
| `CellProofs.RenderIsNormal` | dash_versi5.py:40-42 | the text of a number is unchanged by the replacements |
| `CellProofs.CleanNoDigit` | dash_versi5.py:44 | a text without a digit becomes missing |
| `CellProofs.CleanCellIdempotent` | dash_versi5.py:35-45 | cleaning a cleaned cell changes nothing |
| `CellProofs.CleanCellMissingIff` | dash_versi5.py:44 | a cell becomes missing if and only if its normalised text is not a number text; otherwise it holds the parsed value, not zero |
| `CellProofs.CleanCommaNumber` | dash_versi5.py:40-44 | digits with a decimal comma become the number they spell |
| `CellProofs.CleanGroupedNumber` | dash_versi5.py:40-44 | digit groups separated by a space, with a decimal comma, become the number the digits spell |
| `CellProofs.CleanNonNumbers` | dash_versi5.py:44 | "abc", "" and " " become missing rather than an error or zero |
| `Frames.CleanRow` | dash_versi5.py:37-44 | a cleaned row keeps its length and its identity cells, and every other cell is missing or a canonical number |
| `Frames.CleanFrame` | dash_versi5.py:35-45 | a cleaned frame has the same number of rows, all of the frame's width; identity cells are kept and every other cell is missing or a canonical number |
| `Frames.Frame.constructor` | dash_versi5.py:92 | a frame holds the given column names and rows |
| `Frames.NormalizeColumn` | dash_versi5.py:39-43 | rewriting one column keeps the frame's shape |
| `Frames.CoerceColumn` | dash_versi5.py:44 | coercing one column keeps the frame's shape |
| `Frames.CleanColumn` | dash_versi5.py:38-44 | cleaning one column keeps the frame's shape |
| `Frames.NormalizeThenCoerce` | dash_versi5.py:39-44 | the two assignments to a column together clean each of its cells |
| `Frames.CleanColumnInPlace` | dash_versi5.py:39-44 | the loop body overwrites column j of the frame with its cleaned cells and changes nothing else |
| `Frames.CleanNumeric` | dash_versi5.py:35-45 | after the column loop, the frame's rows are the cleaned frame of its old rows: identity columns kept, every other cell cleaned |
| `Frames.VisitColumn` | dash_versi5.py:37-44 | one loop iteration turns the frame cleaned before column j into the frame cleaned before column j + 1, skipping identity columns |
| `Frames.CleanStep` | dash_versi5.py:38-44 | one loop iteration cleans column j exactly when it is not an identity column |
| `Frames.CleanedAll` | dash_versi5.py:37-44 | once every column is visited, the frame is fully cleaned |
| `FrameProofs.SchemaShape` | dash_versi5.py:63-91 | the table has 26 columns, of which exactly the first three are identity columns |
| `FrameProofs.CleanRowSchema` | dash_versi5.py:37-44 | on a table row, date, silo and researcher are unchanged, and each of the 23 measurements becomes missing or a canonical number |
| `FrameProofs.CleanRowIdempotent` | dash_versi5.py:35-45 | cleaning a cleaned row changes nothing |
| `FrameProofs.CleanFrameIdempotent` | dash_versi5.py:35-45 | cleaning a cleaned frame changes nothing |
| `FrameProofs.CleanRowLocal` | dash_versi5.py:38-44 | changing one cell changes only that cell of the cleaned row, so one bad cell spoils nothing else |
| `FrameProofs.CleanFrameAppend` | dash_versi5.py:35-45 | rows are cleaned independently, so cleaning commutes with concatenation |
| `FrameProofs.CleanFrameRemove` | dash_versi5.py:35-45 | removing a row before or after cleaning gives the same frame |
| `Store.ManualRow` | dash_versi5.py:75-77 | the form's row has 26 cells: date, silo and researcher, then the 23 readings in field order |
| `Store.MaxWidth` | dash_versi5.py:92 | the inferred width is at least every row's length and equals some row's length |
| `Store.Pad` | dash_versi5.py:92 | a padded row has the target width, starts with the original row and is filled with missing values |
| `Store.PadAll` | dash_versi5.py:92 | padding gives every row the same width |
| `Store.Table` | dash_versi5.py:92-94 | a built table has one row per stored row, each 26 cells wide, so every delete button indexes a stored row; a failure happens only on a non-empty store whose inferred width is not 26 |
| `Store.Session.constructor` | dash_versi5.py:48-49 | a new session starts with no rows |
| `Store.Session.SaveManual` | dash_versi5.py:74-77 | the store becomes the old rows plus exactly one form row at the end |
| `Store.Session.Upload` | dash_versi5.py:84-87 | the uploaded frame is cleaned in place by its own column names, and its rows are appended in file order |
| `Store.Session.DeleteAt` | dash_versi5.py:105-109 | exactly row i is removed and later rows move up one place |
| `Store.Session.ToTable` | dash_versi5.py:91-94 | the display table equals `Table` of the store |
| `StoreProofs.MaxWidthIs` | dash_versi5.py:92 | the inferred width is the length of the longest row |
| `StoreProofs.TableOkIff` | dash_versi5.py:92 | the table can be built if and only if the store is empty, or no row exceeds 26 cells and some row has exactly 26 |
| `StoreProofs.TableWellFormed` | dash_versi5.py:91-94 | over 26-wide rows, the table is the cleaned store |
| `StoreProofs.WideRowBreaksTable` | dash_versi5.py:92 | any stored row wider than 26 cells makes the table fail, whatever else is stored |
| `StoreProofs.NarrowRowsPadded` | dash_versi5.py:92-94 | when the store begins with one or more full-width rows and no row is wider, shorter rows are padded with missing values and cleaned; without a full-width row the table fails (see `TableOkIff`) |
| `StoreProofs.SaveManualDisplay` | dash_versi5.py:75-94 | on a store whose rows all have 26 cells, after a save the table gains one last row with the identity fields as entered and every reading's value kept, and the earlier rows are unchanged |
| `StoreProofs.UploadDisplay` | dash_versi5.py:85-94 | on a store whose rows all have 26 cells, the rows of a sheet whose header is `cols_all` in that order are displayed exactly as they were cleaned on upload, after the existing rows; a 26-column sheet in another order is covered by `UploadByPosition` |
| `StoreProofs.UploadByPosition` | dash_versi5.py:85-92 | on a store whose rows all have 26 cells, the rows of any 26-column upload are stored by position and displayed under the table's own column names |
| `StoreProofs.DeleteDisplay` | dash_versi5.py:104-109 | on a store whose rows all have 26 cells, after deleting row i the table is the old table without row i |
| `StoreProofs.DeleteLastFullRowBreaksTable` | dash_versi5.py:92-109 | on a store of two or more rows where only row i has 26 cells and the others are narrower, the table builds, but after deleting row i it fails |

## Left out

- The Streamlit page, its widgets, reruns and messages are not modelled. Operations
  are method calls on `Session`. The re-run after a delete and the repeated ingestion
  of a still-selected upload file on every page run are not modelled.
- Reading the Excel file, writing the download file, `describe()` and the charts are
  not modelled. An uploaded sheet arrives as a `Frame` whose cells are numbers,
  missing values or text.
- Numbers are exact decimals, not IEEE doubles. The manual form's readings are taken
  as exact decimals. Rounding and float printing are not modelled: Python prints
  small floats with an exponent (`1e-05`), while `Render` always uses positional
  notation.
- `Decimals.Parse` covers a sign, digits and one dot. Texts with an exponent ("1e5")
  and "inf" become missing values in the model, while `pd.to_numeric` turns them into
  numbers. The text `nan` and texts with an
  underscore come out as missing values in pandas under `errors="coerce"`, as they do
  in the model.
- Dates are carried as text. Identity columns are never cleaned, so their type does
  not matter to cleaning.
- The order in which `columns.difference` visits columns is not modelled: it sorts
  them, and the model visits them by index. Each column is cleaned independently, so
  the result is the same.
- A frame with duplicate column names is not modelled. Pandas then returns a frame
  rather than a column.
- `Store.Table` models only the shape rule of `pd.DataFrame(data_list, columns=cols_all)`:
  rows are padded to the longest row, and construction fails unless that length is 26.
  Pandas' error message is not modelled.
