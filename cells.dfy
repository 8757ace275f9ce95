/**
 * One table cell and what `_clean_numeric` does to a cell of a numeric column
 * (dash_versi5.py:40-44): render it with `astype(str)`, normalise the text,
 * and coerce it to a number, a failure becoming a missing value.
 */
module Cells {
  import opened Wrappers
  import opened Decimals
  import opened DecimalProofs
  import opened NumericText
  import opened NumericTextProofs

  /**
   * A cell as it sits in the stored rows or in an uploaded sheet: a missing
   * value (NaN), a number, or any other value, which the cleaning only ever
   * sees as its text (dates included).
   */
  datatype Cell = Missing | Num(value: Decimal) | Text(text: string)

  /**
   * `astype(str)`: NaN prints as "nan", a number as its decimal text. The text
   * of a number reads back as that number and the text of NaN as no number;
   * neither holds a blank or a comma.
   */
  function AsText(c: Cell): (r: string)
    ensures c.Num? ==> Parse(r) == Some(Canonicalize(c.value))
    ensures c.Missing? ==> Parse(r) == None
    ensures !c.Text? ==> IsNormal(r)
  {
    match c
    case Missing => "nan"
    case Num(d) =>
      RenderParse(d);
      RenderCharset(d);
      NumberCharsNormal(Render(d));
      Render(d)
    case Text(s) => s
  }

  /** Text made only of digits, dots and minus signs has no blank and no comma. */
  lemma {:induction false} NumberCharsNormal(t: string)
    requires forall i :: 0 <= i < |t| ==> IsDigit(t[i]) || t[i] in ".-"
    ensures IsNormal(t)
  {
    forall i | 0 <= i < |t|
      ensures !IsWhitespace(t[i]) && t[i] != ','
    {
      assert IsDigit(t[i]) || t[i] == '.' || t[i] == '-';
    }
  }

  /** What a numeric column holds after cleaning: a missing value or a canonical number. */
  predicate IsCleaned(c: Cell) {
    c.Missing? || (c.Num? && Canonical(c.value))
  }

  /**
   * The first assignment to a numeric column (dash_versi5.py:39-43): the cell
   * as text, whitespace removed, commas turned into dots.
   */
  function NormalizeCell(c: Cell): (r: Cell)
    ensures r.Text? && IsNormal(r.text)
  {
    Text(Normalize(AsText(c)))
  }

  /**
   * The second assignment (dash_versi5.py:44): `pd.to_numeric` with
   * `errors="coerce"`, a text that is not a number becoming a missing value.
   */
  function Coerce(c: Cell): (r: Cell)
    ensures IsCleaned(r)
  {
    match Parse(AsText(c))
    case Some(d) => Num(d)
    case None => Missing
  }

  /**
   * A numeric-column cell after both assignments: missing or a canonical
   * number; a missing cell stays missing and a number keeps its value.
   */
  function CleanCell(c: Cell): (r: Cell)
    ensures IsCleaned(r)
    ensures c.Missing? ==> r == Missing
    ensures c.Num? ==> r == Num(Canonicalize(c.value))
  {
    NormalizeFixpoint(AsText(c));
    Coerce(NormalizeCell(c))
  }
}

module CellProofs {
  import opened Wrappers
  import opened Decimals
  import opened DecimalProofs
  import opened NumericText
  import opened NumericTextProofs
  import opened Cells

  /** A printed number holds no whitespace and no comma, so normalising leaves it alone. */
  lemma {:induction false} RenderIsNormal(d: Decimal)
    ensures Normalize(Render(d)) == Render(d)
  {
    var t := Render(d);
    RenderCharset(d);
    NumberCharsNormal(t);
    NormalizeFixpoint(t);
  }

  /** A text without a single digit can only become missing. */
  lemma {:induction false} CleanNoDigit(s: string)
    requires forall i :: 0 <= i < |s| ==> !IsDigit(s[i])
    ensures CleanCell(Text(s)) == Missing
  {
    var t := Normalize(s);
    NormalizeSubset(s);
    assert forall i :: 0 <= i < |t| ==> !IsDigit(t[i]);
    var body := Unsigned(t);
    assert forall i :: 0 <= i < |body| ==> !IsDigit(body[i]) by {
      if |t| > 0 && (t[0] == '-' || t[0] == '+') {
        assert forall i :: 0 <= i < |body| ==> body[i] == t[i + 1];
      }
    }
    ParseAcceptsExactly(t);
  }

  /** Cleaning a cleaned cell changes nothing: uploaded rows can be re-cleaned for display. */
  lemma {:induction false} CleanCellIdempotent(c: Cell)
    ensures CleanCell(CleanCell(c)) == CleanCell(c)
  {
    match CleanCell(c)
    case Missing =>
    case Num(d) => CanonicalizeFixpoint(d);
  }

  /**
   * A cell becomes missing exactly when its normalised text is not a number
   * text; otherwise its value is the parsed one, never an error and never
   * a made-up zero.
   */
  lemma {:induction false} CleanCellMissingIff(c: Cell)
    ensures CleanCell(c) == Missing <==> !IsNumberText(Normalize(AsText(c)))
    ensures CleanCell(c) != Missing ==> CleanCell(c) == Num(Parse(Normalize(AsText(c))).value)
  {
    ParseAcceptsExactly(Normalize(AsText(c)));
  }

  /** Digits with a decimal comma are read as the number they spell. */
  lemma {:induction false} CleanCommaNumber(a: string, c: string)
    requires AllDigits(a) && AllDigits(c) && |a| > 0 && |c| > 0
    ensures CleanCell(Text(a + "," + c)) == Num(Canonicalize(Decimal(DigitsValue(a + c), |c|)))
  {
    var t := a + "." + c;
    assert Normalize(a + "," + c) == t by {
      DigitsAreNormal(a);
      DigitsAreNormal(c);
      NormalizeAppend(a + ",", c);
      NormalizeAppend(a, ",");
      NormalizeSingle(',');
      NormalizeFixpoint(a);
      NormalizeFixpoint(c);
    }
    UnsignedDecimal(a, c);
  }

  /**
   * Digit groups separated by a space and a decimal comma, as in "1 234,56",
   * are read as the number the digits spell.
   */
  lemma {:induction false} CleanGroupedNumber(a: string, b: string, c: string)
    requires AllDigits(a) && AllDigits(b) && AllDigits(c) && |a| > 0 && |c| > 0
    ensures CleanCell(Text(a + " " + b + "," + c)) == Num(Canonicalize(Decimal(DigitsValue(a + b + c), |c|)))
  {
    assert Normalize(a + " " + b + "," + c) == (a + b) + "." + c by {
      DigitsAreNormal(a);
      DigitsAreNormal(b);
      DigitsAreNormal(c);
      NormalizeGroupedNumber(a, b, c);
    }
    UnsignedDecimal(a + b, c);
  }

  /** Unsigned digits, a dot and digits parse to the number they spell. */
  lemma {:induction false} UnsignedDecimal(whole: string, frac: string)
    requires AllDigits(whole) && AllDigits(frac) && |whole| + |frac| > 0
    ensures Parse(whole + "." + frac) == Some(Canonicalize(Decimal(DigitsValue(whole + frac), |frac|)))
  {
    ParseDecimalText("", whole, frac);
    assert "" + (whole + "." + frac) == whole + "." + frac;
  }

  lemma {:induction false} DigitsAreNormal(s: string)
    requires AllDigits(s)
    ensures IsNormal(s)
  {
  }

  /** Words and empty cells become missing rather than failing the whole clean. */
  lemma {:induction false} CleanNonNumbers()
    ensures CleanCell(Text("abc")) == Missing
    ensures CleanCell(Text("")) == Missing
    ensures CleanCell(Text(" ")) == Missing
  {
    var w := "abc";
    assert !IsDigit(w[0]) && !IsDigit(w[1]) && !IsDigit(w[2]);
    CleanNoDigit(w);
    CleanNoDigit("");
    CleanNoDigit(" ");
  }
}
