/**
 * The text half of numeric-cell cleaning (dash_versi5.py:40-42): every
 * whitespace character is deleted (the regex `\s`), then every ',' becomes '.'.
 */
module NumericText {

  /**
   * What `\s` matches in a Python `str` pattern: the characters `str.isspace()`
   * accepts (ASCII blanks, the information separators U+001C-U+001F, NEL, the
   * no-break spaces and the Unicode space separators).
   */
  predicate IsWhitespace(c: char)
    ensures IsWhitespace(c) ==> c != ',' && c != '.' && c != '-' && c != '+' && !('0' <= c <= '9')
    ensures c in " \t\n\r\U{A0}" ==> IsWhitespace(c)
  {
    || ('\t' <= c <= '\r')
    || ('\U{1C}' <= c <= ' ')
    || c == '\U{85}' || c == '\U{A0}' || c == '\U{1680}'
    || ('\U{2000}' <= c <= '\U{200A}')
    || c == '\U{2028}' || c == '\U{2029}' || c == '\U{202F}' || c == '\U{205F}' || c == '\U{3000}'
  }

  /** `.str.replace(r"\s", "", regex=True)` */
  function RemoveWhitespace(s: string): (r: string)
    ensures |r| <= |s|
    ensures forall i :: 0 <= i < |r| ==> !IsWhitespace(r[i])
  {
    if s == [] then []
    else if IsWhitespace(s[0]) then RemoveWhitespace(s[1..])
    else [s[0]] + RemoveWhitespace(s[1..])
  }

  /** `.str.replace(",", ".", regex=False)` */
  function CommaToDot(s: string): (r: string)
    ensures |r| == |s|
    ensures forall i :: 0 <= i < |s| ==> r[i] != ',' && (r[i] == s[i] || (s[i] == ',' && r[i] == '.'))
  {
    seq(|s|, i requires 0 <= i < |s| => if s[i] == ',' then '.' else s[i])
  }

  /** The cell text after both replacements, ready for the numeric parse. */
  function Normalize(s: string): (r: string)
    ensures IsNormal(r) && |r| <= |s|
  {
    CommaToDot(RemoveWhitespace(s))
  }

  /** What one input character contributes: nothing, a dot, or itself. */
  function NormalizeChar(c: char): string
  {
    if IsWhitespace(c) then [] else if c == ',' then "." else [c]
  }

  /** Text that the two replacements leave untouched. */
  predicate IsNormal(s: string) {
    forall i :: 0 <= i < |s| ==> !IsWhitespace(s[i]) && s[i] != ','
  }
}

module NumericTextProofs {
  import opened NumericText

  lemma {:induction false} RemoveWhitespaceAppend(a: string, b: string)
    ensures RemoveWhitespace(a + b) == RemoveWhitespace(a) + RemoveWhitespace(b)
    decreases |a|
  {
    if a == [] {
      assert a + b == b;
    } else {
      assert (a + b)[1..] == a[1..] + b;
      RemoveWhitespaceAppend(a[1..], b);
    }
  }

  lemma {:induction false} CommaToDotAppend(a: string, b: string)
    ensures CommaToDot(a + b) == CommaToDot(a) + CommaToDot(b)
  {
  }

  /**
   * Normalisation works character by character: the text of a + b is the text
   * of a followed by the text of b, so order is kept.
   */
  lemma {:induction false} NormalizeAppend(a: string, b: string)
    ensures Normalize(a + b) == Normalize(a) + Normalize(b)
  {
    RemoveWhitespaceAppend(a, b);
    CommaToDotAppend(RemoveWhitespace(a), RemoveWhitespace(b));
  }

  /** A whitespace character vanishes, a comma becomes one dot, anything else is kept. */
  lemma {:induction false} NormalizeSingle(c: char)
    ensures Normalize([c]) == NormalizeChar(c)
  {
    assert [c][1..] == [];
  }

  /** Normalize is the concatenation of what each character contributes. */
  lemma {:induction false} NormalizeByChars(s: string, i: nat)
    requires i <= |s|
    ensures Normalize(s[..i]) == NormalizeChars(s[..i])
    decreases i
  {
    if i > 0 {
      NormalizeByChars(s, i - 1);
      assert s[..i] == s[..i - 1] + [s[i - 1]];
      NormalizeAppend(s[..i - 1], [s[i - 1]]);
      NormalizeSingle(s[i - 1]);
    }
  }

  /** Reference definition: the characters' contributions, left to right. */
  function NormalizeChars(s: string): string
  {
    if s == [] then [] else NormalizeChars(s[..|s| - 1]) + NormalizeChar(s[|s| - 1])
  }

  lemma {:induction false} RemoveWhitespaceFixpoint(s: string)
    requires forall i :: 0 <= i < |s| ==> !IsWhitespace(s[i])
    ensures RemoveWhitespace(s) == s
    decreases |s|
  {
    if s != [] {
      RemoveWhitespaceFixpoint(s[1..]);
      assert [s[0]] + s[1..] == s;
    }
  }

  /** Normalising introduces no character other than the dot. */
  lemma {:induction false} RemoveWhitespaceSubset(s: string)
    ensures forall i :: 0 <= i < |RemoveWhitespace(s)| ==> RemoveWhitespace(s)[i] in s
    decreases |s|
  {
    if s != [] {
      RemoveWhitespaceSubset(s[1..]);
      assert forall c :: c in s[1..] ==> c in s;
    }
  }

  lemma {:induction false} NormalizeSubset(s: string)
    ensures forall i :: 0 <= i < |Normalize(s)| ==> Normalize(s)[i] in s || Normalize(s)[i] == '.'
  {
    RemoveWhitespaceSubset(s);
  }

  /** The two replacements change a text exactly when it holds whitespace or a comma. */
  lemma {:induction false} NormalizeFixpoint(s: string)
    ensures Normalize(s) == s <==> IsNormal(s)
  {
    if IsNormal(s) {
      RemoveWhitespaceFixpoint(s);
    }
  }

  /** Cleaning already cleaned text changes nothing. */
  lemma {:induction false} NormalizeIdempotent(s: string)
    ensures Normalize(Normalize(s)) == Normalize(s)
  {
    NormalizeFixpoint(Normalize(s));
  }

  lemma {:induction false} NormalizeEqualsChars(s: string)
    ensures Normalize(s) == NormalizeChars(s)
  {
    NormalizeByChars(s, |s|);
    assert s[..|s|] == s;
  }

  /** A decimal comma: "12,5" is cleaned to "12.5". */
  lemma {:induction false} NormalizeDecimalComma()
    ensures Normalize("12,5") == "12.5"
  {
    var s := "12,5";
    NormalizeEqualsChars(s);
    assert s[..3] == "12,";
    assert s[..2] == "12";
    assert s[..1] == "1";
  }

  /**
   * A thousands space and a decimal comma around already clean pieces, as in
   * "1 234,56", which is cleaned to "1234.56".
   */
  lemma {:induction false} NormalizeGroupedNumber(a: string, b: string, c: string)
    requires IsNormal(a) && IsNormal(b) && IsNormal(c)
    ensures Normalize(a + " " + b + "," + c) == a + b + "." + c
  {
    NormalizeAppend(a + " " + b + ",", c);
    NormalizeAppend(a + " " + b, ",");
    NormalizeAppend(a + " ", b);
    NormalizeAppend(a, " ");
    NormalizeSingle(' ');
    NormalizeSingle(',');
    NormalizeFixpoint(a);
    NormalizeFixpoint(b);
    NormalizeFixpoint(c);
  }

  /** A cell holding only blanks, of whatever kind, is cleaned to the empty text. */
  lemma {:induction false} NormalizeBlank(s: string)
    requires forall i :: 0 <= i < |s| ==> IsWhitespace(s[i])
    ensures Normalize(s) == ""
    decreases |s|
  {
    if s != [] {
      NormalizeBlank(s[1..]);
    }
  }
}
