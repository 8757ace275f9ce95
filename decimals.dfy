/**
 * Exact decimal numbers and the restricted decimal grammar that stands in for
 * `pd.to_numeric` on one text cell (dash_versi5.py:44): an optional sign, digits,
 * at most one dot, at least one digit. A number is a mantissa and a count of
 * fractional digits, value = mantissa / 10^scale.
 */
module Decimals {
  import opened Wrappers

  datatype Decimal = Decimal(mantissa: int, scale: nat)

  function Pow10(n: nat): (p: nat)
    ensures p >= 1
  {
    if n == 0 then 1 else 10 * Pow10(n - 1)
  }

  /** a and b denote the same rational number. */
  ghost predicate SameValue(a: Decimal, b: Decimal) {
    a.mantissa * Pow10(b.scale) == b.mantissa * Pow10(a.scale)
  }

  /** No trailing zero in the fractional part: the unique spelling of a value. */
  predicate Canonical(d: Decimal) {
    d.scale == 0 || d.mantissa % 10 != 0
  }

  lemma {:induction false} SameValueTransitive(a: Decimal, b: Decimal, c: Decimal)
    requires SameValue(a, b) && SameValue(b, c)
    ensures SameValue(a, c)
  {
    var pa, pb, pc := Pow10(a.scale), Pow10(b.scale), Pow10(c.scale);
    calc {
      a.mantissa * pc * pb;
      { MulSwap(a.mantissa, pc, pb); }
      a.mantissa * pb * pc;
      b.mantissa * pa * pc;
      { MulSwap(b.mantissa, pa, pc); }
      b.mantissa * pc * pa;
      c.mantissa * pb * pa;
      { MulSwap(c.mantissa, pb, pa); }
      c.mantissa * pa * pb;
    }
    CancelPositive(a.mantissa * pc, c.mantissa * pa, pb);
  }

  lemma {:induction false} MulSwap(x: int, y: int, z: int)
    ensures x * y * z == x * z * y
  {
  }

  lemma {:induction false} CancelPositive(x: int, y: int, k: int)
    requires k > 0 && x * k == y * k
    ensures x == y
  {
    assert (x - y) * k == x * k - y * k == 0;
  }

  lemma {:induction false} DropTrailingZero(d: Decimal)
    requires d.scale > 0 && d.mantissa % 10 == 0
    ensures SameValue(Decimal(d.mantissa / 10, d.scale - 1), d)
  {
    var q := d.mantissa / 10;
    assert d.mantissa == 10 * q;
    assert Pow10(d.scale) == 10 * Pow10(d.scale - 1);
    calc {
      q * Pow10(d.scale);
      q * (10 * Pow10(d.scale - 1));
      (10 * q) * Pow10(d.scale - 1);
      d.mantissa * Pow10(d.scale - 1);
    }
  }

  /** Strip trailing fractional zeros: canonical spelling (of the same value, see CanonicalizeSameValue). */
  function Canonicalize(d: Decimal): (c: Decimal)
    ensures Canonical(c)
    ensures c.scale <= d.scale
    decreases d.scale
  {
    if d.scale > 0 && d.mantissa % 10 == 0 then Canonicalize(Decimal(d.mantissa / 10, d.scale - 1)) else d
  }

  lemma {:induction false} CanonicalizeSameValue(d: Decimal)
    ensures SameValue(Canonicalize(d), d)
    decreases d.scale
  {
    if d.scale > 0 && d.mantissa % 10 == 0 {
      var d' := Decimal(d.mantissa / 10, d.scale - 1);
      CanonicalizeSameValue(d');
      DropTrailingZero(d);
      SameValueTransitive(Canonicalize(d'), d', d);
    }
  }

  lemma {:induction false} CanonicalizeFixpoint(d: Decimal)
    requires Canonical(d)
    ensures Canonicalize(d) == d
  {
  }

  /** Two canonical decimals with the same value are the same decimal. */
  lemma {:induction false} CanonicalUnique(a: Decimal, b: Decimal)
    requires Canonical(a) && Canonical(b) && SameValue(a, b)
    ensures a == b
  {
    if a.scale < b.scale {
      ScaledMantissa(a, b);
    } else if b.scale < a.scale {
      ScaledMantissa(b, a);
    } else {
      CancelPositive(a.mantissa, b.mantissa, Pow10(a.scale));
    }
  }

  /** A value spelled with fewer fractional digits has a mantissa ending in zero at more. */
  lemma {:induction false} ScaledMantissa(a: Decimal, b: Decimal)
    requires a.scale < b.scale && SameValue(a, b)
    ensures b.mantissa % 10 == 0
  {
    var k := b.scale - a.scale;
    var p, q := Pow10(a.scale), Pow10(k);
    Pow10Add(a.scale, k);
    assert a.mantissa * (p * q) == b.mantissa * p;
    MulSwap(a.mantissa, p, q);
    // a.m * 10^k * 10^a.s == b.m * 10^a.s, so b.m == a.m * 10^k, a multiple of ten.
    CancelPositive(a.mantissa * q, b.mantissa, p);
    assert q == 10 * Pow10(k - 1);
    TenTimes(a.mantissa, Pow10(k - 1));
  }

  lemma {:induction false} TenTimes(x: int, y: int)
    ensures (x * (10 * y)) % 10 == 0
  {
    assert x * (10 * y) == 10 * (x * y);
  }

  lemma {:induction false} Pow10Add(m: nat, n: nat)
    ensures Pow10(m + n) == Pow10(m) * Pow10(n)
    decreases n
  {
    if n > 0 {
      Pow10Add(m, n - 1);
      assert Pow10(m + n) == 10 * Pow10(m + n - 1);
    }
  }

  // ---------------------------------------------------------------- digits

  predicate IsDigit(c: char) {
    '0' <= c <= '9'
  }

  predicate AllDigits(s: string) {
    forall i :: 0 <= i < |s| ==> IsDigit(s[i])
  }

  function DigitValue(c: char): (v: nat)
    ensures v < 10
  {
    if IsDigit(c) then c as int - '0' as int else 0
  }

  /** The number a string of decimal digits spells, most significant first. */
  function DigitsValue(s: string): nat
  {
    if s == [] then 0 else 10 * DigitsValue(s[..|s| - 1]) + DigitValue(s[|s| - 1])
  }

  function DigitChar(n: nat): (c: char)
    requires n < 10
    ensures IsDigit(c) && DigitValue(c) == n
  {
    ('0' as int + n) as char
  }

  /** Shortest digit string of n: no leading zero unless n is 0 itself. */
  function NatToDigits(n: nat): (r: string)
    ensures AllDigits(r) && |r| >= 1
    ensures DigitsValue(r) == n
    ensures |r| > 1 ==> r[0] != '0'
  {
    if n < 10 then [DigitChar(n)]
    else
      var r := NatToDigits(n / 10) + [DigitChar(n % 10)];
      assert r[..|r| - 1] == NatToDigits(n / 10);
      r
  }

  function Zeros(k: nat): (z: string)
    ensures |z| == k && AllDigits(z)
  {
    seq(k, _ => '0')
  }

  lemma {:induction false} DigitsAppend(a: string, b: string)
    ensures DigitsValue(a + b) == DigitsValue(a) * Pow10(|b|) + DigitsValue(b)
    decreases |b|
  {
    if b == [] {
      assert a + b == a;
    } else {
      var b' := b[..|b| - 1];
      var last := DigitValue(b[|b| - 1]);
      assert (a + b)[..|a + b| - 1] == a + b';
      assert DigitsValue(a + b) == 10 * DigitsValue(a + b') + last;
      DigitsAppend(a, b');
      ShiftDigit(DigitsValue(a), Pow10(|b'|), DigitsValue(b'), last);
    }
  }

  lemma {:induction false} ShiftDigit(x: int, p: int, v: int, d: int)
    ensures 10 * (x * p + v) + d == x * (10 * p) + (10 * v + d)
  {
  }

  lemma {:induction false} ZerosValue(k: nat)
    ensures DigitsValue(Zeros(k)) == 0
    decreases k
  {
    if k > 0 {
      assert Zeros(k)[..k - 1] == Zeros(k - 1);
      ZerosValue(k - 1);
    }
  }

  /** Left-pad a digit string with zeros to at least `width` characters. */
  function PadDigits(s: string, width: nat): (r: string)
    requires AllDigits(s)
    ensures AllDigits(r) && |r| >= width && |r| >= |s|
    ensures DigitsValue(r) == DigitsValue(s)
  {
    if |s| >= width then s
    else
      var r := Zeros(width - |s|) + s;
      DigitsAppend(Zeros(width - |s|), s);
      ZerosValue(width - |s|);
      r
  }

  // ---------------------------------------------------------------- render

  /** Digits with a dot before the last `scale` of them; no dot when scale is 0. */
  function PointText(ds: string, scale: nat): (r: string)
    requires |ds| > scale
    ensures |r| == |ds| + (if scale == 0 then 0 else 1)
    ensures r[0] == ds[0]
    ensures scale > 0 ==> r[|r| - scale - 1] == '.'
  {
    var k := |ds| - scale;
    if scale == 0 then ds else ds[..k] + "." + ds[k..]
  }

  /** Digits of |mantissa|, zero-padded so that at least one digit precedes the dot. */
  function MagnitudeText(d: Decimal): (m: string)
    ensures |m| > d.scale && IsDigit(m[0])
    ensures d.scale > 0 ==> m[|m| - d.scale - 1] == '.'
  {
    var a := if d.mantissa < 0 then -d.mantissa else d.mantissa;
    PointText(PadDigits(NatToDigits(a), d.scale + 1), d.scale)
  }

  /**
   * Positional dot-decimal spelling of d's value: "-12.5", "320", "0.05". It
   * stands in for the text `str()` gives a float; what matters is that it reads
   * back as the same value (`RenderParse`).
   */
  function Render(d: Decimal): (t: string)
    ensures |t| > d.scale
    ensures t[0] == '-' <==> d.mantissa < 0
    ensures d.scale > 0 ==> t[|t| - d.scale - 1] == '.'
  {
    (if d.mantissa < 0 then "-" else "") + MagnitudeText(d)
  }

  // ---------------------------------------------------------------- parse

  /** The text after an optional leading sign. */
  function Unsigned(t: string): (body: string)
  {
    if |t| > 0 && (t[0] == '-' || t[0] == '+') then t[1..] else t
  }

  /** Index of the first '.' at or after `from`, or |s| when there is none. */
  function DotIndexFrom(s: string, from: nat): (i: nat)
    requires from <= |s|
    ensures from <= i <= |s|
    decreases |s| - from
  {
    if from == |s| || s[from] == '.' then from else DotIndexFrom(s, from + 1)
  }

  /** Index of the first '.', or |s| when there is none. */
  function DotIndex(s: string): (i: nat)
    ensures i <= |s|
  {
    DotIndexFrom(s, 0)
  }

  /** The text before the first '.' and the text after it (empty when there is no dot). */
  function SplitAtDot(s: string): (string, string)
  {
    var i := DotIndex(s);
    (s[..i], if i < |s| then s[i + 1..] else [])
  }

  /** Whole and fractional digit strings, at least one digit in all, as a raw decimal. */
  function ParseParts(whole: string, frac: string): Option<Decimal>
  {
    if AllDigits(whole) && AllDigits(frac) && |whole| + |frac| > 0 then
      Some(Decimal(DigitsValue(whole + frac), |frac|))
    else
      None
  }

  /** digits* ('.' digits*)? with at least one digit, as a raw (uncanonicalised) decimal. */
  function ParseUnsigned(s: string): Option<Decimal>
  {
    var (whole, frac) := SplitAtDot(s);
    ParseParts(whole, frac)
  }

  /**
   * Parse a normalised numeric text. None is the "missing" verdict of
   * `errors="coerce"`; the value is always returned in canonical spelling.
   */
  function Parse(t: string): (r: Option<Decimal>)
    ensures r.Some? ==> Canonical(r.value)
  {
    var negative := |t| > 0 && t[0] == '-';
    match ParseUnsigned(Unsigned(t))
    case None => None
    case Some(u) => Some(Canonicalize(Decimal(if negative then -u.mantissa else u.mantissa, u.scale)))
  }

  // ---------------------------------------------------------------- grammar

  function CountChar(s: string, c: char): (n: nat)
    ensures n <= |s|
  {
    if s == [] then 0 else (if s[0] == c then 1 else 0) + CountChar(s[1..], c)
  }

  /**
   * The accepted grammar stated without reference to how Parse splits its
   * input: after an optional leading sign, only digits and dots, at most one
   * dot, at least one digit.
   */
  ghost predicate IsNumberText(t: string) {
    var body := Unsigned(t);
    && (forall i :: 0 <= i < |body| ==> IsDigit(body[i]) || body[i] == '.')
    && CountChar(body, '.') <= 1
    && (exists i :: 0 <= i < |body| && IsDigit(body[i]))
  }
}

module DecimalProofs {
  import opened Wrappers
  import opened Decimals

  lemma {:induction false} DotIndexFromSpec(s: string, from: nat)
    requires from <= |s|
    ensures var i := DotIndexFrom(s, from);
            && (forall j :: from <= j < i ==> s[j] != '.')
            && (i < |s| ==> s[i] == '.')
    decreases |s| - from
  {
    if from < |s| && s[from] != '.' {
      DotIndexFromSpec(s, from + 1);
    }
  }

  /** DotIndex finds the first dot: none before it, a dot at it (unless it is |s|). */
  lemma {:induction false} DotIndexSpec(s: string)
    ensures var i := DotIndex(s);
            && (forall j :: 0 <= j < i ==> s[j] != '.')
            && (i < |s| ==> s[i] == '.')
  {
    DotIndexFromSpec(s, 0);
  }

  lemma {:induction false} DotIndexAt(s: string, k: nat)
    requires k <= |s|
    requires forall j :: 0 <= j < k ==> s[j] != '.'
    requires k < |s| ==> s[k] == '.'
    ensures DotIndex(s) == k
  {
    DotIndexSpec(s);
  }

  /**
   * Printing a number and parsing the text back gives the same number in its
   * canonical spelling: re-coercing an already numeric cell keeps its value.
   */
  lemma {:induction false} RenderParse(d: Decimal)
    ensures Parse(Render(d)) == Some(Canonicalize(d))
  {
    var a := if d.mantissa < 0 then -d.mantissa else d.mantissa;
    MagnitudeParse(d);
    UnsignedAfterSign(d.mantissa < 0, MagnitudeText(d));
    ParseSigned(Render(d), Decimal(a, d.scale));
  }

  /** The unsigned part of the text spells |mantissa| with `scale` fractional digits. */
  lemma {:induction false} MagnitudeParse(d: Decimal)
    ensures var a := if d.mantissa < 0 then -d.mantissa else d.mantissa;
            && |MagnitudeText(d)| > 0 && IsDigit(MagnitudeText(d)[0])
            && ParseUnsigned(MagnitudeText(d)) == Some(Decimal(a, d.scale))
  {
    var a := if d.mantissa < 0 then -d.mantissa else d.mantissa;
    var ds := PadDigits(NatToDigits(a), d.scale + 1);
    assert DigitsValue(ds) == a;
    var p := PointText(ds, d.scale);
    assert MagnitudeText(d) == p;
    PointTextFirst(ds, d.scale);
    ParsePointText(ds, d.scale);
    assert ParseUnsigned(p) == Some(Decimal(a, d.scale));
  }

  lemma {:induction false} PointTextFirst(ds: string, scale: nat)
    requires AllDigits(ds) && |ds| > scale
    ensures |PointText(ds, scale)| > 0 && IsDigit(PointText(ds, scale)[0])
  {
    var k := |ds| - scale;
    if scale > 0 {
      assert PointText(ds, scale)[0] == ds[..k][0];
    }
  }

  lemma {:induction false} UnsignedAfterSign(negative: bool, p: string)
    requires |p| > 0 && IsDigit(p[0])
    ensures var t := (if negative then "-" else "") + p;
            Unsigned(t) == p && (|t| > 0 && t[0] == '-' <==> negative)
  {
    var t := (if negative then "-" else "") + p;
    if negative {
      assert t[0] == '-' && t[1..] == p;
    } else {
      assert t == p;
    }
  }

  lemma {:induction false} ParseSigned(t: string, u: Decimal)
    requires ParseUnsigned(Unsigned(t)) == Some(u)
    ensures Parse(t) == Some(Canonicalize(Decimal(if |t| > 0 && t[0] == '-' then -u.mantissa else u.mantissa, u.scale)))
  {
  }

  lemma {:induction false} ParsePointText(ds: string, scale: nat)
    requires AllDigits(ds) && |ds| > scale
    ensures ParseUnsigned(PointText(ds, scale)) == Some(Decimal(DigitsValue(ds), scale))
  {
    var t := PointText(ds, scale);
    if scale == 0 {
      assert t == ds;
      ParsePlain(ds, t);
    } else {
      ParseDotted(ds, |ds| - scale, t);
    }
  }

  lemma {:induction false} ParsePlain(ds: string, t: string)
    requires AllDigits(ds) && |ds| > 0 && t == ds
    ensures ParseUnsigned(t) == Some(Decimal(DigitsValue(ds), 0))
  {
    SplitPlain(ds);
    ParseUnsignedParts(ds, ds, []);
    assert ds + [] == ds;
  }

  lemma {:induction false} ParseDotted(ds: string, k: nat, t: string)
    requires AllDigits(ds) && 0 < k < |ds| && t == ds[..k] + "." + ds[k..]
    ensures ParseUnsigned(t) == Some(Decimal(DigitsValue(ds), |ds| - k))
  {
    var whole, frac := ds[..k], ds[k..];
    SplitDotted(whole, frac);
    ParseUnsignedParts(t, whole, frac);
    PartsOfDigits(ds, k);
  }

  lemma {:induction false} ParseUnsignedParts(s: string, whole: string, frac: string)
    requires SplitAtDot(s) == (whole, frac)
    ensures ParseUnsigned(s) == ParseParts(whole, frac)
  {
  }

  lemma {:induction false} PartsOfDigits(ds: string, k: nat)
    requires AllDigits(ds) && 0 < k <= |ds|
    ensures ParseParts(ds[..k], ds[k..]) == Some(Decimal(DigitsValue(ds), |ds| - k))
  {
    SliceDigits(ds, k);
    TakeDropJoin(ds, k);
    ParsePartsOf(ds[..k], ds[k..], ds);
  }

  lemma {:induction false} TakeDropJoin(s: string, k: nat)
    requires k <= |s|
    ensures s[..k] + s[k..] == s
  {
  }

  lemma {:induction false} ParsePartsOf(whole: string, frac: string, ds: string)
    requires whole + frac == ds && AllDigits(whole) && AllDigits(frac) && |ds| > 0
    ensures ParseParts(whole, frac) == Some(Decimal(DigitsValue(ds), |frac|))
  {
  }

  lemma {:induction false} SliceDigits(ds: string, k: nat)
    requires AllDigits(ds) && k <= |ds|
    ensures AllDigits(ds[..k]) && AllDigits(ds[k..])
  {
    assert forall i :: 0 <= i < k ==> ds[..k][i] == ds[i];
    assert forall i :: 0 <= i < |ds| - k ==> ds[k..][i] == ds[k + i];
  }

  lemma {:induction false} SplitPlain(s: string)
    requires forall j :: 0 <= j < |s| ==> s[j] != '.'
    ensures SplitAtDot(s) == (s, [])
  {
    DotIndexAt(s, |s|);
    assert s[..|s|] == s;
  }

  lemma {:induction false} SplitDotted(whole: string, frac: string)
    requires forall j :: 0 <= j < |whole| ==> whole[j] != '.'
    ensures SplitAtDot(whole + "." + frac) == (whole, frac)
  {
    var tail := whole + "." + frac;
    assert tail[|whole|] == '.';
    assert forall j :: 0 <= j < |whole| ==> tail[j] == whole[j];
    DotIndexAt(tail, |whole|);
    assert tail[..|whole|] == whole;
    assert tail[|whole| + 1..] == frac;
  }

  /** Every character of a printed number is a digit, the dot or the minus sign. */
  lemma {:induction false} RenderCharset(d: Decimal)
    ensures forall i :: 0 <= i < |Render(d)| ==> IsDigit(Render(d)[i]) || Render(d)[i] in ".-"
  {
    var a := if d.mantissa < 0 then -d.mantissa else d.mantissa;
    var ds := PadDigits(NatToDigits(a), d.scale + 1);
    PointTextCharset(ds, d.scale);
    var sign: string := if d.mantissa < 0 then "-" else "";
    assert Render(d) == sign + PointText(ds, d.scale);
  }

  lemma {:induction false} PointTextCharset(ds: string, scale: nat)
    requires AllDigits(ds) && |ds| > scale
    ensures forall i :: 0 <= i < |PointText(ds, scale)| ==> IsDigit(PointText(ds, scale)[i]) || PointText(ds, scale)[i] == '.'
  {
    if scale > 0 {
      var k := |ds| - scale;
      var t := ds[..k] + "." + ds[k..];
      assert PointText(ds, scale) == t;
      assert forall i :: 0 <= i < k ==> t[i] == ds[i];
      assert forall i :: k < i < |t| ==> t[i] == ds[i - 1];
    }
  }

  /** The mantissa sign an optional sign text stands for. */
  function SignOf(sign: string): (k: int)
    ensures k == 1 || k == -1
    ensures k == -1 <==> sign == "-"
  {
    if sign == "-" then -1 else 1
  }

  /** A sign followed by a text that does not start with one: the sign is read, the rest is the body. */
  lemma {:induction false} SignedText(sign: string, body: string)
    requires sign == "" || sign == "+" || sign == "-"
    requires |body| > 0 && body[0] != '-' && body[0] != '+'
    ensures Unsigned(sign + body) == body
    ensures (|sign + body| > 0 && (sign + body)[0] == '-') <==> sign == "-"
  {
    if sign == "" {
      assert sign + body == body;
    } else {
      assert (sign + body)[1..] == body;
    }
  }

  /**
   * An optional sign, digits, a dot and digits, with at least one digit in all
   * ("+5.", ".5", "-0.50"), parse to the number the digits spell, with as many
   * fractional digits as follow the dot, in canonical spelling.
   */
  lemma {:induction false} ParseDecimalText(sign: string, whole: string, frac: string)
    requires sign == "" || sign == "+" || sign == "-"
    requires AllDigits(whole) && AllDigits(frac) && |whole| + |frac| > 0
    ensures Parse(sign + (whole + "." + frac)) == Some(Canonicalize(Decimal(SignOf(sign) * DigitsValue(whole + frac), |frac|)))
  {
    var body := whole + "." + frac;
    DottedBody(whole, frac);
    ParseWithSign(sign, body, Decimal(DigitsValue(whole + frac), |frac|));
  }

  /** The unsigned text "whole.frac" splits at its dot and does not start with a sign. */
  lemma {:induction false} DottedBody(whole: string, frac: string)
    requires AllDigits(whole) && AllDigits(frac) && |whole| + |frac| > 0
    ensures var body := whole + "." + frac;
            && body[0] != '-' && body[0] != '+'
            && ParseUnsigned(body) == Some(Decimal(DigitsValue(whole + frac), |frac|))
  {
    var body := whole + "." + frac;
    SplitDotted(whole, frac);
    ParseUnsignedParts(body, whole, frac);
    if |whole| > 0 {
      assert body[0] == whole[0];
    }
  }

  /** A sign in front of an unsigned number text only sets the sign of the mantissa. */
  lemma {:induction false} ParseWithSign(sign: string, body: string, u: Decimal)
    requires sign == "" || sign == "+" || sign == "-"
    requires |body| > 0 && body[0] != '-' && body[0] != '+'
    requires ParseUnsigned(body) == Some(u)
    ensures Parse(sign + body) == Some(Canonicalize(Decimal(SignOf(sign) * u.mantissa, u.scale)))
  {
    SignedText(sign, body);
    ParseSigned(sign + body, u);
  }

  /** An optional sign and digits without a dot ("+5", "007") parse to the integer the digits spell. */
  lemma {:induction false} ParseIntegerText(sign: string, whole: string)
    requires sign == "" || sign == "+" || sign == "-"
    requires AllDigits(whole) && |whole| > 0
    ensures Parse(sign + whole) == Some(Decimal(SignOf(sign) * DigitsValue(whole), 0))
  {
    assert ParseUnsigned(whole) == Some(Decimal(DigitsValue(whole), 0)) by {
      SplitPlain(whole);
      ParseUnsignedParts(whole, whole, []);
      assert whole + [] == whole;
    }
    assert IsDigit(whole[0]);
    ParseWithSign(sign, whole, Decimal(DigitsValue(whole), 0));
  }

  // ---------------------------------------------------------------- grammar

  lemma {:induction false} CountAppend(a: string, b: string, c: char)
    ensures CountChar(a + b, c) == CountChar(a, c) + CountChar(b, c)
    decreases |a|
  {
    if a == [] {
      assert a + b == b;
    } else {
      assert (a + b)[1..] == a[1..] + b;
      CountAppend(a[1..], b, c);
    }
  }

  lemma {:induction false} CountAbsent(s: string, c: char)
    requires forall i :: 0 <= i < |s| ==> s[i] != c
    ensures CountChar(s, c) == 0
    decreases |s|
  {
    if s != [] {
      CountAbsent(s[1..], c);
    }
  }

  lemma {:induction false} CountPresent(s: string, c: char, i: nat)
    requires i < |s| && s[i] == c
    ensures CountChar(s, c) >= 1
    decreases i
  {
    if i > 0 {
      CountPresent(s[1..], c, i - 1);
    }
  }

  /** The text is its whole part, then (when there is a dot) the dot and the fractional part. */
  lemma {:induction false} DotSplit(body: string)
    ensures var i := DotIndex(body);
            var parts := SplitAtDot(body);
            && (forall j :: 0 <= j < |parts.0| ==> parts.0[j] != '.')
            && body == (if i < |body| then parts.0 + "." + parts.1 else parts.0)
            && CountChar(body, '.') == (if i < |body| then 1 + CountChar(parts.1, '.') else 0)
  {
    var i := DotIndex(body);
    var whole, frac := SplitAtDot(body).0, SplitAtDot(body).1;
    DotIndexSpec(body);
    CountAbsent(whole, '.');
    if i < |body| {
      assert body == whole + "." + frac;
      CountAppend(whole + ".", frac, '.');
      CountAppend(whole, ".", '.');
      assert CountChar(".", '.') == 1;
    } else {
      assert body == whole;
    }
  }

  /**
   * Parse succeeds exactly on the texts of the grammar: a text with a letter,
   * a second dot, or no digit at all becomes missing.
   */
  lemma {:induction false} ParseAcceptsExactly(t: string)
    ensures Parse(t).Some? <==> IsNumberText(t)
  {
    var body := Unsigned(t);
    if ParseUnsigned(body).Some? {
      AcceptedIsNumberText(body);
    }
    if IsNumberText(t) {
      NumberTextAccepted(body);
    }
  }

  lemma {:induction false} AcceptedIsNumberText(body: string)
    requires ParseUnsigned(body).Some?
    ensures forall j :: 0 <= j < |body| ==> IsDigit(body[j]) || body[j] == '.'
    ensures CountChar(body, '.') <= 1
    ensures exists j :: 0 <= j < |body| && IsDigit(body[j])
  {
    var whole, frac := SplitAtDot(body).0, SplitAtDot(body).1;
    ParseUnsignedParts(body, whole, frac);
    DotSplit(body);
    CountAbsent(frac, '.');
    if DotIndex(body) < |body| {
      DottedChars(whole, frac);
    } else {
      assert body == whole;
    }
  }

  /** Digits, one dot, digits: only digits and dots, and a digit somewhere. */
  lemma {:induction false} DottedChars(whole: string, frac: string)
    requires AllDigits(whole) && AllDigits(frac) && |whole| + |frac| > 0
    ensures var s := whole + "." + frac;
            && (forall j :: 0 <= j < |s| ==> IsDigit(s[j]) || s[j] == '.')
            && (exists j :: 0 <= j < |s| && IsDigit(s[j]))
  {
    var s := whole + "." + frac;
    if |whole| > 0 {
      assert IsDigit(s[0]);
    } else {
      assert IsDigit(s[1]);
    }
  }

  lemma {:induction false} NumberTextAccepted(body: string)
    requires forall j :: 0 <= j < |body| ==> IsDigit(body[j]) || body[j] == '.'
    requires CountChar(body, '.') <= 1
    requires exists j :: 0 <= j < |body| && IsDigit(body[j])
    ensures ParseUnsigned(body).Some?
  {
    var whole, frac := SplitAtDot(body).0, SplitAtDot(body).1;
    ParseUnsignedParts(body, whole, frac);
    DotSplit(body);
    if DotIndex(body) < |body| {
      CountAtMostZero(frac, '.');
      DottedDigits(whole, frac);
    } else {
      assert body == whole;
    }
  }

  lemma {:induction false} CountAtMostZero(s: string, c: char)
    requires CountChar(s, c) == 0
    ensures forall j :: 0 <= j < |s| ==> s[j] != c
  {
    forall j | 0 <= j < |s| ensures s[j] != c {
      if s[j] == c {
        CountPresent(s, c, j);
      }
    }
  }

  lemma {:induction false} DottedDigits(whole: string, frac: string)
    requires var s := whole + "." + frac;
             && (forall j :: 0 <= j < |s| ==> IsDigit(s[j]) || s[j] == '.')
             && (exists j :: 0 <= j < |s| && IsDigit(s[j]))
    requires forall j :: 0 <= j < |whole| ==> whole[j] != '.'
    requires forall j :: 0 <= j < |frac| ==> frac[j] != '.'
    ensures AllDigits(whole) && AllDigits(frac) && |whole| + |frac| > 0
  {
    var s := whole + "." + frac;
    assert forall j :: 0 <= j < |whole| ==> whole[j] == s[j];
    assert forall j :: 0 <= j < |frac| ==> frac[j] == s[|whole| + 1 + j];
    var j :| 0 <= j < |s| && IsDigit(s[j]);
    assert j != |whole|;
  }
}
