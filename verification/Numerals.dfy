/** Decimal numerals: digit characters, exact values, and the grouped numerals people write. */
module Numerals {
  import opened Base
  import opened Text

  /** U+0E50 to U+0E59 */
  predicate IsThaiDigit(c: char) {
    0x0E50 <= c as int <= 0x0E59
  }

  predicate IsDigit(c: char) {
    IsAsciiDigit(c) || IsThaiDigit(c)
  }

  function DigitValue(c: char): (d: nat)
    requires IsDigit(c)
    ensures d <= 9
  {
    if IsAsciiDigit(c) then c as int - '0' as int else c as int - 0x0E50
  }

  function AsciiOf(d: nat): (c: char)
    requires d <= 9
    ensures IsAsciiDigit(c) && DigitValue(c) == d
  {
    ('0' as int + d) as char
  }

  function ThaiOf(d: nat): (c: char)
    requires d <= 9
    ensures IsThaiDigit(c) && DigitValue(c) == d
  {
    (0x0E50 + d) as char
  }

  // ----- parsing -------------------------------------------------------------------------

  predicate AllDigits(s: string) {
    forall i :: 0 <= i < |s| ==> IsAsciiDigit(s[i])
  }

  function IntegerValue(s: string): nat
    requires AllDigits(s)
  {
    if s == [] then 0 else 10 * IntegerValue(s[..|s| - 1]) + DigitValue(s[|s| - 1])
  }

  /** Moves the decimal point `places` to the left. */
  function Shifted(x: real, places: nat): real {
    if places == 0 then x else Shifted(x, places - 1) / 10.0
  }

  /** The position of the first dot from `i` on, or the end. */
  function FirstDot(s: string, i: nat): (n: nat)
    requires i <= |s|
    ensures i <= n <= |s|
    ensures forall p :: i <= p < n ==> s[p] != '.'
    ensures n < |s| ==> s[n] == '.'
    decreases |s| - i
  {
    if i == |s| || s[i] == '.' then i else FirstDot(s, i + 1)
  }

  function FractionOf(f: string): real
    requires AllDigits(f)
  {
    Shifted(IntegerValue(f) as real, |f|)
  }

  function WholeOf(s: string): real
    requires AllDigits(s)
  {
    IntegerValue(s) as real
  }

  function DecimalOf(whole: string, fraction: string): real
    requires AllDigits(whole) && AllDigits(fraction)
  {
    WholeOf(whole) + FractionOf(fraction)
  }

  /** Rust's `parse::<f64>()` on texts of digits and dots: digits with at most one dot among them
      and at least one digit. The value is exact. */
  function ParseDecimal(s: string): Option<real> {
    var n := FirstDot(s, 0);
    if n == |s| then if AllDigits(s) && s != [] then Some(WholeOf(s)) else None
    else
      var whole, fraction := s[..n], s[n + 1..];
      if AllDigits(whole) && AllDigits(fraction) && |whole| + |fraction| > 0
      then Some(DecimalOf(whole, fraction))
      else None
  }

  lemma FirstDotAt(s: string, n: nat)
    requires n <= |s| && (forall i :: 0 <= i < n ==> s[i] != '.') && (n < |s| ==> s[n] == '.')
    ensures FirstDot(s, 0) == n
  {
  }

  lemma ParseInteger(s: string)
    requires s != [] && AllDigits(s)
    ensures ParseDecimal(s) == Some(WholeOf(s))
  {
    FirstDotAt(s, |s|);
  }

  lemma WholeOnly(digits: string, none: string)
    requires AllDigits(digits) && |none| == 0
    ensures DecimalOf(digits, none) == WholeOf(digits)
  {
  }

  lemma ParseDotted(whole: string, fraction: string)
    requires AllDigits(whole) && AllDigits(fraction) && whole != []
    ensures ParseDecimal(whole + "." + fraction) == Some(DecimalOf(whole, fraction))
  {
    var s := whole + "." + fraction;
    FirstDotAt(s, |whole|);
    assert s[..|whole|] == whole && s[|whole| + 1..] == fraction;
  }

  /** A dot at the end changes nothing. */
  lemma TrailingDot(digits: string)
    requires AllDigits(digits) && digits != []
    ensures ParseDecimal(digits + ".") == ParseDecimal(digits) == Some(WholeOf(digits))
  {
    var s, n := digits + ".", |digits|;
    FirstDotAt(s, n);
    assert s[..n] == digits;
    WholeOnly(digits, s[n + 1..]);
    ParseInteger(digits);
  }

  // ----- what further digits change ----------------------------------------------------------

  predicate AllZeros(s: string) {
    forall i :: 0 <= i < |s| ==> s[i] == '0'
  }

  lemma {:induction false} IntegerIsZero(s: string)
    requires AllDigits(s)
    ensures IntegerValue(s) == 0 <==> AllZeros(s)
  {
    if s != [] {
      IntegerIsZero(s[..|s| - 1]);
    }
  }

  /** Further digits of a whole number never make it smaller, and leave it alone exactly if it is 0. */
  lemma {:induction false} IntegerGrows(w: string, x: string)
    requires AllDigits(w) && AllDigits(x)
    ensures AllDigits(w + x) && IntegerValue(w + x) >= IntegerValue(w)
    ensures x != [] ==> (IntegerValue(w + x) == IntegerValue(w) <==> AllZeros(w + x))
  {
    IntegerIsZero(w + x);
    if x == [] {
      assert w + x == w;
    } else {
      var init := x[..|x| - 1];
      IntegerGrows(w, init);
      assert (w + x)[..|w + x| - 1] == w + init;
    }
  }

  lemma {:induction false} ShiftedSign(x: real, n: nat)
    requires x >= 0.0
    ensures Shifted(x, n) >= 0.0 && (Shifted(x, n) == 0.0 <==> x == 0.0)
  {
    if n > 0 {
      ShiftedSign(x, n - 1);
    }
  }

  lemma {:induction false} ShiftedStep(v: real, d: real, n: nat)
    ensures Shifted(10.0 * v + d, n + 1) == Shifted(v, n) + Shifted(d, n + 1)
  {
    if n > 0 {
      ShiftedStep(v, d, n - 1);
    }
  }

  lemma FractionStep(f: string)
    requires AllDigits(f) && f != []
    ensures FractionOf(f) >= FractionOf(f[..|f| - 1])
    ensures FractionOf(f) == FractionOf(f[..|f| - 1]) <==> f[|f| - 1] == '0'
  {
    var init, d := f[..|f| - 1], DigitValue(f[|f| - 1]);
    ShiftedStep(IntegerValue(init) as real, d as real, |init|);
    ShiftedSign(d as real, |f|);
    assert IntegerValue(f) as real == 10.0 * IntegerValue(init) as real + d as real;
  }

  /** Further digits of a fraction never make it smaller, and leave it alone exactly if they are 0. */
  lemma {:induction false} FractionGrows(f: string, y: string)
    requires AllDigits(f) && AllDigits(y)
    ensures AllDigits(f + y) && FractionOf(f + y) >= FractionOf(f)
    ensures FractionOf(f + y) == FractionOf(f) <==> AllZeros(y)
  {
    if y == [] {
      assert f + y == f;
    } else {
      var init := y[..|y| - 1];
      FractionGrows(f, init);
      FractionStep(f + y);
      assert (f + y)[..|f + y| - 1] == f + init;
    }
  }

  // ----- grouped numerals ------------------------------------------------------------------

  /** One digit as written: ASCII or Thai, with or without a grouping comma after it. */
  datatype Glyph = Glyph(digit: nat, thai: bool, comma: bool)

  /** Any digits, any mixture of scripts, single commas in any gaps, none at the end. */
  predicate IsNumeral(glyphs: seq<Glyph>) {
    && glyphs != [] && !glyphs[|glyphs| - 1].comma
    && forall i :: 0 <= i < |glyphs| ==> glyphs[i].digit <= 9
  }

  predicate Written(glyphs: seq<Glyph>) {
    forall i :: 0 <= i < |glyphs| ==> glyphs[i].digit <= 9
  }

  function GlyphChar(g: Glyph): (c: char)
    requires g.digit <= 9
    ensures IsDigit(c) && DigitValue(c) == g.digit
  {
    if g.thai then ThaiOf(g.digit) else AsciiOf(g.digit)
  }

  function GlyphText(g: Glyph): string
    requires g.digit <= 9
  {
    if g.comma then [GlyphChar(g), ','] else [GlyphChar(g)]
  }

  function Render(glyphs: seq<Glyph>): string
    requires Written(glyphs)
  {
    if glyphs == [] then [] else Render(glyphs[..|glyphs| - 1]) + GlyphText(glyphs[|glyphs| - 1])
  }

  /** The same digits in ASCII, without commas. */
  function Plain(glyphs: seq<Glyph>): (s: string)
    requires Written(glyphs)
    ensures AllDigits(s) && |s| == |glyphs|
  {
    if glyphs == [] then [] else Plain(glyphs[..|glyphs| - 1]) + [AsciiOf(glyphs[|glyphs| - 1].digit)]
  }

  /** The number written. */
  function Value(glyphs: seq<Glyph>): nat
    requires Written(glyphs)
  {
    if glyphs == [] then 0 else 10 * Value(glyphs[..|glyphs| - 1]) + glyphs[|glyphs| - 1].digit
  }

  lemma {:induction false} PlainHasValue(glyphs: seq<Glyph>)
    requires Written(glyphs)
    ensures IntegerValue(Plain(glyphs)) == Value(glyphs)
  {
    if glyphs != [] {
      var init := glyphs[..|glyphs| - 1];
      PlainHasValue(init);
      assert Plain(glyphs)[..|glyphs| - 1] == Plain(init);
    }
  }

  /** Every natural number can be written, in either script. */
  lemma {:induction false} EveryNaturalIsWritten(n: nat, thai: bool) returns (glyphs: seq<Glyph>)
    ensures IsNumeral(glyphs) && Written(glyphs) && Value(glyphs) == n
    ensures forall i :: 0 <= i < |glyphs| ==> glyphs[i].thai == thai
  {
    var last := Glyph(n % 10, thai, false);
    if n < 10 {
      glyphs := [last];
      assert glyphs[..0] == [];
    } else {
      var init := EveryNaturalIsWritten(n / 10, thai);
      glyphs := init + [last];
      assert glyphs[..|glyphs| - 1] == init;
    }
  }

  /** A grouped numeral, perhaps with a decimal fraction, whose digits are not grouped. */
  datatype Decimal = Decimal(whole: seq<Glyph>, fraction: seq<Glyph>)

  predicate IsDecimal(d: Decimal) {
    && IsNumeral(d.whole) && Written(d.whole) && Written(d.fraction)
    && forall i :: 0 <= i < |d.fraction| ==> !d.fraction[i].comma
  }

  function DecimalText(d: Decimal): string
    requires IsDecimal(d)
  {
    Render(d.whole) + if d.fraction == [] then [] else "." + Render(d.fraction)
  }

  function PlainText(d: Decimal): string
    requires IsDecimal(d)
  {
    Plain(d.whole) + if d.fraction == [] then [] else "." + Plain(d.fraction)
  }

  /** The number written. */
  function DecimalValue(d: Decimal): real
    requires IsDecimal(d)
  {
    Value(d.whole) as real + Shifted(Value(d.fraction) as real, |d.fraction|)
  }

  lemma PlainPartsHaveValue(d: Decimal)
    requires IsDecimal(d)
    ensures DecimalOf(Plain(d.whole), Plain(d.fraction)) == DecimalValue(d)
  {
    PlainHasValue(d.whole);
    PlainHasValue(d.fraction);
  }

  lemma PlainTextHasValue(d: Decimal)
    requires IsDecimal(d)
    ensures ParseDecimal(PlainText(d)) == Some(DecimalValue(d))
  {
    PlainPartsHaveValue(d);
    if d.fraction == [] {
      assert PlainText(d) == Plain(d.whole);
      ParseInteger(Plain(d.whole));
      WholeOnly(Plain(d.whole), Plain(d.fraction));
    } else {
      assert PlainText(d) == Plain(d.whole) + "." + Plain(d.fraction);
      ParseDotted(Plain(d.whole), Plain(d.fraction));
    }
  }

  /** The decimal is written in the text from `at` to `end`. */
  ghost predicate StandsAt(text: string, at: nat, d: Decimal, end: nat)
    requires IsDecimal(d)
  {
    var dot := at + |Render(d.whole)|;
    && MatchesAt(text, at, Render(d.whole))
    && if d.fraction == [] then end == dot
       else && dot < |text| && text[dot] == '.'
            && MatchesAt(text, dot + 1, Render(d.fraction)) && end == dot + 1 + |Render(d.fraction)|
  }

  lemma DecimalStands(text: string, at: nat, d: Decimal)
    requires IsDecimal(d) && MatchesAt(text, at, DecimalText(d))
    ensures StandsAt(text, at, d, at + |DecimalText(d)|)
  {
    if d.fraction != [] {
      DotParts(text, at, Render(d.whole), Render(d.fraction));
    } else {
      assert DecimalText(d) == Render(d.whole);
    }
  }

  lemma DotParts(text: string, at: nat, a: string, b: string)
    requires MatchesAt(text, at, a + ("." + b))
    ensures MatchesAt(text, at, a) && text[at + |a|] == '.' && MatchesAt(text, at + |a| + 1, b)
  {
    PartsStand(text, at, a, "." + b);
    PartsStand(text, at + |a|, ".", b);
    assert text[at + |a| + 0] == ("." + b)[0];
  }

  /** Where a concatenation stands, its parts stand. */
  lemma PartsStand(text: string, at: nat, a: string, b: string)
    requires MatchesAt(text, at, a + b)
    ensures MatchesAt(text, at, a) && MatchesAt(text, at + |a|, b)
  {
    var all, n := a + b, |a|;
    forall p | 0 <= p < n ensures text[at + p] == a[p] {
      assert all[p] == a[p];
    }
    forall p | 0 <= p < |b| ensures text[at + n + p] == b[p] {
      assert text[at + (n + p)] == all[n + p];
    }
  }

  /** Where a rendering stands, the rendering of all but the last glyph stands too, and the last glyph
      follows it. */
  lemma GlyphIsLast(text: string, at: nat, glyphs: seq<Glyph>)
    requires glyphs != [] && Written(glyphs) && MatchesAt(text, at, Render(glyphs))
    ensures var init, g := glyphs[..|glyphs| - 1], glyphs[|glyphs| - 1];
            var a := at + |Render(init)|;
            && MatchesAt(text, at, Render(init))
            && a + |GlyphText(g)| == at + |Render(glyphs)|
            && text[a] == GlyphChar(g) && (g.comma ==> text[a + 1] == ',')
  {
    var init, g := glyphs[..|glyphs| - 1], glyphs[|glyphs| - 1];
    PartsStand(text, at, Render(init), GlyphText(g));
    GlyphStands(text, at + |Render(init)|, g);
  }

  lemma GlyphStands(text: string, a: nat, g: Glyph)
    requires g.digit <= 9 && MatchesAt(text, a, GlyphText(g))
    ensures text[a] == GlyphChar(g) && (g.comma ==> text[a + 1] == ',')
  {
    assert text[a + 0] == GlyphText(g)[0];
    assert g.comma ==> text[a + 1] == GlyphText(g)[1];
  }
}
