/** The bill finder for group posts: a number prefix parser, a search for the first plausible figure
    in a window, and a search over the anchor words that open such windows. */
module FbScanner {
  import opened Base
  import opened Numerals
  import opened Text

  /** A number read from some position of a text on, and where it ends. */
  datatype Parsed = Parsed(value: real, end: nat)

  // ----- the number prefix -------------------------------------------------------------------

  predicate InGroup(c: char) {
    IsDigit(c) || c == ','
  }

  /** The end of the run of digits and commas from `i` on. */
  function GroupEnd(text: string, i: nat): (j: nat)
    requires i <= |text|
    ensures i <= j <= |text|
    ensures forall p :: i <= p < j ==> InGroup(text[p])
    ensures j < |text| ==> !InGroup(text[j])
    decreases |text| - i
  {
    if i < |text| && InGroup(text[i]) then GroupEnd(text, i + 1) else i
  }

  /** The end of the run of digits from `i` on, in either script. */
  function FractionEnd(text: string, i: nat): (j: nat)
    requires i <= |text|
    ensures i <= j <= |text|
    ensures forall p :: i <= p < j ==> IsDigit(text[p])
    ensures j < |text| ==> !IsDigit(text[j])
    decreases |text| - i
  {
    if i < |text| && IsDigit(text[i]) then FractionEnd(text, i + 1) else i
  }

  /** The grammar of a number: a digit, then digits and commas, then perhaps a dot and digits. */
  function PrefixEnd(text: string, i: nat): (n: nat)
    requires i < |text| && IsDigit(text[i])
    ensures i < n <= |text|
  {
    var j := GroupEnd(text, i);
    if j < |text| && text[j] == '.' then FractionEnd(text, j + 1) else j
  }

  function CleanedChar(c: char): string {
    if IsDigit(c) then [AsciiOf(DigitValue(c))] else if c == ',' then [] else [c]
  }

  /** The text from `i` to below `n`: commas dropped, digits in ASCII. */
  function Cleaned(text: string, i: nat, n: nat): string
    requires i <= n <= |text|
    decreases n
  {
    if i == n then [] else Cleaned(text, i, n - 1) + CleanedChar(text[n - 1])
  }

  /** The number prefix of the text from `i` on. */
  function ParsePrefix(text: string, i: nat): (r: Option<Parsed>)
    requires i <= |text|
    ensures r.Some? ==> i < r.value.end <= |text|
  {
    if i == |text| || !IsDigit(text[i]) then None
    else
      match ParseDecimal(Cleaned(text, i, PrefixEnd(text, i)))
      case Some(v) => Some(Parsed(v, PrefixEnd(text, i)))
      case None => None
  }

  /** How far the character loop has come: in the digits and commas, or behind the dot. */
  ghost predicate Scanning(text: string, i: nat, n: nat, seenDot: bool) {
    && i <= n <= |text|
    && (i < n ==> IsDigit(text[i]))
    && (i == n ==> !seenDot)
    && (!seenDot ==> GroupEnd(text, i) == GroupEnd(text, n))
    && (seenDot ==>
          var j := GroupEnd(text, i);
          j < n && text[j] == '.' && FractionEnd(text, j + 1) == FractionEnd(text, n))
  }

  method ParseNumberPrefix(text: string, i: nat) returns (r: Option<Parsed>)
    requires i <= |text|
    ensures r == ParsePrefix(text, i)
  {
    var cleaned := "";
    var n := i;
    var seenDot := false;
    while n < |text|
      invariant Scanning(text, i, n, seenDot)
      invariant cleaned == Cleaned(text, i, n)
      invariant cleaned == [] <==> n == i
    {
      var c := text[n];
      if IsAsciiDigit(c) {
        cleaned := cleaned + [c];
      } else if IsThaiDigit(c) {
        cleaned := cleaned + [AsciiOf(DigitValue(c))];
      } else if c == ',' && cleaned != [] && !seenDot {
        // a grouping comma
      } else if c == '.' && cleaned != [] && !seenDot {
        seenDot := true;
        cleaned := cleaned + ['.'];
      } else {
        break;
      }
      n := n + 1;
    }
    if cleaned == [] {
      return None;
    }
    assert PrefixEnd(text, i) == n;
    match ParseDecimal(cleaned) {
      case Some(v) => return Some(Parsed(v, n));
      case None => return None;
    }
  }

  lemma {:induction false} CleanedSplits(text: string, i: nat, j: nat, n: nat)
    requires i <= j <= n <= |text|
    ensures Cleaned(text, i, n) == Cleaned(text, i, j) + Cleaned(text, j, n)
    decreases n
  {
    if j < n {
      CleanedSplits(text, i, j, n - 1);
    }
  }

  lemma {:induction false} CleanedGroup(text: string, i: nat, n: nat)
    requires i <= n <= |text| && forall p :: i <= p < n ==> InGroup(text[p])
    ensures AllDigits(Cleaned(text, i, n))
    ensures i < n && IsDigit(text[i]) ==> Cleaned(text, i, n) != []
    decreases n
  {
    if i < n {
      CleanedGroup(text, i, n - 1);
    }
  }

  lemma CleanedDotted(text: string, i: nat, j: nat, n: nat)
    requires i <= j < n <= |text| && text[j] == '.'
    ensures Cleaned(text, i, n) == Cleaned(text, i, j) + "." + Cleaned(text, j + 1, n)
  {
    CleanedSplits(text, i, j + 1, n);
    assert CleanedChar('.') == ".";
  }

  /** There is a number prefix exactly at a digit: the final parse never fails. */
  lemma PrefixIffDigit(text: string, i: nat)
    requires i <= |text|
    ensures ParsePrefix(text, i).Some? <==> i < |text| && IsDigit(text[i])
  {
    if i < |text| && IsDigit(text[i]) {
      var j, n := GroupEnd(text, i), PrefixEnd(text, i);
      CleanedGroup(text, i, j);
      if j == n {
        ParseInteger(Cleaned(text, i, j));
      } else {
        CleanedGroup(text, j + 1, n);
        CleanedDotted(text, i, j, n);
        ParseDotted(Cleaned(text, i, j), Cleaned(text, j + 1, n));
      }
    }
  }

  // ----- numerals ----------------------------------------------------------------------------

  lemma {:induction false} CleanedNumeral(text: string, at: nat, glyphs: seq<Glyph>)
    requires Written(glyphs) && MatchesAt(text, at, Render(glyphs))
    ensures Cleaned(text, at, at + |Render(glyphs)|) == Plain(glyphs)
  {
    if glyphs != [] {
      var init, g := glyphs[..|glyphs| - 1], glyphs[|glyphs| - 1];
      GlyphIsLast(text, at, glyphs);
      CleanedNumeral(text, at, init);
      CleanedGlyph(text, at, at + |Render(init)|, g);
    }
  }

  lemma CleanedGlyph(text: string, at: nat, a: nat, g: Glyph)
    requires g.digit <= 9 && at <= a && a + |GlyphText(g)| <= |text|
    requires text[a] == GlyphChar(g) && (g.comma ==> text[a + 1] == ',')
    ensures Cleaned(text, at, a + |GlyphText(g)|) == Cleaned(text, at, a) + [AsciiOf(g.digit)]
  {
    assert Cleaned(text, at, a + 1) == Cleaned(text, at, a) + [AsciiOf(g.digit)];
  }

  lemma {:induction false} NumeralIsGroup(text: string, at: nat, glyphs: seq<Glyph>)
    requires Written(glyphs) && MatchesAt(text, at, Render(glyphs))
    ensures forall p :: at <= p < at + |Render(glyphs)| ==> InGroup(text[p])
    ensures glyphs != [] ==> Render(glyphs) != [] && IsDigit(text[at])
  {
    if glyphs != [] {
      GlyphIsLast(text, at, glyphs);
      NumeralIsGroup(text, at, glyphs[..|glyphs| - 1]);
    }
  }

  lemma {:induction false} GroupEndAt(text: string, i: nat, j: nat)
    requires i <= j <= |text| && (forall p :: i <= p < j ==> InGroup(text[p]))
    requires j < |text| ==> !InGroup(text[j])
    ensures GroupEnd(text, i) == j
    decreases j - i
  {
    if i < j {
      GroupEndAt(text, i + 1, j);
    }
  }

  predicate DigitFree(window: string, i: nat, j: nat) {
    i <= j <= |window| && forall p :: i <= p < j ==> !IsDigit(window[p])
  }

  predicate OnlyCommas(raw: string, i: nat, j: nat) {
    i <= j <= |raw| && forall p :: i <= p < j ==> raw[p] == ','
  }

  lemma {:induction false} CleanedIsEmpty(raw: string, i: nat, j: nat)
    requires i <= j <= |raw|
    ensures |Cleaned(raw, i, j)| == 0 <==> OnlyCommas(raw, i, j)
    decreases j
  {
    if i < j {
      CleanedIsEmpty(raw, i, j - 1);
      assert |CleanedChar(raw[j - 1])| == 0 <==> raw[j - 1] == ',';
    }
  }

  /** Where a decimal that is written up to `b` is read to: commas right behind a whole number are
      swallowed, and then a dot. */
  function ReadEnd(text: string, d: Decimal, b: nat): nat
    requires b <= |text|
  {
    if d.fraction == [] then DotEnd(text, GroupEnd(text, b)) else b
  }

  function DotEnd(text: string, c: nat): nat {
    if c < |text| && text[c] == '.' then c + 1 else c
  }

  /** A decimal with no digit behind it is read in full with the value written, whatever the script
      and the grouping. */
  lemma PrefixReadsDecimal(text: string, at: nat, d: Decimal, b: nat)
    requires IsDecimal(d) && StandsAt(text, at, d, b) && DigitFree(text, b, |text|)
    ensures ParsePrefix(text, at) == Some(Parsed(DecimalValue(d), ReadEnd(text, d, b)))
  {
    PlainPartsHaveValue(d);
    PlainPartsRead(text, at, d, b);
  }

  lemma PlainPartsRead(text: string, at: nat, d: Decimal, b: nat)
    requires IsDecimal(d) && StandsAt(text, at, d, b) && DigitFree(text, b, |text|)
    ensures ParsePrefix(text, at) == Some(Parsed(DecimalOf(Plain(d.whole), Plain(d.fraction)), ReadEnd(text, d, b)))
  {
    if d.fraction == [] {
      WholeOnly(Plain(d.whole), Plain(d.fraction));
      WholeReads(text, at, b, d.whole);
    } else {
      PartsRead(text, at, at + |Render(d.whole)|, b, d.whole, d.fraction);
    }
  }

  lemma WholeReads(text: string, at: nat, b: nat, whole: seq<Glyph>)
    requires IsNumeral(whole) && Written(whole) && MatchesAt(text, at, Render(whole)) && b == at + |Render(whole)|
    requires DigitFree(text, b, |text|)
    ensures ParsePrefix(text, at) == Some(Parsed(WholeOf(Plain(whole)), DotEnd(text, GroupEnd(text, b))))
  {
    var c := GroupEnd(text, b);
    CommasBehind(text, at, b, c, whole);
    PrefixOfGroup(text, at, c, Plain(whole));
  }

  /** A group goes on over the commas behind its numeral, and reads the same. */
  lemma CommasBehind(text: string, at: nat, b: nat, c: nat, whole: seq<Glyph>)
    requires whole != [] && Written(whole) && MatchesAt(text, at, Render(whole)) && b == at + |Render(whole)|
    requires DigitFree(text, b, |text|) && c == GroupEnd(text, b)
    ensures at < c && IsDigit(text[at]) && GroupEnd(text, at) == c && Cleaned(text, at, c) == Plain(whole)
  {
    NumeralIsGroup(text, at, whole);
    GroupEndAt(text, at, c);
    CleanedNumeral(text, at, whole);
    CommasAreDropped(text, at, b, c);
  }

  lemma CommasAreDropped(text: string, at: nat, b: nat, c: nat)
    requires at <= b && OnlyCommas(text, b, c)
    ensures Cleaned(text, at, c) == Cleaned(text, at, b)
  {
    CleanedSplits(text, at, b, c);
    CleanedIsEmpty(text, b, c);
    assert Cleaned(text, at, b) + [] == Cleaned(text, at, b);
  }

  /** A group with nothing behind it that belongs to the number, or only a dot. */
  lemma PrefixOfGroup(text: string, at: nat, b: nat, digits: string)
    requires at < b <= |text| && IsDigit(text[at]) && GroupEnd(text, at) == b
    requires Cleaned(text, at, b) == digits && AllDigits(digits) && digits != []
    requires b + 1 < |text| && text[b] == '.' ==> !IsDigit(text[b + 1])
    ensures ParsePrefix(text, at) == Some(Parsed(WholeOf(digits), DotEnd(text, b)))
  {
    if b < |text| && text[b] == '.' {
      PrefixOfDottedGroup(text, at, b, digits);
    } else {
      ParseInteger(digits);
      PrefixIs(text, at, b, digits, WholeOf(digits));
    }
  }

  lemma CleanedWithDot(text: string, at: nat, b: nat, digits: string)
    requires at <= b < |text| && text[b] == '.' && Cleaned(text, at, b) == digits
    ensures Cleaned(text, at, b + 1) == digits + "."
  {
    assert CleanedChar('.') == ".";
  }

  lemma PrefixOfDottedGroup(text: string, at: nat, b: nat, digits: string)
    requires at < b < |text| && IsDigit(text[at]) && GroupEnd(text, at) == b && text[b] == '.'
    requires Cleaned(text, at, b) == digits && AllDigits(digits) && digits != []
    requires b + 1 < |text| ==> !IsDigit(text[b + 1])
    ensures ParsePrefix(text, at) == Some(Parsed(WholeOf(digits), b + 1))
  {
    CleanedWithDot(text, at, b, digits);
    TrailingDot(digits);
    PrefixIs(text, at, b + 1, digits + ".", WholeOf(digits));
  }

  /** A group, a dot and a fraction. */
  lemma PrefixOfFraction(text: string, at: nat, dot: nat, end: nat)
    requires at < |text| && IsDigit(text[at]) && GroupEnd(text, at) == dot
    requires dot < |text| && text[dot] == '.' && FractionEnd(text, dot + 1) == end
    ensures AllDigits(Cleaned(text, at, dot)) && AllDigits(Cleaned(text, dot + 1, end))
    ensures ParsePrefix(text, at) == Some(Parsed(DecimalOf(Cleaned(text, at, dot), Cleaned(text, dot + 1, end)), end))
  {
    var whole, fraction := Cleaned(text, at, dot), Cleaned(text, dot + 1, end);
    CleanedGroup(text, at, dot);
    CleanedGroup(text, dot + 1, end);
    CleanedDotted(text, at, dot, end);
    ParseDotted(whole, fraction);
    PrefixIs(text, at, end, whole + "." + fraction, DecimalOf(whole, fraction));
  }

  lemma PrefixIs(text: string, at: nat, end: nat, digits: string, v: real)
    requires at < |text| && IsDigit(text[at]) && PrefixEnd(text, at) == end
    requires Cleaned(text, at, end) == digits && ParseDecimal(digits) == Some(v)
    ensures ParsePrefix(text, at) == Some(Parsed(v, end))
  {
  }

  lemma GroupReads(text: string, at: nat, b: nat, glyphs: seq<Glyph>)
    requires glyphs != [] && Written(glyphs) && MatchesAt(text, at, Render(glyphs)) && b == at + |Render(glyphs)|
    requires b < |text| ==> !InGroup(text[b])
    ensures at < b && IsDigit(text[at]) && GroupEnd(text, at) == b && Cleaned(text, at, b) == Plain(glyphs)
  {
    NumeralIsGroup(text, at, glyphs);
    GroupEndAt(text, at, b);
    CleanedNumeral(text, at, glyphs);
  }

  lemma PartsRead(text: string, at: nat, dot: nat, end: nat, whole: seq<Glyph>, fraction: seq<Glyph>)
    requires whole != [] && Written(whole) && MatchesAt(text, at, Render(whole)) && dot == at + |Render(whole)|
    requires dot < |text| && text[dot] == '.'
    requires Written(fraction) && (forall i :: 0 <= i < |fraction| ==> !fraction[i].comma)
    requires MatchesAt(text, dot + 1, Render(fraction)) && end == dot + 1 + |Render(fraction)|
    requires end < |text| ==> !IsDigit(text[end])
    ensures ParsePrefix(text, at) == Some(Parsed(DecimalOf(Plain(whole), Plain(fraction)), end))
  {
    var digits, decimals := Plain(whole), Plain(fraction);
    PartsAreCleaned(text, at, dot, end, whole, fraction);
    PrefixOfFraction(text, at, dot, end);
    assert Cleaned(text, at, dot) == digits && Cleaned(text, dot + 1, end) == decimals;
  }

  lemma PartsAreCleaned(text: string, at: nat, dot: nat, end: nat, whole: seq<Glyph>, fraction: seq<Glyph>)
    requires whole != [] && Written(whole) && MatchesAt(text, at, Render(whole)) && dot == at + |Render(whole)|
    requires dot < |text| && text[dot] == '.'
    requires Written(fraction) && (forall i :: 0 <= i < |fraction| ==> !fraction[i].comma)
    requires MatchesAt(text, dot + 1, Render(fraction)) && end == dot + 1 + |Render(fraction)|
    requires end < |text| ==> !IsDigit(text[end])
    ensures IsDigit(text[at]) && GroupEnd(text, at) == dot && FractionEnd(text, dot + 1) == end
    ensures Cleaned(text, at, dot) == Plain(whole) && Cleaned(text, dot + 1, end) == Plain(fraction)
  {
    GroupReads(text, at, dot, whole);
    FractionReads(text, dot + 1, end, fraction);
  }

  lemma FractionReads(text: string, at: nat, end: nat, glyphs: seq<Glyph>)
    requires Written(glyphs) && MatchesAt(text, at, Render(glyphs)) && end == at + |Render(glyphs)|
    requires forall i :: 0 <= i < |glyphs| ==> !glyphs[i].comma
    requires end < |text| ==> !IsDigit(text[end])
    ensures FractionEnd(text, at) == end && Cleaned(text, at, end) == Plain(glyphs)
  {
    FractionIsDigits(text, at, glyphs);
    FractionEndAt(text, at, end);
    CleanedNumeral(text, at, glyphs);
  }

  lemma {:induction false} FractionIsDigits(text: string, at: nat, glyphs: seq<Glyph>)
    requires Written(glyphs) && MatchesAt(text, at, Render(glyphs))
    requires forall i :: 0 <= i < |glyphs| ==> !glyphs[i].comma
    ensures forall p :: at <= p < at + |Render(glyphs)| ==> IsDigit(text[p])
  {
    if glyphs != [] {
      GlyphIsLast(text, at, glyphs);
      FractionIsDigits(text, at, glyphs[..|glyphs| - 1]);
    }
  }

  lemma {:induction false} FractionEndAt(text: string, i: nat, j: nat)
    requires i <= j <= |text| && (forall p :: i <= p < j ==> IsDigit(text[p]))
    requires j < |text| ==> !IsDigit(text[j])
    ensures FractionEnd(text, i) == j
    decreases j - i
  {
    if i < j {
      FractionEndAt(text, i + 1, j);
    }
  }

  // ----- plausible figures -------------------------------------------------------------------

  /** Ten thousand, a hundred thousand, a thousand, a million. */
  datatype Unit = Muen | Saen | Phan | Lan

  function UnitWord(u: Unit): (w: string)
    ensures w != []
  {
    match u
    case Muen => "หมื่น"
    case Saen => "แสน"
    case Phan => "พัน"
    case Lan => "ล้าน"
  }

  function Scaled(base: real, unit: Option<Unit>): real {
    match unit
    case Some(Muen) => base * 10000.0
    case Some(Saen) => base * 100000.0
    case Some(Phan) => base * 1000.0
    case Some(Lan) => base * 1000000.0
    case None => base
  }

  /** The first unit of the table that stands at `at`; at most one does. */
  function UnitAt(text: string, at: nat): (r: Option<Unit>)
    ensures r.Some? ==> MatchesAt(text, at, UnitWord(r.value))
    ensures forall u :: MatchesAt(text, at, UnitWord(u)) ==> r == Some(u)
  {
    UnitsDiffer(text, at);
    if MatchesAt(text, at, UnitWord(Muen)) then Some(Muen)
    else if MatchesAt(text, at, UnitWord(Saen)) then Some(Saen)
    else if MatchesAt(text, at, UnitWord(Phan)) then Some(Phan)
    else if MatchesAt(text, at, UnitWord(Lan)) then Some(Lan)
    else None
  }

  lemma UnitsDiffer(text: string, at: nat)
    ensures forall u, v :: MatchesAt(text, at, UnitWord(u)) && MatchesAt(text, at, UnitWord(v)) ==> u == v
  {
    forall u, v | MatchesAt(text, at, UnitWord(u)) && MatchesAt(text, at, UnitWord(v)) ensures u == v {
      assert UnitWord(u)[0] == text[at + 0] == UnitWord(v)[0];
    }
  }

  /** The monthly bills taken seriously, in baht. */
  predicate Plausible(value: real) {
    500.0 <= value <= 5000000.0
  }

  /** What is read at one position: perhaps an amount, and where to go on. */
  datatype Token = Token(amount: Option<real>, next: nat)

  /** The amount of a number that ends at `j`: scaled by a unit behind any white space. */
  function AmountBefore(base: real, window: string, j: nat): real
    requires j <= |window|
  {
    Scaled(base, UnitAt(window, BlankEnd(window, j)))
  }

  function TokenAt(window: string, i: nat): (t: Token)
    requires i < |window|
    ensures i < t.next <= |window|
    ensures t.amount.Some? <==> IsDigit(window[i])
  {
    PrefixIffDigit(window, i);
    TokenOf(window, i, ParsePrefix(window, i))
  }

  function TokenOf(window: string, i: nat, parsed: Option<Parsed>): Token
    requires parsed.Some? ==> parsed.value.end <= |window|
  {
    match parsed
    case Some(p) => Token(Some(AmountBefore(p.value, window, p.end)), p.end)
    case None => Token(None, i + 1)
  }

  method ReadToken(window: string, i: nat) returns (t: Token)
    requires i < |window|
    ensures t == TokenAt(window, i)
  {
    var parsed := None;
    if IsDigit(window[i]) {
      parsed := ParseNumberPrefix(window, i);
    }
    t := TokenOf(window, i, parsed);
  }

  /** All amounts mentioned from `i` on, in order. */
  function Amounts(window: string, i: nat): seq<real>
    requires i <= |window|
    decreases |window| - i
  {
    if i == |window| then []
    else
      var t := TokenAt(window, i);
      (if t.amount.Some? then [t.amount.value] else []) + Amounts(window, t.next)
  }

  ghost predicate NonePlausible(amounts: seq<real>) {
    forall k :: 0 <= k < |amounts| ==> !Plausible(amounts[k])
  }

  function FirstPlausible(amounts: seq<real>): (r: Option<real>)
    ensures r.None? <==> NonePlausible(amounts)
    ensures r.Some? ==> Plausible(r.value)
    ensures r.Some? ==> exists k :: 0 <= k < |amounts| && r.value == amounts[k] && NonePlausible(amounts[..k])
  {
    if amounts == [] then None
    else if Plausible(amounts[0]) then Some(amounts[0])
    else
      var r := FirstPlausible(amounts[1..]);
      assert amounts == [amounts[0]] + amounts[1..];
      assert r.Some? ==> exists k :: 0 <= k < |amounts| && r.value == amounts[k] && NonePlausible(amounts[..k]) by {
        if r.Some? {
          var k :| 0 <= k < |amounts[1..]| && r.value == amounts[1..][k] && NonePlausible(amounts[1..][..k]);
          assert amounts[..k + 1] == [amounts[0]] + amounts[1..][..k];
        }
      }
      r
  }

  predicate IsPlausible(amount: Option<real>) {
    amount.Some? && Plausible(amount.value)
  }

  /** The search with its early exit. */
  function BillFrom(window: string, i: nat): (r: Option<real>)
    requires i <= |window|
    ensures r.Some? ==> Plausible(r.value)
    decreases |window| - i
  {
    if i == |window| then None
    else
      var t := TokenAt(window, i);
      if IsPlausible(t.amount) then t.amount else BillFrom(window, t.next)
  }

  function Bill(window: string): (r: Option<real>)
    ensures r.Some? ==> Plausible(r.value)
  {
    BillFrom(window, 0)
  }

  /** The search returns the first plausible amount among all that the window mentions. */
  lemma {:induction false} BillIsFirstPlausible(window: string, i: nat)
    requires i <= |window|
    ensures BillFrom(window, i) == FirstPlausible(Amounts(window, i))
    decreases |window| - i
  {
    if i < |window| {
      var t := TokenAt(window, i);
      BillIsFirstPlausible(window, t.next);
      var amounts := Amounts(window, i);
      if t.amount.Some? {
        assert amounts[0] == t.amount.value && amounts[1..] == Amounts(window, t.next);
      } else {
        assert amounts == Amounts(window, t.next);
      }
    }
  }

  method FindPlausibleBill(window: string) returns (r: Option<real>)
    ensures r == Bill(window)
  {
    var i := 0;
    while i < |window|
      invariant i <= |window|
      invariant BillFrom(window, i) == BillFrom(window, 0)
    {
      var t := ReadToken(window, i);
      if IsPlausible(t.amount) {
        return t.amount;
      }
      i := t.next;
    }
    return None;
  }

  lemma {:induction false} NoAmounts(window: string, i: nat, j: nat)
    requires DigitFree(window, i, j)
    ensures Amounts(window, i) == Amounts(window, j)
    decreases j - i
  {
    if i < j {
      NoAmounts(window, i + 1, j);
      assert TokenAt(window, i) == Token(None, i + 1);
    }
  }

  lemma LoneAmount(window: string, a: nat, amount: real)
    requires a < |window| && TokenAt(window, a).amount == Some(amount)
    requires DigitFree(window, 0, a) && DigitFree(window, TokenAt(window, a).next, |window|)
    ensures Amounts(window, 0) == [amount]
  {
    NoAmounts(window, 0, a);
    NoAmounts(window, TokenAt(window, a).next, |window|);
    assert Amounts(window, |window|) == [];
    assert Amounts(window, a) == [amount] + [];
  }

  /** Round trip: a window with one decimal and no other digits mentions one amount, the number written times
      the unit that follows it. */
  lemma AmountsOfNumeral(window: string, at: nat, d: Decimal, b: nat)
    requires IsDecimal(d) && StandsAt(window, at, d, b)
    requires DigitFree(window, 0, at) && DigitFree(window, b, |window|)
    ensures Amounts(window, 0) == [AmountBefore(DecimalValue(d), window, ReadEnd(window, d, b))]
  {
    TokenOfDecimal(window, at, d, b);
    LoneAmount(window, at, TokenAt(window, at).amount.value);
  }

  lemma TokenOfDecimal(window: string, at: nat, d: Decimal, b: nat)
    requires IsDecimal(d) && StandsAt(window, at, d, b) && DigitFree(window, b, |window|)
    ensures at < |window| && DigitFree(window, TokenAt(window, at).next, |window|)
    ensures TokenAt(window, at).amount == Some(AmountBefore(DecimalValue(d), window, ReadEnd(window, d, b)))
  {
    PrefixReadsDecimal(window, at, d, b);
    PrefixIffDigit(window, at);
    assert TokenAt(window, at) == TokenOf(window, at, ParsePrefix(window, at));
  }

  ghost predicate NoUnit(window: string, k: nat) {
    && !MatchesAt(window, k, "หมื่น") && !MatchesAt(window, k, "แสน")
    && !MatchesAt(window, k, "พัน") && !MatchesAt(window, k, "ล้าน")
  }

  /** `x` is the number `v` as the unit word at `k` scales it. */
  ghost predicate IsAmountOf(x: real, v: real, window: string, k: nat) {
    && (MatchesAt(window, k, "หมื่น") ==> x == v * 10000.0)
    && (MatchesAt(window, k, "แสน") ==> x == v * 100000.0)
    && (MatchesAt(window, k, "พัน") ==> x == v * 1000.0)
    && (MatchesAt(window, k, "ล้าน") ==> x == v * 1000000.0)
    && (NoUnit(window, k) ==> x == v)
  }

  lemma AmountIsScaled(v: real, window: string, j: nat)
    requires j <= |window|
    ensures IsAmountOf(AmountBefore(v, window, j), v, window, BlankEnd(window, j))
  {
    var k := BlankEnd(window, j);
    assert forall u :: MatchesAt(window, k, UnitWord(u)) ==> UnitAt(window, k) == Some(u);
    assert UnitWord(Muen) == "หมื่น" && UnitWord(Saen) == "แสน";
    assert UnitWord(Phan) == "พัน" && UnitWord(Lan) == "ล้าน";
  }

  /** The bill of a window with one decimal and no other digits: the number written, scaled by the unit
      word behind any white space, exactly when that lies between 500 and 5,000,000 baht. */
  lemma BillOfDecimal(window: string, at: nat, d: Decimal, b: nat) returns (x: real)
    requires IsDecimal(d) && StandsAt(window, at, d, b)
    requires DigitFree(window, 0, at) && DigitFree(window, b, |window|)
    ensures IsAmountOf(x, DecimalValue(d), window, BlankEnd(window, ReadEnd(window, d, b)))
    ensures Bill(window) == if 500.0 <= x <= 5000000.0 then Some(x) else None
  {
    AmountsOfNumeral(window, at, d, b);
    x := Amounts(window, 0)[0];
    AmountIsScaled(DecimalValue(d), window, ReadEnd(window, d, b));
    BillIsFirstPlausible(window, 0);
    OneAmount(Amounts(window, 0), x);
  }

  lemma OneAmount(amounts: seq<real>, x: real)
    requires amounts == [x]
    ensures FirstPlausible(amounts) == if 500.0 <= x <= 5000000.0 then Some(x) else None
  {
  }

  // ----- the bill ----------------------------------------------------------------------------

  /** The words that open a window, in the order they are tried. */
  function Anchors(): (words: seq<string>)
    ensures forall a :: 0 <= a < |words| ==> NeverOverlaps(words[a])
  {
    ["ค่าไฟฟ้า", "ค่าไฟ",
     "เดือนละ", "ต่อเดือน", "ทุกเดือน"]
  }

  const WINDOW: nat := 40

  /** The window behind an occurrence of a word that ends at `after`. */
  function WindowFrom(msg: string, after: nat): (window: string)
    requires after <= |msg|
    ensures MatchesAt(msg, after, window)
    ensures |window| <= 40 && (|window| < 40 ==> after + |window| == |msg|)
  {
    if |msg| - after <= WINDOW then msg[after..] else msg[after..after + WINDOW]
  }

  predicate Anchored(msg: string, word: string, p: nat) {
    p + |word| <= |msg| && MatchesAt(msg, p, word)
  }

  /** What a window search finds behind the word at `p`. */
  function FoundAt(find: string -> Option<real>, msg: string, word: string, p: nat): Option<real>
    requires p + |word| <= |msg|
  {
    find(WindowFrom(msg, p + |word|))
  }

  /** The search finds nothing behind any occurrence of the word before position `p`. */
  ghost predicate NothingBefore(find: string -> Option<real>, msg: string, word: string, p: nat) {
    forall q: nat :: q < p && Anchored(msg, word, q) ==> FoundAt(find, msg, word, q).None?
  }

  /** Nor behind any occurrence at all. */
  ghost predicate Nothing(find: string -> Option<real>, msg: string, word: string) {
    forall q: nat :: Anchored(msg, word, q) ==> FoundAt(find, msg, word, q).None?
  }

  /** The first character occurs only once, so occurrences never overlap. */
  predicate NeverOverlaps(word: string) {
    word != [] && forall i :: 0 < i < |word| ==> word[i] != word[0]
  }

  lemma NoOverlap(msg: string, word: string, p: nat)
    requires NeverOverlaps(word) && Anchored(msg, word, p)
    ensures forall q :: p < q < p + |word| ==> !Anchored(msg, word, q)
  {
    forall q | p < q < p + |word| ensures !Anchored(msg, word, q) {
      assert msg[p + (q - p)] == word[q - p] != word[0];
    }
  }

  /** What one search from `off` on settles. */
  lemma NextOccurrence(find: string -> Option<real>, msg: string, word: string, off: nat)
    requires NeverOverlaps(word) && off <= |msg| && NothingBefore(find, msg, word, off)
    ensures var at := FindFrom(msg, off, word);
            if at < 0 then Nothing(find, msg, word)
            else Anchored(msg, word, at) && NothingBefore(find, msg, word, at)
                 && (FoundAt(find, msg, word, at).None? ==> NothingBefore(find, msg, word, at + |word|))
  {
    var at := FindFrom(msg, off, word);
    if at >= 0 {
      assert Anchored(msg, word, at);
      NoOverlap(msg, word, at);
    }
  }

  /** The search for one keyword: it resumes behind each occurrence and yet misses none. */
  method FindBehind(msg: string, word: string) returns (r: Option<real>)
    requires NeverOverlaps(word)
    ensures r.None? ==> Nothing(Bill, msg, word)
    ensures r.Some? ==> FoundBehind(Bill, msg, word, r)
  {
    var off := 0;
    var at := FindFrom(msg, off, word);
    while at >= 0
      invariant off <= |msg| && at == FindFrom(msg, off, word)
      invariant NothingBefore(Bill, msg, word, off)
      decreases |msg| - off
    {
      NextOccurrence(Bill, msg, word, off);
      var value := FindPlausibleBill(WindowFrom(msg, at + |word|));
      if value.Some? {
        return value;
      }
      off := at + |word|;
      at := FindFrom(msg, off, word);
    }
    NextOccurrence(Bill, msg, word, off);
    return None;
  }

  /** `r` is what the search finds at an occurrence of some anchor, with nothing at any occurrence
      before it and nothing at all behind the anchors tried before. */
  ghost predicate FirstFound(find: string -> Option<real>, msg: string, anchors: seq<string>, r: Option<real>) {
    exists a :: 0 <= a < |anchors| && FoundBehind(find, msg, anchors[a], r)
                && NothingUpTo(find, msg, anchors, a)
  }

  ghost predicate NothingUpTo(find: string -> Option<real>, msg: string, anchors: seq<string>, a: nat) {
    forall b :: 0 <= b < a && b < |anchors| ==> Nothing(find, msg, anchors[b])
  }

  ghost predicate FoundBehind(find: string -> Option<real>, msg: string, word: string, r: Option<real>) {
    exists p: nat :: Anchored(msg, word, p) && FoundAt(find, msg, word, p) == r && NothingBefore(find, msg, word, p)
  }

  lemma FirstFoundAt(find: string -> Option<real>, msg: string, anchors: seq<string>, a: nat, r: Option<real>)
    requires a < |anchors| && FoundBehind(find, msg, anchors[a], r)
    requires NothingUpTo(find, msg, anchors, a)
    ensures FirstFound(find, msg, anchors, r)
  {
  }

  method FindBehindAny(msg: string, anchors: seq<string>) returns (r: Option<real>)
    requires forall a :: 0 <= a < |anchors| ==> NeverOverlaps(anchors[a])
    ensures r.None? ==> NothingUpTo(Bill, msg, anchors, |anchors|)
    ensures r.Some? ==> FirstFound(Bill, msg, anchors, r)
  {
    for a := 0 to |anchors|
      invariant NothingUpTo(Bill, msg, anchors, a)
    {
      r := FindBehind(msg, anchors[a]);
      if r.Some? {
        FirstFoundAt(Bill, msg, anchors, a, r);
        return;
      }
    }
    return None;
  }

  /** The bill of the first anchor that has one, over all occurrences of all keywords. */
  method FindBill(msg: string) returns (r: Option<real>)
    ensures var words := ["ค่าไฟฟ้า", "ค่าไฟ", "เดือนละ", "ต่อเดือน", "ทุกเดือน"];
            if r.None? then forall word :: word in words ==> Nothing(Bill, msg, word)
            else FirstFound(Bill, msg, words, r) && 500.0 <= r.value <= 5000000.0
  {
    r := FindBehindAny(msg, Anchors());
  }
}
