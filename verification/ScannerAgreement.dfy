/** Where the two number scanners read the same number off one text, and where they do not. */
module ScannerAgreement {
  import opened Base
  import opened Numerals
  import opened Text
  import opened FbScanner
  import LineScanner

  // ----- decimals amid prose -----------------------------------------------------------------

  /** Both scanners read every decimal amid prose, grouped and in either script, as the same number;
      the LINE scanner also applies the magnitude word that follows. */
  lemma ScannersAgree(before: string, d: Decimal, after: string)
    requires LineScanner.IsProse(before) && IsDecimal(d) && LineScanner.IsProse(after)
    ensures var text := before + DecimalText(d) + after;
            var hits := LineScanner.ScanFrom(LineScanner.Normalized(text), 0);
            && ParsePrefix(text, |before|).Some? && |hits| == 1
            && hits[0].value == LineScanner.Scaled(ParsePrefix(text, |before|).value.value,
                                                   LineScanner.MagnitudeAt(after, LineScanner.SpacesEnd(after, 0)))
  {
    var text := before + DecimalText(d) + after;
    var b := |before| + |DecimalText(d)|;
    LineScanner.PartsMatch(before, DecimalText(d), after);
    DecimalStands(text, |before|, d);
    ProseStands(text, b, after);
    PrefixReadsDecimal(text, |before|, d, b);
    LineScanner.DecimalIsRead(before, d, after);
  }

  lemma ProseStands(text: string, b: nat, after: string)
    requires LineScanner.IsProse(after) && MatchesAt(text, b, after) && |text| == b + |after|
    ensures DigitFree(text, b, |text|)
  {
    assert forall p :: b <= p < |text| ==> text[p] == after[p - b];
  }

  // ----- any text ----------------------------------------------------------------------------

  /** What the LINE scanner reads as digits: digits, and commas that it drops. */
  predicate InRun(raw: string, i: nat)
    requires i < |raw|
  {
    IsDigit(raw[i]) || LineScanner.IsGroupingComma(raw, i)
  }

  function RunEnd(raw: string, i: nat): (j: nat)
    requires i <= |raw|
    ensures i <= j <= |raw|
    ensures forall p :: i <= p < j ==> InRun(raw, p)
    ensures j < |raw| ==> !InRun(raw, j)
    decreases |raw| - i
  {
    if i < |raw| && InRun(raw, i) then RunEnd(raw, i + 1) else i
  }

  predicate DotDigit(raw: string, j: nat) {
    j + 1 < |raw| && raw[j] == '.' && IsDigit(raw[j + 1])
  }

  predicate CommaDigit(raw: string, j: nat) {
    j + 1 < |raw| && raw[j] == ',' && IsDigit(raw[j + 1])
  }

  /** Where, in the raw text, the LINE scanner's numeral from `p` on ends. */
  function LineEnd(raw: string, p: nat): (n: nat)
    requires p < |raw| && IsDigit(raw[p])
    ensures p < n <= |raw|
  {
    var j := RunEnd(raw, p);
    if DotDigit(raw, j) then RunEnd(raw, j + 1) else j
  }

  /** Where the group scanner's number ends, less a dot without digits behind it. */
  function GroupNumberEnd(raw: string, p: nat): (n: nat)
    requires p < |raw| && IsDigit(raw[p])
    ensures p < n <= |raw|
  {
    var j := GroupEnd(raw, p);
    if DotDigit(raw, j) then FractionEnd(raw, j + 1) else j
  }

  /** The digits that the LINE scanner parses for the numeral at raw position `p`. */
  function LineDigits(raw: string, p: nat): string
    requires p < |raw| && IsDigit(raw[p])
  {
    var s, q := LineScanner.Normalized(raw), |LineScanner.Segment(raw, 0, p)|;
    if q < |s| then s[q..LineScanner.NumeralEnd(s, q)] else []
  }

  /** The digits that the group scanner parses there, less a final dot. */
  function GroupDigits(raw: string, p: nat): string
    requires p < |raw| && IsDigit(raw[p])
  {
    Cleaned(raw, p, GroupNumberEnd(raw, p))
  }

  // ----- what the LINE scanner reads, in terms of the raw text -----------------------------------

  lemma {:induction false} RunIsCleaned(raw: string, i: nat, j: nat)
    requires i <= j <= |raw| && forall p :: i <= p < j ==> InRun(raw, p)
    ensures LineScanner.Segment(raw, i, j) == Cleaned(raw, i, j)
    decreases j
  {
    if i < j {
      RunIsCleaned(raw, i, j - 1);
      ContributionIsCleaned(raw, j - 1);
    }
  }

  lemma RunIsDigits(raw: string, i: nat, j: nat)
    requires i <= j <= |raw| && forall p :: i <= p < j ==> InRun(raw, p)
    ensures AllDigits(Cleaned(raw, i, j))
  {
    RunIsGroup(raw, i, j);
    CleanedGroup(raw, i, j);
  }

  lemma RunIsGroup(raw: string, i: nat, j: nat)
    requires i <= j <= |raw| && forall p :: i <= p < j ==> InRun(raw, p)
    ensures forall p :: i <= p < j ==> InGroup(raw[p])
  {
    forall p | i <= p < j ensures InGroup(raw[p]) { assert InRun(raw, p); }
  }

  lemma ContributionIsCleaned(raw: string, k: nat)
    requires k < |raw| && InRun(raw, k)
    ensures LineScanner.Contribution(raw, k) == CleanedChar(raw[k])
  {
  }

  /** A segment stands in the normalised text at its own place. */
  lemma SegmentStands(raw: string, i: nat, j: nat)
    requires i <= j <= |raw|
    ensures var s, a := LineScanner.Normalized(raw), |LineScanner.Segment(raw, 0, i)|;
            var b := |LineScanner.Segment(raw, 0, j)|;
            a <= b <= |s| && s[a..b] == LineScanner.Segment(raw, i, j)
  {
    LineScanner.ThreeSegments(raw, i, j);
    LineScanner.SegmentSplits(raw, 0, i, j);
  }

  /** The character at the place of a position that no comma leaves empty. */
  lemma CharacterStands(raw: string, j: nat)
    requires j < |raw| && !LineScanner.IsGroupingComma(raw, j)
    ensures var s, a := LineScanner.Normalized(raw), |LineScanner.Segment(raw, 0, j)|;
            && a < |s| && |LineScanner.Segment(raw, 0, j + 1)| == a + 1
            && (IsAsciiDigit(s[a]) <==> IsDigit(raw[j])) && (s[a] == '.' <==> raw[j] == '.')
  {
    SegmentStands(raw, j, j + 1);
    var s, a := LineScanner.Normalized(raw), |LineScanner.Segment(raw, 0, j)|;
    assert LineScanner.Segment(raw, j, j + 1) == LineScanner.Contribution(raw, j);
    assert s[a..a + 1][0] == s[a];
  }

  /** A run of the raw text is a run of digits of the normalised text. */
  lemma RunIsRead(raw: string, i: nat)
    requires i <= |raw|
    ensures var s, a := LineScanner.Normalized(raw), |LineScanner.Segment(raw, 0, i)|;
            a <= |s| && LineScanner.DigitsEnd(s, a) == |LineScanner.Segment(raw, 0, RunEnd(raw, i))|
  {
    var j := RunEnd(raw, i);
    var s, a, b := LineScanner.Normalized(raw), |LineScanner.Segment(raw, 0, i)|, |LineScanner.Segment(raw, 0, j)|;
    SegmentStands(raw, i, j);
    RunIsCleaned(raw, i, j);
    RunIsDigits(raw, i, j);
    assert forall p :: a <= p < b ==> s[p] == s[a..b][p - a];
    if j < |raw| { CharacterStands(raw, j); }
    LineScanner.DigitsEndAt(s, a, b);
  }

  /** The LINE scanner's digits are the cleaned raw text up to `LineEnd`. */
  lemma LineReads(raw: string, p: nat)
    requires p < |raw| && IsDigit(raw[p])
    ensures var s, q := LineScanner.Normalized(raw), |LineScanner.Segment(raw, 0, p)|;
            && q < |s| && IsAsciiDigit(s[q])
            && LineScanner.NumeralEnd(s, q) == |LineScanner.Segment(raw, 0, LineEnd(raw, p))|
    ensures LineDigits(raw, p) == Cleaned(raw, p, LineEnd(raw, p))
  {
    CharacterStands(raw, p);
    LineNumeralEnd(raw, p);
    SegmentStands(raw, p, LineEnd(raw, p));
    LineSegment(raw, p);
  }

  /** A dot and a digit stand in the normalised text where they stand in the raw text. */
  lemma DotDigitStands(raw: string, j: nat)
    requires j <= |raw| && (j < |raw| ==> !LineScanner.IsGroupingComma(raw, j))
    ensures var s, e := LineScanner.Normalized(raw), |LineScanner.Segment(raw, 0, j)|;
            && e <= |s|
            && (DotDigit(raw, j) <==> e + 1 < |s| && s[e] == '.' && IsAsciiDigit(s[e + 1]))
            && (DotDigit(raw, j) ==> |LineScanner.Segment(raw, 0, j + 1)| == e + 1)
  {
    SegmentStands(raw, j, j);
    if j < |raw| {
      CharacterStands(raw, j);
      if raw[j] == '.' && j + 1 < |raw| { CharacterStands(raw, j + 1); }
    }
  }

  lemma LineNumeralEnd(raw: string, p: nat)
    requires p < |raw| && IsDigit(raw[p])
    requires |LineScanner.Segment(raw, 0, p)| < |LineScanner.Normalized(raw)|
    ensures LineScanner.NumeralEnd(LineScanner.Normalized(raw), |LineScanner.Segment(raw, 0, p)|)
         == |LineScanner.Segment(raw, 0, LineEnd(raw, p))|
  {
    var j := RunEnd(raw, p);
    if DotDigit(raw, j) {
      NumeralWithFraction(raw, p, j, RunEnd(raw, j + 1));
    } else {
      NumeralWithoutFraction(raw, p, j);
    }
  }

  lemma NumeralWithFraction(raw: string, p: nat, j: nat, n: nat)
    requires p < |raw| && IsDigit(raw[p]) && j == RunEnd(raw, p) && DotDigit(raw, j) && n == RunEnd(raw, j + 1)
    requires |LineScanner.Segment(raw, 0, p)| < |LineScanner.Normalized(raw)|
    ensures LineScanner.NumeralEnd(LineScanner.Normalized(raw), |LineScanner.Segment(raw, 0, p)|)
              == |LineScanner.Segment(raw, 0, n)|
    ensures LineEnd(raw, p) == n
  {
    RunIsRead(raw, p);
    DotDigitStands(raw, j);
    RunIsRead(raw, j + 1);
    NumeralEndIs(LineScanner.Normalized(raw), |LineScanner.Segment(raw, 0, p)|,
                 |LineScanner.Segment(raw, 0, j)|, true, |LineScanner.Segment(raw, 0, n)|);
  }

  lemma NumeralWithoutFraction(raw: string, p: nat, j: nat)
    requires p < |raw| && IsDigit(raw[p]) && j == RunEnd(raw, p) && !DotDigit(raw, j)
    requires |LineScanner.Segment(raw, 0, p)| < |LineScanner.Normalized(raw)|
    ensures LineScanner.NumeralEnd(LineScanner.Normalized(raw), |LineScanner.Segment(raw, 0, p)|)
              == |LineScanner.Segment(raw, 0, j)|
    ensures LineEnd(raw, p) == j
  {
    RunIsRead(raw, p);
    DotDigitStands(raw, j);
    NumeralEndIs(LineScanner.Normalized(raw), |LineScanner.Segment(raw, 0, p)|,
                 |LineScanner.Segment(raw, 0, j)|, false, |LineScanner.Segment(raw, 0, j)|);
  }

  lemma NumeralEndIs(s: string, q: nat, e: nat, fraction: bool, n: nat)
    requires q < |s| && LineScanner.DigitsEnd(s, q) == e
    requires fraction <==> e + 1 < |s| && s[e] == '.' && IsAsciiDigit(s[e + 1])
    requires n == if fraction then LineScanner.DigitsEnd(s, e + 1) else e
    ensures LineScanner.NumeralEnd(s, q) == n
  {
  }

  lemma LineSegment(raw: string, p: nat)
    requires p < |raw| && IsDigit(raw[p])
    ensures LineScanner.Segment(raw, p, LineEnd(raw, p)) == Cleaned(raw, p, LineEnd(raw, p))
  {
    var j, n := RunEnd(raw, p), LineEnd(raw, p);
    RunIsCleaned(raw, p, j);
    if DotDigit(raw, j) {
      RunIsCleaned(raw, j + 1, n);
      DottedSegment(raw, p, j, n, Cleaned(raw, p, j), Cleaned(raw, j + 1, n));
    }
  }

  lemma DottedSegment(raw: string, p: nat, j: nat, n: nat, whole: string, fraction: string)
    requires p <= j < n <= |raw| && raw[j] == '.'
    requires LineScanner.Segment(raw, p, j) == Cleaned(raw, p, j) == whole
    requires LineScanner.Segment(raw, j + 1, n) == Cleaned(raw, j + 1, n) == fraction
    ensures LineScanner.Segment(raw, p, n) == Cleaned(raw, p, n)
  {
    CleanedDotted(raw, p, j, n);
    LineScanner.SegmentJoins(raw, p, j, n, whole, fraction);
    assert whole + "." + fraction == whole + ("." + fraction);
  }

  // ----- the exact condition -------------------------------------------------------------------

  /** The text separates digits in a way that both scanners understand alike: within the group only
      commas between two digits come before further digits; a group that ends in a comma has no
      fraction behind it; and no comma and digit follow a fraction. */
  ghost predicate SeparatesAlike(raw: string, p: nat)
    requires p < |raw| && IsDigit(raw[p])
  {
    var j := GroupEnd(raw, p);
    && (forall c, d :: p <= c < d < j && raw[c] == ',' && IsDigit(raw[d]) ==> LineScanner.IsGroupingComma(raw, c))
    && !(raw[j - 1] == ',' && DotDigit(raw, j))
    && !(DotDigit(raw, j) && CommaDigit(raw, FractionEnd(raw, j + 1)))
  }

  /** One reads what the other reads exactly if only commas make the difference. */
  lemma SameCleaned(raw: string, p: nat, a: nat, b: nat)
    requires p <= a <= b <= |raw|
    ensures Cleaned(raw, p, a) == Cleaned(raw, p, b) <==> OnlyCommas(raw, a, b)
  {
    CleanedSplits(raw, p, a, b);
    CleanedIsEmpty(raw, a, b);
    if |Cleaned(raw, a, b)| == 0 {
      assert Cleaned(raw, p, a) + [] == Cleaned(raw, p, a);
    }
  }

  /** The run stays within the group, and all of the group's digits are in it exactly if no stray
      comma comes before one of them. */
  lemma RunInGroup(raw: string, p: nat)
    requires p < |raw| && IsDigit(raw[p])
    ensures var r, j := RunEnd(raw, p), GroupEnd(raw, p);
            && p < r <= j && IsDigit(raw[r - 1])
            && (OnlyCommas(raw, r, j) <==>
                forall c, d :: p <= c < d < j && raw[c] == ',' && IsDigit(raw[d]) ==>
                    LineScanner.IsGroupingComma(raw, c))
  {
    var r, j := RunEnd(raw, p), GroupEnd(raw, p);
    assert InRun(raw, p);
    assert j < r ==> InRun(raw, j);
    assert InRun(raw, r - 1);
    if !OnlyCommas(raw, r, j) {
      var d :| r <= d < j && raw[d] != ',';
      assert InGroup(raw[d]) && InGroup(raw[r]);
      assert raw[r] == ',' && r < d && IsDigit(raw[d]);
    } else {
      forall c, d | p <= c < d < j && raw[c] == ',' && IsDigit(raw[d]) ensures LineScanner.IsGroupingComma(raw, c) {
        assert d < r && InRun(raw, c);
      }
    }
  }

  /** At every digit of every text, the two scanners read the same digits from there on if and only if
      the text separates them alike. */
  lemma SameDigitsIff(raw: string, p: nat)
    requires p < |raw| && IsDigit(raw[p])
    ensures LineDigits(raw, p) == GroupDigits(raw, p) <==> SeparatesAlike(raw, p)
  {
    LineReads(raw, p);
    RunInGroup(raw, p);
    var r, j := RunEnd(raw, p), GroupEnd(raw, p);
    var a, b := LineEnd(raw, p), GroupNumberEnd(raw, p);
    if r < j {
      assert InGroup(raw[r]) && raw[r] == ',';
      assert a == r;
      SameCleaned(raw, p, a, b);
      StrayComma(raw, p);
    } else {
      SameFraction(raw, p);
    }
  }

  /** A run that ends before its group does so at a comma, and reads no fraction. */
  lemma StrayComma(raw: string, p: nat)
    requires p < |raw| && IsDigit(raw[p]) && RunEnd(raw, p) < GroupEnd(raw, p)
    ensures OnlyCommas(raw, RunEnd(raw, p), GroupNumberEnd(raw, p)) <==> SeparatesAlike(raw, p)
  {
    RunInGroup(raw, p);
    var r, j, b := RunEnd(raw, p), GroupEnd(raw, p), GroupNumberEnd(raw, p);
    if OnlyCommas(raw, r, j) {
      assert raw[j - 1] == ',';
      if DotDigit(raw, j) { assert raw[j] == '.' && r <= j < b; }
    } else {
      var d :| r <= d < j && raw[d] != ',';
      assert d < b;
    }
  }

  /** A run that is its whole group reads on behind a dot as long as digits and dropped commas last. */
  lemma SameFraction(raw: string, p: nat)
    requires p < |raw| && IsDigit(raw[p]) && RunEnd(raw, p) == GroupEnd(raw, p)
    ensures Cleaned(raw, p, LineEnd(raw, p)) == Cleaned(raw, p, GroupNumberEnd(raw, p)) <==> SeparatesAlike(raw, p)
  {
    RunInGroup(raw, p);
    var j := GroupEnd(raw, p);
    assert OnlyCommas(raw, j, j) && raw[j - 1] != ',';
    if DotDigit(raw, j) {
      var n, a := FractionEnd(raw, j + 1), RunEnd(raw, j + 1);
      FractionInRun(raw, j + 1);
      SameCleaned(raw, p, n, a);
      assert SeparatesAlike(raw, p) <==> !CommaDigit(raw, n);
    }
  }

  /** A run that starts with a digit goes past the digits exactly if a comma and a digit follow, and
      then takes in that digit. */
  lemma FractionInRun(raw: string, i: nat)
    requires i < |raw| && IsDigit(raw[i])
    ensures var n, a := FractionEnd(raw, i), RunEnd(raw, i);
            i < n <= a && (OnlyCommas(raw, n, a) <==> !CommaDigit(raw, n))
  {
    var n, a := FractionEnd(raw, i), RunEnd(raw, i);
    assert i < n;
    assert a < n ==> InRun(raw, a);
    assert n < a ==> InRun(raw, n);
    if CommaDigit(raw, n) {
      assert InRun(raw, n) && InRun(raw, n + 1);
      assert n + 1 < a;
    }
  }

  // ----- the exact condition for the number ------------------------------------------------------

  /** Every digit there is a 0. */
  predicate Zeros(raw: string, i: nat, j: nat) {
    forall p :: i <= p < j && p < |raw| && IsDigit(raw[p]) ==> DigitValue(raw[p]) == 0
  }

  /** The digits that only one scanner reads do not change the number: they are zeros, and where they
      continue the whole number, that is 0 so far. */
  predicate FurtherDigitsAreIdle(raw: string, p: nat)
    requires p < |raw| && IsDigit(raw[p])
  {
    var a, b := LineEnd(raw, p), GroupNumberEnd(raw, p);
    && Zeros(raw, Min(a, b), if a < b then b else a)
    && (OnlyCommas(raw, RunEnd(raw, p), GroupEnd(raw, p)) || Zeros(raw, p, RunEnd(raw, p)))
  }

  lemma {:induction false} CleanedZeros(raw: string, i: nat, j: nat)
    requires i <= j <= |raw| && forall p :: i <= p < j ==> InGroup(raw[p])
    ensures AllZeros(Cleaned(raw, i, j)) <==> Zeros(raw, i, j)
    decreases j
  {
    if i < j {
      CleanedZeros(raw, i, j - 1);
      var init, last := Cleaned(raw, i, j - 1), CleanedChar(raw[j - 1]);
      ZerosAppend(init, last);
      ZeroCharacter(raw[j - 1]);
      assert AllZeros(last) <==> Zeros(raw, j - 1, j);
      assert Zeros(raw, i, j) <==> Zeros(raw, i, j - 1) && Zeros(raw, j - 1, j);
    }
  }

  lemma ZeroCharacter(c: char)
    requires InGroup(c)
    ensures AllZeros(CleanedChar(c)) <==> (IsDigit(c) ==> DigitValue(c) == 0)
  {
    if IsDigit(c) {
      assert CleanedChar(c)[0] == AsciiOf(DigitValue(c));
      assert AllZeros(CleanedChar(c)) <==> CleanedChar(c)[0] == '0';
    }
  }

  lemma ZerosAppend(s: string, t: string)
    ensures AllZeros(s + t) <==> AllZeros(s) && AllZeros(t)
  {
    assert forall i :: 0 <= i < |s| ==> (s + t)[i] == s[i];
    assert forall i :: 0 <= i < |t| ==> (s + t)[|s| + i] == t[i];
  }

  /** A whole number and its continuation, with or without a fraction, are equal exactly if the
      continuation is idle. */
  lemma ContinuedEqual(w: string, x: string, f: string)
    requires AllDigits(w) && AllDigits(x) && AllDigits(f)
    ensures AllDigits(w + x)
    ensures WholeOf(w) == WholeOf(w + x) <==> x == [] || AllZeros(w + x)
    ensures WholeOf(w) == DecimalOf(w + x, f) <==> AllZeros(f) && (x == [] || AllZeros(w + x))
  {
    IntegerGrows(w, x);
    IntegerIsZero(f);
    ShiftedSign(IntegerValue(f) as real, |f|);
    if x == [] { assert w + x == w; }
  }

  lemma ContinuedParse(w: string, x: string, f: string)
    requires AllDigits(w) && AllDigits(x) && AllDigits(f) && w != []
    ensures ParseDecimal(w) == ParseDecimal(w + x) <==> x == [] || AllZeros(w + x)
    ensures ParseDecimal(w) == ParseDecimal(w + x + "." + f) <==> AllZeros(f) && (x == [] || AllZeros(w + x))
  {
    ContinuedEqual(w, x, f);
    ParseInteger(w);
    ParseInteger(w + x);
    ParseDotted(w + x, f);
  }

  lemma ExtendedParse(w: string, f: string, y: string)
    requires AllDigits(w) && AllDigits(f) && AllDigits(y) && w != []
    ensures ParseDecimal(w + "." + (f + y)) == ParseDecimal(w + "." + f) <==> AllZeros(y)
  {
    ExtendedEqual(w, f, y, f + y);
    ParseDotted(w, f + y);
    ParseDotted(w, f);
  }

  lemma ExtendedEqual(w: string, f: string, y: string, longer: string)
    requires AllDigits(w) && AllDigits(f) && AllDigits(y) && longer == f + y
    ensures AllDigits(longer) && (DecimalOf(w, longer) == DecimalOf(w, f) <==> AllZeros(y))
  {
    FractionGrows(f, y);
  }

  /** At every digit of every text the two scanners read the same number if and only if the digits that
      only one of them reads are idle. */
  lemma SameNumberIff(raw: string, p: nat)
    requires p < |raw| && IsDigit(raw[p])
    ensures ParseDecimal(LineDigits(raw, p)) == ParseDecimal(GroupDigits(raw, p)) <==> FurtherDigitsAreIdle(raw, p)
  {
    LineDigitsAre(raw, p);
    CleanedNumberIff(raw, p);
  }

  lemma LineDigitsAre(raw: string, p: nat)
    requires p < |raw| && IsDigit(raw[p])
    ensures LineDigits(raw, p) == Cleaned(raw, p, LineEnd(raw, p))
  {
    LineReads(raw, p);
  }

  lemma CleanedNumberIff(raw: string, p: nat)
    requires p < |raw| && IsDigit(raw[p])
    ensures ParseDecimal(Cleaned(raw, p, LineEnd(raw, p))) == ParseDecimal(Cleaned(raw, p, GroupNumberEnd(raw, p)))
            <==> FurtherDigitsAreIdle(raw, p)
  {
    RunInGroup(raw, p);
    if RunEnd(raw, p) < GroupEnd(raw, p) {
      NumberBehindComma(raw, p, RunEnd(raw, p), GroupEnd(raw, p), GroupNumberEnd(raw, p));
    } else {
      NumberOfWholeGroup(raw, p, GroupEnd(raw, p));
    }
  }

  lemma NumberBehindComma(raw: string, p: nat, r: nat, j: nat, n: nat)
    requires p < |raw| && IsDigit(raw[p]) && r == RunEnd(raw, p) && j == GroupEnd(raw, p) && n == GroupNumberEnd(raw, p)
    requires p < r < j
    ensures LineEnd(raw, p) == r
    ensures ParseDecimal(Cleaned(raw, p, r)) == ParseDecimal(Cleaned(raw, p, n)) <==> FurtherDigitsAreIdle(raw, p)
  {
    assert InGroup(raw[r]) && raw[r] == ',';
    StrayCommaNumber(raw, p, r, j, n);
    assert FurtherDigitsAreIdle(raw, p) <==> Zeros(raw, r, n) && (OnlyCommas(raw, r, j) || Zeros(raw, p, r));
  }

  lemma NumberOfWholeGroup(raw: string, p: nat, j: nat)
    requires p < |raw| && IsDigit(raw[p]) && j == GroupEnd(raw, p) == RunEnd(raw, p)
    ensures ParseDecimal(Cleaned(raw, p, LineEnd(raw, p))) == ParseDecimal(Cleaned(raw, p, GroupNumberEnd(raw, p)))
            <==> FurtherDigitsAreIdle(raw, p)
  {
    assert OnlyCommas(raw, j, j);
    if DotDigit(raw, j) {
      NumberBehindFraction(raw, p, j, FractionEnd(raw, j + 1), RunEnd(raw, j + 1));
    } else {
      assert FurtherDigitsAreIdle(raw, p);
    }
  }

  lemma NumberBehindFraction(raw: string, p: nat, j: nat, n: nat, a: nat)
    requires p < |raw| && IsDigit(raw[p]) && j == GroupEnd(raw, p) == RunEnd(raw, p) && DotDigit(raw, j)
    requires n == FractionEnd(raw, j + 1) && a == RunEnd(raw, j + 1)
    ensures LineEnd(raw, p) == a && GroupNumberEnd(raw, p) == n
    ensures ParseDecimal(Cleaned(raw, p, a)) == ParseDecimal(Cleaned(raw, p, n)) <==> FurtherDigitsAreIdle(raw, p)
  {
    LongerFraction(raw, p, j, n, a);
    assert OnlyCommas(raw, j, j);
    assert FurtherDigitsAreIdle(raw, p) <==> Zeros(raw, n, a);
  }

  /** A run that ends at a stray comma is continued by the rest of the group, and its fraction if any. */
  lemma StrayCommaNumber(raw: string, p: nat, r: nat, j: nat, n: nat)
    requires p < |raw| && IsDigit(raw[p]) && p < r < j && j == GroupEnd(raw, p)
    requires n == if DotDigit(raw, j) then FractionEnd(raw, j + 1) else j
    ensures ParseDecimal(Cleaned(raw, p, r)) == ParseDecimal(Cleaned(raw, p, n))
            <==> Zeros(raw, r, n) && (OnlyCommas(raw, r, j) || Zeros(raw, p, r))
  {
    var w, x := Cleaned(raw, p, r), Cleaned(raw, r, j);
    GroupParts(raw, p, r, j);
    if DotDigit(raw, j) {
      var f := Cleaned(raw, j + 1, n);
      FractionParts(raw, j, n);
      CleanedDotted(raw, p, j, n);
      ContinuedParse(w, x, f);
      ZerosJoin(raw, r, j, n);
    } else {
      ContinuedParse(w, x, x);
    }
  }

  lemma FractionParts(raw: string, j: nat, n: nat)
    requires DotDigit(raw, j) && n == FractionEnd(raw, j + 1)
    ensures AllDigits(Cleaned(raw, j + 1, n)) && (AllZeros(Cleaned(raw, j + 1, n)) <==> Zeros(raw, j + 1, n))
  {
    CleanedGroup(raw, j + 1, n);
    CleanedZeros(raw, j + 1, n);
  }

  lemma ZerosJoin(raw: string, r: nat, j: nat, n: nat)
    requires r <= j < n <= |raw| && !IsDigit(raw[j])
    ensures Zeros(raw, r, n) <==> Zeros(raw, r, j) && Zeros(raw, j + 1, n)
  {
  }

  /** A group taken apart where the run ends. */
  lemma GroupParts(raw: string, p: nat, r: nat, j: nat)
    requires p < |raw| && IsDigit(raw[p]) && p < r <= j && j == GroupEnd(raw, p)
    ensures var w, x := Cleaned(raw, p, r), Cleaned(raw, r, j);
            && Cleaned(raw, p, j) == w + x && AllDigits(w) && AllDigits(x) && AllDigits(w + x) && w != []
            && (x == [] <==> OnlyCommas(raw, r, j)) && (AllZeros(x) <==> Zeros(raw, r, j))
            && (AllZeros(w + x) <==> Zeros(raw, p, r) && Zeros(raw, r, j))
  {
    CleanedSplits(raw, p, r, j);
    CleanedGroup(raw, p, r);
    CleanedGroup(raw, r, j);
    CleanedIsEmpty(raw, r, j);
    CleanedZeros(raw, p, r);
    CleanedZeros(raw, r, j);
    ZerosAppend(Cleaned(raw, p, r), Cleaned(raw, r, j));
  }

  /** A fraction that the LINE scanner continues past a comma. */
  lemma LongerFraction(raw: string, p: nat, j: nat, n: nat, a: nat)
    requires p < |raw| && IsDigit(raw[p]) && j == GroupEnd(raw, p) && DotDigit(raw, j)
    requires n == FractionEnd(raw, j + 1) && a == RunEnd(raw, j + 1)
    ensures n <= a
    ensures ParseDecimal(Cleaned(raw, p, a)) == ParseDecimal(Cleaned(raw, p, n)) <==> Zeros(raw, n, a)
  {
    var w, f, y := Cleaned(raw, p, j), Cleaned(raw, j + 1, n), Cleaned(raw, n, a);
    CleanedGroup(raw, p, j);
    FractionParts(raw, j, n);
    FractionTail(raw, j, n, a);
    ExtendedParse(w, f, y);
    CleanedDotted(raw, p, j, n);
    CleanedDotted(raw, p, j, a);
  }

  lemma FractionTail(raw: string, j: nat, n: nat, a: nat)
    requires DotDigit(raw, j) && n == FractionEnd(raw, j + 1) && a == RunEnd(raw, j + 1)
    ensures n <= a && Cleaned(raw, j + 1, a) == Cleaned(raw, j + 1, n) + Cleaned(raw, n, a)
    ensures AllDigits(Cleaned(raw, n, a)) && (AllZeros(Cleaned(raw, n, a)) <==> Zeros(raw, n, a))
  {
    FractionInRun(raw, j + 1);
    RunIsGroup(raw, n, a);
    CleanedGroup(raw, n, a);
    CleanedZeros(raw, n, a);
    CleanedSplits(raw, j + 1, n, a);
  }

  /** Where the further digits are idle the LINE hit has the group scanner's number for
      a value, times the magnitude word behind it. */
  lemma SameValue(raw: string, p: nat)
    requires p < |raw| && IsDigit(raw[p]) && FurtherDigitsAreIdle(raw, p)
    ensures var s, q := LineScanner.Normalized(raw), |LineScanner.Segment(raw, 0, p)|;
            && q < |s| && IsAsciiDigit(s[q]) && ParsePrefix(raw, p).Some?
            && LineScanner.HitAt(s, q).value
            == LineScanner.Scaled(ParsePrefix(raw, p).value.value,
                                  LineScanner.MagnitudeAt(s, LineScanner.SpacesEnd(s, LineScanner.NumeralEnd(s, q))))
  {
    SameNumberIff(raw, p);
    LineReads(raw, p);
    PrefixIffDigit(raw, p);
    GroupNumberIsParsed(raw, p);
  }

  /** Reading the same digits is more than reading the same number. */
  lemma SeparatedAlikeIsIdle(raw: string, p: nat)
    requires p < |raw| && IsDigit(raw[p]) && SeparatesAlike(raw, p)
    ensures FurtherDigitsAreIdle(raw, p)
  {
    SameDigitsIff(raw, p);
    SameNumberIff(raw, p);
  }

  /** A final dot does not change the value the group scanner parses. */
  lemma GroupNumberIsParsed(raw: string, p: nat)
    requires p < |raw| && IsDigit(raw[p])
    ensures ParsePrefix(raw, p).Some? && ParseDecimal(GroupDigits(raw, p)) == Some(ParsePrefix(raw, p).value.value)
  {
    var j := GroupEnd(raw, p);
    PrefixIffDigit(raw, p);
    if j < |raw| && raw[j] == '.' && !DotDigit(raw, j) {
      CleanedGroup(raw, p, j);
      PrefixOfDottedGroup(raw, p, j, Cleaned(raw, p, j));
      ParseInteger(Cleaned(raw, p, j));
    }
  }

  // ----- examples ------------------------------------------------------------------------------

  /** Each clause of the condition can fail on its own: a doubled comma, a comma before the dot, and a
      comma within the fraction. */
  lemma EachClauseMatters(s: string)
    requires s in {"1,,2", "1,.5", "1.2,3"}
    ensures !SeparatesAlike(s, 0) && LineDigits(s, 0) != GroupDigits(s, 0)
  {
    if s == "1,,2" {
      GroupEndAt(s, 0, 4);
      assert s[1] == ',' && IsDigit(s[3]) && !LineScanner.IsGroupingComma(s, 1);
    } else if s == "1,.5" {
      GroupEndAt(s, 0, 2);
      assert s[1] == ',' && DotDigit(s, 2);
    } else {
      GroupEndAt(s, 0, 1);
      FractionEndAt(s, 2, 3);
      assert DotDigit(s, 1) && CommaDigit(s, 3);
    }
    SameDigitsIff(s, 0);
  }

  /** They part company on a doubled comma: one reads `1,,2` as 12, the other as a 1 and a 2. */
  lemma ScannersDisagree(s: string)
    requires s == "1,,2"
    ensures ParsePrefix(s, 0) == Some(Parsed(12.0, 4))
    ensures LineScanner.Normalized(s) == s
    ensures LineScanner.ScanFrom(s, 0) != [] && LineScanner.ScanFrom(s, 0)[0] == LineScanner.NumberHit(1.0, 0, 1)
  {
    ReadsTwelve(s);
    LineScanner.NormalizeMeaning(s);
    ReadsOne(s);
  }

  lemma ReadsTwelve(s: string)
    requires s == "1,,2"
    ensures ParsePrefix(s, 0) == Some(Parsed(12.0, 4))
  {
    GroupEndAt(s, 0, 4);
    assert Cleaned(s, 0, 1) == ['1'];
    assert Cleaned(s, 0, 3) == ['1'];
    TwelveIsTwelve(Cleaned(s, 0, 4));
  }

  lemma TwelveIsTwelve(digits: string)
    requires digits == ['1', '2']
    ensures ParseDecimal(digits) == Some(12.0)
  {
    assert digits[..1] == ['1'];
    assert IntegerValue(digits[..1]) == 1;
    assert IntegerValue(digits) == 12;
    ParseInteger(digits);
  }

  lemma ReadsOne(s: string)
    requires s == "1,,2"
    ensures LineScanner.HitAt(s, 0) == LineScanner.NumberHit(1.0, 0, 1)
  {
    LineScanner.DigitsEndAt(s, 0, 1);
    var one := s[0..1];
    assert one == ['1'] && one[..0] == [];
    assert IntegerValue(one) == 1;
    ParseInteger(one);
    assert LineScanner.SpacesEnd(s, 1) == 1;
    forall m ensures !MatchesAt(s, 1, LineScanner.Word(m)) {
      assert s[1 + 0] != LineScanner.Word(m)[0];
    }
  }
}
