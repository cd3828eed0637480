/** The number scanner for LINE messages: digits are normalised, then every numeric mention is read
    off in one left-to-right pass. The text is taken after lower-casing. */
module LineScanner {
  import opened Base
  import opened Numerals
  import opened Text

  /** A number with the half-open range it was read from, magnitude word included. */
  datatype NumberHit = NumberHit(value: real, start: nat, end: nat)

  // ----- normalisation -----------------------------------------------------------------------

  predicate IsGroupingComma(raw: string, i: nat)
    requires i < |raw|
  {
    raw[i] == ',' && i > 0 && i + 1 < |raw| && IsDigit(raw[i - 1]) && IsDigit(raw[i + 1])
  }

  /** What position `i` of the raw text contributes to the normalised text. */
  function Contribution(raw: string, i: nat): string
    requires i < |raw|
  {
    if IsThaiDigit(raw[i]) then [AsciiOf(DigitValue(raw[i]))]
    else if IsGroupingComma(raw, i) then []
    else [raw[i]]
  }

  /** What the positions from `lo` to below `hi` contribute. */
  function Segment(raw: string, lo: nat, hi: nat): string
    requires lo <= hi <= |raw|
    decreases hi
  {
    if lo == hi then [] else Segment(raw, lo, hi - 1) + Contribution(raw, hi - 1)
  }

  function Normalized(raw: string): string {
    Segment(raw, 0, |raw|)
  }

  method Normalize(raw: string) returns (out: string)
    ensures out == Normalized(raw)
  {
    out := [];
    for i := 0 to |raw|
      invariant out == Segment(raw, 0, i)
    {
      if IsThaiDigit(raw[i]) {
        out := out + [AsciiOf(DigitValue(raw[i]))];
      } else if raw[i] == ',' && i > 0 && i + 1 < |raw| && IsDigit(raw[i - 1]) && IsDigit(raw[i + 1]) {
        // a grouping comma inside a digit run
      } else {
        out := out + [raw[i]];
      }
    }
  }

  /** The values of the digits among the first `n` characters, in order. */
  function DigitValues(s: string, n: nat): seq<nat>
    requires n <= |s|
  {
    if n == 0 then [] else DigitValues(s, n - 1) + ValuesOf(s[n - 1])
  }

  function ValuesOf(c: char): seq<nat> {
    if IsDigit(c) then [DigitValue(c)] else []
  }

  /** No Thai digit and no comma between two digits. */
  predicate IsClean(s: string) {
    && (forall i :: 0 <= i < |s| ==> !IsThaiDigit(s[i]))
    && (forall i :: 0 <= i < |s| ==> !IsGroupingComma(s, i))
  }

  lemma {:induction false} DigitValuesOfPrefix(s: string, t: string, n: nat)
    requires n <= |s| && s <= t
    ensures DigitValues(t, n) == DigitValues(s, n)
  {
    if n > 0 { DigitValuesOfPrefix(s, t, n - 1); }
  }

  lemma ContributionKeepsDigits(done: string, raw: string, n: nat)
    requires n < |raw|
    ensures var out := done + Contribution(raw, n);
            DigitValues(out, |out|) == DigitValues(done, |done|) + ValuesOf(raw[n])
  {
    var out := done + Contribution(raw, n);
    DigitValuesOfPrefix(done, out, |done|);
  }

  /** Normalisation keeps every digit, in order. */
  lemma {:induction false} NormalizationKeepsDigits(raw: string, n: nat)
    requires n <= |raw|
    ensures DigitValues(Segment(raw, 0, n), |Segment(raw, 0, n)|) == DigitValues(raw, n)
  {
    if n > 0 {
      NormalizationKeepsDigits(raw, n - 1);
      ContributionKeepsDigits(Segment(raw, 0, n - 1), raw, n - 1);
    }
  }

  /** How a normalised prefix ends: with the image of the last raw character, or, where that was a
      grouping comma, with the digit before it. A trailing comma that survived sits beside a
      non-digit. */
  ghost predicate EndsLike(raw: string, n: nat, out: string)
    requires 0 < n <= |raw|
  {
    && out != []
    && (IsDigit(out[|out| - 1]) <==> IsDigit(raw[n - 1]) || IsGroupingComma(raw, n - 1))
    && (out[|out| - 1] == ',' <==> raw[n - 1] == ',' && !IsGroupingComma(raw, n - 1))
    && (out[|out| - 1] == ',' && |out| > 1 && IsDigit(out[|out| - 2]) && n < |raw| ==> !IsDigit(raw[n]))
  }

  lemma {:induction false} SegmentIsClean(raw: string, n: nat)
    requires n <= |raw|
    ensures IsClean(Segment(raw, 0, n))
    ensures n == 0 ==> Segment(raw, 0, n) == []
    ensures n > 0 ==> EndsLike(raw, n, Segment(raw, 0, n))
  {
    if n > 0 {
      SegmentIsClean(raw, n - 1);
      var before := Segment(raw, 0, n - 1);
      var out := Segment(raw, 0, n);
      forall i | 0 <= i < |out| ensures !IsThaiDigit(out[i]) && !IsGroupingComma(out, i) {
        if i < |before| {
          assert out[i] == before[i] && !IsGroupingComma(before, i);
        }
      }
    }
  }

  /** A text without Thai digits and grouping commas is left as it is. */
  lemma {:induction false} CleanIsFixed(s: string, n: nat)
    requires IsClean(s) && n <= |s|
    ensures Segment(s, 0, n) == s[..n]
  {
    if n > 0 {
      CleanIsFixed(s, n - 1);
    }
  }

  /** Normalising is idempotent, its results are exactly the clean texts, and it keeps the sequence
      of digits. */
  lemma NormalizeMeaning(raw: string)
    ensures IsClean(Normalized(raw))
    ensures Normalized(raw) == raw <==> IsClean(raw)
    ensures Normalized(Normalized(raw)) == Normalized(raw)
    ensures DigitValues(Normalized(raw), |Normalized(raw)|) == DigitValues(raw, |raw|)
  {
    SegmentIsClean(raw, |raw|);
    CleanIsFixed(Normalized(raw), |Normalized(raw)|);
    assert raw[..|raw|] == raw;
    NormalizationKeepsDigits(raw, |raw|);
    if IsClean(raw) {
      CleanIsFixed(raw, |raw|);
    }
  }

  // ----- magnitude words -----------------------------------------------------------------------

  /** Ten thousand, a hundred thousand, a million. */
  datatype Magnitude = Muen | Saen | Lan

  function Word(m: Magnitude): (w: string)
    ensures w != [] && forall i :: 0 <= i < |w| ==> !IsDigit(w[i]) && w[i] != ',' && w[i] != ' '
  {
    match m
    case Muen => "หมื่น"
    case Saen => "แสน"
    case Lan => "ล้าน"
  }

  function Scaled(base: real, magnitude: Option<Magnitude>): real {
    match magnitude
    case Some(Muen) => base * 10000.0
    case Some(Saen) => base * 100000.0
    case Some(Lan) => base * 1000000.0
    case None => base
  }

  /** The first table entry found at `at`. No two words start alike, so the order of the table has
      no influence. */
  function MagnitudeAt(s: string, at: nat): (r: Option<Magnitude>)
    ensures r.Some? ==> MatchesAt(s, at, Word(r.value))
    ensures forall m :: MatchesAt(s, at, Word(m)) ==> r == Some(m)
  {
    FirstCharacters(s, at);
    if MatchesAt(s, at, Word(Muen)) then Some(Muen)
    else if MatchesAt(s, at, Word(Saen)) then Some(Saen)
    else if MatchesAt(s, at, Word(Lan)) then Some(Lan)
    else None
  }

  lemma FirstCharacters(s: string, at: nat)
    ensures forall m, k :: MatchesAt(s, at, Word(m)) && MatchesAt(s, at, Word(k)) ==> m == k
  {
    forall m, k | MatchesAt(s, at, Word(m)) && MatchesAt(s, at, Word(k)) ensures m == k {
      assert Word(m)[0] == s[at + 0] == Word(k)[0];
    }
  }

  // ----- scanning ------------------------------------------------------------------------------

  /** The end of the run of digits from `i` on. */
  function DigitsEnd(s: string, i: nat): (j: nat)
    requires i <= |s|
    ensures i <= j <= |s|
    ensures forall p :: i <= p < j ==> IsAsciiDigit(s[p])
    ensures j < |s| ==> !IsAsciiDigit(s[j])
    decreases |s| - i
  {
    if i < |s| && IsAsciiDigit(s[i]) then DigitsEnd(s, i + 1) else i
  }

  function SpacesEnd(s: string, i: nat): (j: nat)
    requires i <= |s|
    ensures i <= j <= |s|
    ensures forall p :: i <= p < j ==> s[p] == ' '
    ensures j < |s| ==> s[j] != ' '
    decreases |s| - i
  {
    if i < |s| && s[i] == ' ' then SpacesEnd(s, i + 1) else i
  }

  /** The end of the numeral from `start` on: a decimal point counts only before a digit. */
  function NumeralEnd(s: string, start: nat): (j: nat)
    requires start < |s|
    ensures start <= j <= |s|
    ensures IsAsciiDigit(s[start]) ==> start < j
  {
    var j := DigitsEnd(s, start);
    if j + 1 < |s| && s[j] == '.' && IsAsciiDigit(s[j + 1]) then DigitsEnd(s, j + 1) else j
  }

  /** What follows a numeral: its magnitude word, if any, and the end of the hit. */
  datatype Suffix = Suffix(magnitude: Option<Magnitude>, end: nat)

  /** A magnitude word counts behind any number of spaces. */
  function SuffixAt(s: string, j: nat): (r: Suffix)
    requires j <= |s|
    ensures j <= r.end <= |s|
    ensures forall p :: j <= p < r.end ==> !IsAsciiDigit(s[p])
    ensures r.magnitude == MagnitudeAt(s, SpacesEnd(s, j))
  {
    var k := SpacesEnd(s, j);
    match MagnitudeAt(s, k)
    case Some(m) =>
      assert MatchesAt(s, k, Word(m));
      assert forall p :: k <= p < k + |Word(m)| ==> s[p] == Word(m)[p - k];
      Suffix(Some(m), k + |Word(m)|)
    case None => Suffix(None, j)
  }

  /** The hit for the numeral that starts at `start`. */
  function HitAt(s: string, start: nat): (h: NumberHit)
    requires start < |s| && IsAsciiDigit(s[start])
    ensures h.start == start && start < h.end <= |s|
  {
    var j := NumeralEnd(s, start);
    var suffix := SuffixAt(s, j);
    Hit(s[start..j], start, suffix)
  }

  function Hit(digits: string, start: nat, suffix: Suffix): NumberHit {
    NumberHit(Scaled(ParsedOrZero(digits), suffix.magnitude), start, suffix.end)
  }

  /** `digits.parse().unwrap_or(0.0)` */
  function ParsedOrZero(digits: string): real {
    match ParseDecimal(digits)
    case Some(v) => v
    case None => 0.0
  }

  function ScanFrom(s: string, i: nat): seq<NumberHit>
    requires i <= |s|
    decreases |s| - i
  {
    if i == |s| then []
    else if !IsAsciiDigit(s[i]) then ScanFrom(s, i + 1)
    else [HitAt(s, i)] + ScanFrom(s, HitAt(s, i).end)
  }

  method ScanNumbers(s: string) returns (hits: seq<NumberHit>)
    ensures hits == ScanFrom(s, 0)
  {
    hits := [];
    var i := 0;
    while i < |s|
      invariant i <= |s|
      invariant hits + ScanFrom(s, i) == ScanFrom(s, 0)
    {
      if !IsAsciiDigit(s[i]) {
        i := i + 1;
        continue;
      }
      var hit := ReadHit(s, i);
      ScanStep(s, i, hits);
      hits := hits + [hit];
      i := hit.end;
    }
  }

  lemma ScanStep(s: string, i: nat, hits: seq<NumberHit>)
    requires i < |s| && IsAsciiDigit(s[i])
    ensures hits + ScanFrom(s, i) == hits + [HitAt(s, i)] + ScanFrom(s, HitAt(s, i).end)
  {
    var hit := HitAt(s, i);
    assert hits + ([hit] + ScanFrom(s, hit.end)) == hits + [hit] + ScanFrom(s, hit.end);
  }

  method ReadHit(s: string, start: nat) returns (hit: NumberHit)
    requires start < |s| && IsAsciiDigit(s[start])
    ensures hit == HitAt(s, start)
  {
    var j := SkipDigits(s, start);
    if j + 1 < |s| && s[j] == '.' && IsAsciiDigit(s[j + 1]) {
      j := SkipDigits(s, j + 1);
    }
    assert j == NumeralEnd(s, start);
    var suffix := ReadSuffix(s, j);
    hit := Hit(s[start..j], start, suffix);
  }

  method ReadSuffix(s: string, j: nat) returns (suffix: Suffix)
    requires j <= |s|
    ensures suffix == SuffixAt(s, j)
  {
    var k := j;
    while k < |s| && s[k] == ' '
      invariant j <= k <= |s|
      invariant SpacesEnd(s, k) == SpacesEnd(s, j)
    {
      k := k + 1;
    }
    match MagnitudeAt(s, k) {
      case Some(m) => suffix := Suffix(Some(m), k + |Word(m)|);
      case None => suffix := Suffix(None, j);
    }
  }

  method SkipDigits(s: string, i: nat) returns (j: nat)
    requires i <= |s|
    ensures j == DigitsEnd(s, i)
  {
    j := i;
    while j < |s| && IsAsciiDigit(s[j])
      invariant i <= j <= |s|
      invariant DigitsEnd(s, j) == DigitsEnd(s, i)
    {
      j := j + 1;
    }
  }

  // ----- every digit is read once ------------------------------------------------------------

  /** The numeral at `start` always parses, so the fallback value is never used. */
  lemma NumeralParses(s: string, start: nat)
    requires start < |s| && IsAsciiDigit(s[start])
    ensures ParseDecimal(s[start..NumeralEnd(s, start)]).Some?
  {
    var n := DigitsEnd(s, start);
    var t := s[start..NumeralEnd(s, start)];
    assert t[..n - start] == s[start..n];
    assert AllDigits(t[..n - start]);
    FirstDotAt(t, n - start);
    if n - start < |t| {
      assert t[n - start + 1..] == s[n + 1..DigitsEnd(s, n + 1)];
      assert AllDigits(t[n - start + 1..]);
    }
  }

  /** Position `p` lies in the numeral of hit `h`. */
  ghost predicate ReadBy(s: string, p: nat, h: NumberHit)
  {
    h.start < |s| && h.start <= p < NumeralEnd(s, h.start)
  }

  /** A hit that starts at a digit and has the value and the extent read there. */
  ghost predicate IsHit(s: string, h: NumberHit) {
    h.start < h.end <= |s| && IsAsciiDigit(s[h.start]) && h == HitAt(s, h.start)
  }

  /** Hits in order and apart, none before `i`. */
  ghost predicate InOrder(i: nat, hits: seq<NumberHit>) {
    && (forall k :: 0 <= k < |hits| ==> i <= hits[k].start < hits[k].end)
    && (forall k, m :: 0 <= k < m < |hits| ==> hits[k].end <= hits[m].start)
  }

  lemma HitBeforeScan(i: nat, h: NumberHit, rest: seq<NumberHit>)
    requires i <= h.start < h.end && InOrder(h.end, rest)
    ensures InOrder(i, [h] + rest)
  {
  }

  lemma {:induction false} ScanIsInOrder(s: string, i: nat)
    requires i <= |s|
    ensures InOrder(i, ScanFrom(s, i))
    ensures forall h :: h in ScanFrom(s, i) ==> IsHit(s, h)
    decreases |s| - i
  {
    if i < |s| {
      if !IsAsciiDigit(s[i]) {
        ScanIsInOrder(s, i + 1);
      } else {
        var h := HitAt(s, i);
        ScanIsInOrder(s, h.end);
        HitBeforeScan(i, h, ScanFrom(s, h.end));
      }
    }
  }

  lemma {:induction false} ScanReadsEveryDigit(s: string, i: nat, p: nat) returns (k: nat)
    requires i <= p < |s| && IsAsciiDigit(s[p])
    ensures k < |ScanFrom(s, i)| && ReadBy(s, p, ScanFrom(s, i)[k])
    decreases |s| - i
  {
    if !IsAsciiDigit(s[i]) {
      k := ScanReadsEveryDigit(s, i + 1, p);
    } else if p < HitAt(s, i).end {
      k := 0;
    } else {
      k := ScanReadsEveryDigit(s, HitAt(s, i).end, p);
      k := k + 1;
    }
  }

  /** A hit for the number `v` whose digits end at `j`: a magnitude word behind any spaces scales the
      number and belongs to the hit. Positions in `s` are `shift` less than the hit's. */
  ghost predicate ReadsBefore(h: NumberHit, v: real, s: string, j: nat, shift: nat)
    requires j <= |s|
  {
    var k := SpacesEnd(s, j);
    && (MatchesAt(s, k, "หมื่น") ==> h.value == v * 10000.0 && h.end == shift + k + |"หมื่น"|)
    && (MatchesAt(s, k, "แสน") ==> h.value == v * 100000.0 && h.end == shift + k + |"แสน"|)
    && (MatchesAt(s, k, "ล้าน") ==> h.value == v * 1000000.0 && h.end == shift + k + |"ล้าน"|)
    && (!MatchesAt(s, k, "หมื่น") && !MatchesAt(s, k, "แสน") && !MatchesAt(s, k, "ล้าน") ==>
          h.value == v && h.end == shift + j)
  }

  /** The value of a hit is that of its numeral, which does parse, times what the magnitude word
      behind it is worth. */
  ghost predicate IsRead(s: string, h: NumberHit) {
    && h.start < h.end <= |s|
    && var j := NumeralEnd(s, h.start);
    && ParseDecimal(s[h.start..j]).Some?
    && ReadsBefore(h, ParseDecimal(s[h.start..j]).value, s, j, 0)
  }

  lemma HitReadsBefore(s: string, a: nat, v: real)
    requires a < |s| && IsAsciiDigit(s[a]) && ParseDecimal(s[a..NumeralEnd(s, a)]) == Some(v)
    ensures ReadsBefore(HitAt(s, a), v, s, NumeralEnd(s, a), 0)
  {
    var j := NumeralEnd(s, a);
    var k := SpacesEnd(s, j);
    assert HitAt(s, a) == NumberHit(Scaled(v, MagnitudeAt(s, k)), a, SuffixAt(s, j).end);
    WordsAt(s, k);
  }

  /** At most one word stands at a position, and the search finds it. */
  lemma WordsAt(s: string, k: nat)
    ensures MatchesAt(s, k, "หมื่น") <==> MagnitudeAt(s, k) == Some(Muen)
    ensures MatchesAt(s, k, "แสน") <==> MagnitudeAt(s, k) == Some(Saen)
    ensures MatchesAt(s, k, "ล้าน") <==> MagnitudeAt(s, k) == Some(Lan)
  {
    assert forall m :: MatchesAt(s, k, Word(m)) ==> MagnitudeAt(s, k) == Some(m);
    assert Word(Muen) == "หมื่น" && Word(Saen) == "แสน" && Word(Lan) == "ล้าน";
  }

  /** On every text the hits are in order and disjoint, every digit belongs to the numeral of exactly
      one hit, and each value is the numeral's own, times its magnitude word. */
  lemma ScanTheorem(s: string)
    ensures InOrder(0, ScanFrom(s, 0))
    ensures forall k :: 0 <= k < |ScanFrom(s, 0)| ==> IsRead(s, ScanFrom(s, 0)[k])
    ensures forall p :: 0 <= p < |s| && IsAsciiDigit(s[p]) ==>
              exists k :: 0 <= k < |ScanFrom(s, 0)| && ReadBy(s, p, ScanFrom(s, 0)[k])
    ensures forall p, k, m :: 0 <= k < m < |ScanFrom(s, 0)| ==>
              !(ReadBy(s, p, ScanFrom(s, 0)[k]) && ReadBy(s, p, ScanFrom(s, 0)[m]))
  {
    ScanIsInOrder(s, 0);
    var hits := ScanFrom(s, 0);
    forall k | 0 <= k < |hits| ensures IsRead(s, hits[k]) && NumeralEnd(s, hits[k].start) <= hits[k].end {
      assert IsHit(s, hits[k]);
      NumeralParses(s, hits[k].start);
      HitReadsBefore(s, hits[k].start, ParseDecimal(s[hits[k].start..NumeralEnd(s, hits[k].start)]).value);
    }
    forall p | 0 <= p < |s| && IsAsciiDigit(s[p])
      ensures exists k :: 0 <= k < |hits| && ReadBy(s, p, hits[k])
    {
      var k := ScanReadsEveryDigit(s, 0, p);
    }
  }

  // ----- round trip --------------------------------------------------------------------------

  /** Text without digits. */
  predicate IsProse(s: string) {
    forall i :: 0 <= i < |s| ==> !IsDigit(s[i])
  }

  lemma {:induction false} SegmentSplits(raw: string, lo: nat, at: nat, hi: nat)
    requires lo <= at <= hi <= |raw|
    ensures Segment(raw, lo, hi) == Segment(raw, lo, at) + Segment(raw, at, hi)
    decreases hi
  {
    if at < hi {
      SegmentSplits(raw, lo, at, hi - 1);
    }
  }

  lemma {:induction false} ProseIsCopied(raw: string, at: nat, prose: string)
    requires IsProse(prose) && MatchesAt(raw, at, prose)
    requires forall k :: at <= k < at + |prose| ==> !IsGroupingComma(raw, k)
    ensures Segment(raw, at, at + |prose|) == prose
  {
    if prose != [] {
      var init, c := prose[..|prose| - 1], prose[|prose| - 1];
      ProseIsCopied(raw, at, init);
      assert raw[at + |init|] == c && prose == init + [c];
    }
  }

  /** The rendering of some glyphs stands at `at`, with a digit next if it ends in a comma. */
  ghost predicate RendersAt(raw: string, at: nat, glyphs: seq<Glyph>)
    requires Written(glyphs)
  {
    var b := at + |Render(glyphs)|;
    && MatchesAt(raw, at, Render(glyphs))
    && (glyphs != [] && glyphs[|glyphs| - 1].comma ==> b < |raw| && IsDigit(raw[b]))
  }

  lemma {:induction false} NumeralIsNormalized(raw: string, at: nat, glyphs: seq<Glyph>)
    requires Written(glyphs) && RendersAt(raw, at, glyphs)
    ensures Segment(raw, at, at + |Render(glyphs)|) == Plain(glyphs)
  {
    if glyphs != [] {
      var init, g := glyphs[..|glyphs| - 1], glyphs[|glyphs| - 1];
      LastGlyphIsWritten(raw, at, glyphs);
      NumeralIsNormalized(raw, at, init);
      GlyphIsNormalized(raw, at, at + |Render(init)|, g);
    }
  }

  lemma NumeralUpTo(raw: string, at: nat, end: nat, glyphs: seq<Glyph>)
    requires Written(glyphs) && RendersAt(raw, at, glyphs) && end == at + |Render(glyphs)|
    ensures Segment(raw, at, end) == Plain(glyphs)
  {
    NumeralIsNormalized(raw, at, glyphs);
  }

  predicate GlyphAt(raw: string, a: nat, g: Glyph)
    requires g.digit <= 9
  {
    && a + |GlyphText(g)| <= |raw| && raw[a] == GlyphChar(g)
    && (g.comma ==> raw[a + 1] == ',' && a + 2 < |raw| && IsDigit(raw[a + 2]))
  }

  /** One glyph adds one ASCII digit, with or without its comma. */
  lemma GlyphIsNormalized(raw: string, at: nat, a: nat, g: Glyph)
    requires at <= a && g.digit <= 9 && GlyphAt(raw, a, g)
    ensures Segment(raw, at, a + |GlyphText(g)|) == Segment(raw, at, a) + [AsciiOf(g.digit)]
  {
    assert Contribution(raw, a) == [AsciiOf(g.digit)];
    assert Segment(raw, at, a + 1) == Segment(raw, at, a) + [AsciiOf(g.digit)];
    if g.comma {
      assert IsGroupingComma(raw, a + 1);
      assert Segment(raw, at, a + 2) == Segment(raw, at, a + 1);
    }
  }

  lemma LastGlyphIsWritten(raw: string, at: nat, glyphs: seq<Glyph>)
    requires glyphs != [] && Written(glyphs) && RendersAt(raw, at, glyphs)
    ensures var init, g := glyphs[..|glyphs| - 1], glyphs[|glyphs| - 1];
            && RendersAt(raw, at, init) && GlyphAt(raw, at + |Render(init)|, g)
            && |Render(glyphs)| == |Render(init)| + |GlyphText(g)|
            && Plain(glyphs) == Plain(init) + [AsciiOf(g.digit)]
  {
    GlyphIsLast(raw, at, glyphs);
  }

  lemma DecimalIsNormalized(raw: string, at: nat, d: Decimal, end: nat)
    requires IsDecimal(d) && StandsAt(raw, at, d, end)
    ensures Segment(raw, at, end) == PlainText(d)
  {
    if d.fraction == [] {
      assert Plain(d.whole) + [] == Plain(d.whole);
      NumeralIsNormalized(raw, at, d.whole);
    } else {
      PartsAreNormalized(raw, at, at + |Render(d.whole)|, end, d.whole, d.fraction);
    }
  }

  lemma PartsAreNormalized(raw: string, at: nat, dot: nat, end: nat, whole: seq<Glyph>, fraction: seq<Glyph>)
    requires Written(whole) && RendersAt(raw, at, whole) && dot == at + |Render(whole)|
    requires dot < |raw| && raw[dot] == '.'
    requires Written(fraction) && RendersAt(raw, dot + 1, fraction) && end == dot + 1 + |Render(fraction)|
    ensures Segment(raw, at, end) == Plain(whole) + ("." + Plain(fraction))
  {
    NumeralUpTo(raw, at, dot, whole);
    NumeralUpTo(raw, dot + 1, end, fraction);
    SegmentJoins(raw, at, dot, end, Plain(whole), Plain(fraction));
  }

  lemma SegmentJoins(raw: string, at: nat, dot: nat, end: nat, whole: string, fraction: string)
    requires at <= dot < end <= |raw| && raw[dot] == '.'
    requires Segment(raw, at, dot) == whole && Segment(raw, dot + 1, end) == fraction
    ensures Segment(raw, at, end) == whole + ("." + fraction)
  {
    SegmentSplits(raw, at, dot + 1, end);
    assert Segment(raw, at, dot + 1) == whole + ".";
  }

  /** Any decimal amid prose is normalised to its plain digits, the prose staying as it is. */
  lemma NormalizeWritesPlain(before: string, d: Decimal, after: string)
    requires IsProse(before) && IsDecimal(d) && IsProse(after)
    ensures Normalized(before + DecimalText(d) + after) == before + PlainText(d) + after
  {
    var raw := before + DecimalText(d) + after;
    PartsMatch(before, DecimalText(d), after);
    DecimalStands(raw, |before|, d);
    PartsNormalize(raw, before, d, |before| + |DecimalText(d)|, after);
  }

  lemma PartsNormalize(raw: string, before: string, d: Decimal, b: nat, after: string)
    requires IsProse(before) && IsDecimal(d) && IsProse(after)
    requires MatchesAt(raw, 0, before) && StandsAt(raw, |before|, d, b) && MatchesAt(raw, b, after)
    requires |raw| == b + |after|
    ensures Normalized(raw) == before + PlainText(d) + after
  {
    var a := |before|;
    NoGroupingBeside(raw, before, b, after);
    ProseIsCopied(raw, 0, before);
    DecimalIsNormalized(raw, a, d, b);
    ProseIsCopied(raw, b, after);
    ThreeSegments(raw, a, b);
  }

  /** A comma that has prose on one side groups nothing. */
  lemma NoGroupingBeside(raw: string, before: string, b: nat, after: string)
    requires IsProse(before) && IsProse(after) && MatchesAt(raw, 0, before)
    requires |raw| == b + |after| && MatchesAt(raw, b, after)
    ensures forall k :: 0 <= k < |before| ==> !IsGroupingComma(raw, k)
    ensures forall k :: b <= k < |raw| ==> !IsGroupingComma(raw, k)
  {
    forall k | 0 <= k < |before| ensures !IsGroupingComma(raw, k) {
      if k > 0 { assert raw[0 + (k - 1)] == before[k - 1]; }
    }
    forall k | b <= k < |raw| ensures !IsGroupingComma(raw, k) {
      if k + 1 < |raw| { assert raw[b + (k + 1 - b)] == after[k + 1 - b]; }
    }
  }

  lemma ThreeSegments(raw: string, a: nat, b: nat)
    requires a <= b <= |raw|
    ensures Normalized(raw) == Segment(raw, 0, a) + Segment(raw, a, b) + Segment(raw, b, |raw|)
  {
    SegmentSplits(raw, 0, b, |raw|);
    SegmentSplits(raw, 0, a, b);
  }

  lemma PartsMatch(a: string, b: string, c: string)
    ensures MatchesAt(a + b + c, 0, a) && MatchesAt(a + b + c, |a|, b) && MatchesAt(a + b + c, |a| + |b|, c)
  {
  }

  lemma {:induction false} ScanSkipsProse(s: string, i: nat, j: nat)
    requires i <= j <= |s| && forall p :: i <= p < j ==> !IsAsciiDigit(s[p])
    ensures ScanFrom(s, i) == ScanFrom(s, j)
    decreases j - i
  {
    if i < j {
      ScanSkipsProse(s, i + 1, j);
    }
  }

  lemma {:induction false} DigitsEndAt(s: string, i: nat, j: nat)
    requires i <= j <= |s| && (forall p :: i <= p < j ==> IsAsciiDigit(s[p]))
    requires j < |s| ==> !IsAsciiDigit(s[j])
    ensures DigitsEnd(s, i) == j
  {
  }

  /** The numeral that starts where a plain decimal stands before prose is that decimal. */
  lemma PlainNumeralEnd(s: string, a: nat, d: Decimal)
    requires IsDecimal(d) && MatchesAt(s, a, PlainText(d))
    requires forall p :: a + |PlainText(d)| <= p < |s| ==> !IsAsciiDigit(s[p])
    ensures a < |s| && IsAsciiDigit(s[a]) && NumeralEnd(s, a) == a + |PlainText(d)|
  {
    var whole, fraction, text := Plain(d.whole), Plain(d.fraction), PlainText(d);
    var dot, b := a + |whole|, a + |text|;
    forall p | a <= p < dot ensures IsAsciiDigit(s[p]) {
      assert s[a + (p - a)] == text[p - a] == whole[p - a];
    }
    if d.fraction == [] {
      DigitsEndAt(s, a, b);
    } else {
      assert s[dot] == text[|whole|] == '.';
      forall p | dot < p < b ensures IsAsciiDigit(s[p]) {
        assert s[a + (p - a)] == text[p - a] == fraction[p - dot - 1];
      }
      DigitsEndAt(s, a, dot);
      DigitsEndAt(s, dot + 1, b);
    }
  }

  /** A text of one plain decimal amid prose yields one hit. */
  lemma ScanOfPlain(before: string, d: Decimal, after: string)
    requires IsProse(before) && IsDecimal(d) && IsProse(after)
    ensures var s, a := before + PlainText(d) + after, |before|;
            IsAsciiDigit(s[a]) && ScanFrom(s, 0) == [HitAt(s, a)] && NumeralEnd(s, a) == a + |PlainText(d)|
  {
    PartsMatch(before, PlainText(d), after);
    ScanOfParts(before + PlainText(d) + after, before, d, after);
  }

  lemma ScanOfParts(s: string, before: string, d: Decimal, after: string)
    requires IsProse(before) && IsDecimal(d) && IsProse(after)
    requires MatchesAt(s, 0, before) && MatchesAt(s, |before|, PlainText(d))
    requires MatchesAt(s, |before| + |PlainText(d)|, after) && |s| == |before| + |PlainText(d)| + |after|
    ensures var a := |before|;
            a < |s| && IsAsciiDigit(s[a]) && ScanFrom(s, 0) == [HitAt(s, a)] && NumeralEnd(s, a) == a + |PlainText(d)|
  {
    var a, b := |before|, |before| + |PlainText(d)|;
    forall p | 0 <= p < a ensures !IsAsciiDigit(s[p]) { assert s[0 + p] == before[p]; }
    forall p | b <= p < |s| ensures !IsAsciiDigit(s[p]) { assert s[b + (p - b)] == after[p - b]; }
    PlainNumeralEnd(s, a, d);
    ScanSkipsProse(s, 0, a);
    ScanSkipsProse(s, HitAt(s, a).end, |s|);
  }

  /** Round trip: a number written in ASCII or Thai digits, mixed in any way, with single commas in
      any gaps of its whole part and perhaps a decimal fraction, amid any prose, is read back as
      exactly one hit: its value times ten thousand, a hundred thousand or a million before the words
      for these, and its value otherwise. */
  lemma ScanRoundTrip(before: string, d: Decimal, after: string)
    requires IsProse(before) && IsDecimal(d) && IsProse(after)
    ensures var hits := ScanFrom(Normalized(before + DecimalText(d) + after), 0);
            && |hits| == 1 && hits[0].start == |before|
            && ReadsBefore(hits[0], DecimalValue(d), after, 0, |before| + |PlainText(d)|)
  {
    NormalizeWritesPlain(before, d, after);
    var s := before + PlainText(d) + after;
    var a, b := |before|, |before| + |PlainText(d)|;
    ScanOfPlain(before, d, after);
    assert s[a..b] == PlainText(d);
    PlainTextHasValue(d);
    HitReadsBefore(s, a, DecimalValue(d));
    ReadsShift(HitAt(s, a), DecimalValue(d), s, b, after);
  }

  lemma ReadsShift(h: NumberHit, v: real, s: string, b: nat, after: string)
    requires IsRest(s, b, after) && ReadsBefore(h, v, s, b, 0)
    ensures ReadsBefore(h, v, after, 0, b)
  {
    var k := SpacesEnd(after, 0);
    SpacesEndShifts(s, b, after, 0);
    MatchesShift(s, b, after, k, "หมื่น");
    MatchesShift(s, b, after, k, "แสน");
    MatchesShift(s, b, after, k, "ล้าน");
  }

  /** The same with the value as the scanner computes it. */
  lemma DecimalIsRead(before: string, d: Decimal, after: string)
    requires IsProse(before) && IsDecimal(d) && IsProse(after)
    ensures var hits := ScanFrom(Normalized(before + DecimalText(d) + after), 0);
            && |hits| == 1 && hits[0].start == |before|
            && hits[0].value == Scaled(DecimalValue(d), MagnitudeAt(after, SpacesEnd(after, 0)))
  {
    NormalizeWritesPlain(before, d, after);
    var s := before + PlainText(d) + after;
    var a, b := |before|, |before| + |PlainText(d)|;
    ScanOfPlain(before, d, after);
    assert s[a..b] == PlainText(d);
    PlainTextHasValue(d);
    HitReads(s, a, b, DecimalValue(d));
    SuffixShifts(s, b, after);
  }

  /** The hit of a numeral with a known value. */
  lemma HitReads(s: string, a: nat, b: nat, v: real)
    requires a < |s| && IsAsciiDigit(s[a]) && NumeralEnd(s, a) == b && ParseDecimal(s[a..b]) == Some(v)
    ensures HitAt(s, a).start == a && HitAt(s, a).value == Scaled(v, MagnitudeAt(s, SpacesEnd(s, b)))
  {
  }

  predicate IsRest(s: string, b: nat, after: string) {
    b + |after| == |s| && forall i :: b <= i < |s| ==> s[i] == after[i - b]
  }

  lemma SuffixShifts(s: string, b: nat, after: string)
    requires IsRest(s, b, after)
    ensures MagnitudeAt(s, SpacesEnd(s, b)) == MagnitudeAt(after, SpacesEnd(after, 0))
  {
    SpacesEndShifts(s, b, after, 0);
    MagnitudeShifts(s, SpacesEnd(s, b), b, after, SpacesEnd(after, 0));
  }

  lemma MagnitudeShifts(s: string, at: nat, b: nat, after: string, k: nat)
    requires IsRest(s, b, after) && at == b + k
    ensures MagnitudeAt(s, at) == MagnitudeAt(after, k)
  {
    var r, q := MagnitudeAt(s, at), MagnitudeAt(after, k);
    if r.Some? {
      MatchesShift(s, b, after, k, Word(r.value));
    } else if q.Some? {
      MatchesShift(s, b, after, k, Word(q.value));
    }
  }

  lemma {:induction false} SpacesEndShifts(s: string, b: nat, after: string, i: nat)
    requires IsRest(s, b, after) && i <= |after|
    ensures SpacesEnd(s, b + i) == b + SpacesEnd(after, i)
    decreases |after| - i
  {
    if i < |after| {
      SpacesEndShifts(s, b, after, i + 1);
    }
  }

  lemma MatchesShift(s: string, b: nat, after: string, k: nat, word: string)
    requires IsRest(s, b, after)
    ensures MatchesAt(s, b + k, word) <==> MatchesAt(after, k, word)
  {
  }
}
