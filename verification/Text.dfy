/** The parts of Rust's `str` that the modelled code relies on: `trim`, `trim().is_empty()`,
    substring search and lexicographic order. Text is a sequence of Unicode scalar values. */
module Text {

  /** The Unicode `White_Space` property, which `str::trim` uses. */
  predicate IsWhitespace(c: char) {
    var n := c as int;
    || 0x09 <= n <= 0x0D || n == 0x20 || n == 0x85 || n == 0xA0 || n == 0x1680
    || 0x2000 <= n <= 0x200A || n == 0x2028 || n == 0x2029 || n == 0x202F || n == 0x205F
    || n == 0x3000
  }

  predicate IsAsciiDigit(c: char) {
    '0' <= c <= '9'
  }

  /** The end of the run of white space from `i` on. */
  function BlankEnd(s: string, i: nat): (j: nat)
    requires i <= |s|
    ensures i <= j <= |s|
    ensures j < |s| ==> !IsWhitespace(s[j])
    ensures forall p :: i <= p < j ==> IsWhitespace(s[p])
    decreases |s| - i
  {
    if i < |s| && IsWhitespace(s[i]) then BlankEnd(s, i + 1) else i
  }

  function TrimStart(s: string): string {
    s[BlankEnd(s, 0)..]
  }

  function TrimEnd(s: string): (r: string)
    ensures r <= s
    ensures r != [] ==> !IsWhitespace(r[|r| - 1])
    ensures forall i :: |r| <= i < |s| ==> IsWhitespace(s[i])
  {
    if s != [] && IsWhitespace(s[|s| - 1]) then TrimEnd(s[..|s| - 1]) else s
  }

  function Trim(s: string): string {
    TrimEnd(TrimStart(s))
  }

  /** Every character is white space. */
  predicate IsBlank(s: string) {
    forall i :: 0 <= i < |s| ==> IsWhitespace(s[i])
  }

  /** `s.trim().is_empty()` holds exactly of the blank texts. */
  lemma TrimEmptyIffBlank(s: string)
    ensures Trim(s) == [] <==> IsBlank(s)
  {
    var t := TrimStart(s);
    if t != [] {
      assert t[0] == s[BlankEnd(s, 0)];
    }
  }

  /** Trimming drops the white space around a text that neither begins nor ends with any. */
  lemma TrimMeaning(before: string, core: string, after: string)
    requires IsBlank(before) && IsBlank(after)
    requires core != [] && !IsWhitespace(core[0]) && !IsWhitespace(core[|core| - 1])
    ensures Trim(before + core + after) == core
  {
    var s := before + core + after;
    assert s[|before|] == core[0];
    assert forall p :: 0 <= p < |before| ==> s[p] == before[p];
    assert BlankEnd(s, 0) == |before|;
    assert TrimStart(s) == core + after;
    TrimEndMeaning(core, after);
  }

  lemma {:induction false} TrimEndMeaning(core: string, after: string)
    requires core != [] && !IsWhitespace(core[|core| - 1]) && IsBlank(after)
    ensures TrimEnd(core + after) == core
  {
    if after == [] {
      assert core + after == core;
    } else {
      var n := |after| - 1;
      assert (core + after)[..|core + after| - 1] == core + after[..n];
      TrimEndMeaning(core, after[..n]);
    }
  }

  /** `word` stands in `s` at position `at`. */
  predicate MatchesAt(s: string, at: nat, word: string) {
    at + |word| <= |s| && forall i :: 0 <= i < |word| ==> s[at + i] == word[i]
  }

  /** `s[off..].find(word)`, as a position in `s`. */
  function FindFrom(s: string, off: nat, word: string): (r: int)
    requires off <= |s|
    ensures r >= 0 ==> off <= r && MatchesAt(s, r, word)
    ensures forall p :: off <= p && MatchesAt(s, p, word) ==> 0 <= r <= p
    decreases |s| - off
  {
    if MatchesAt(s, off, word) then off else if off == |s| then -1 else FindFrom(s, off + 1, word)
  }

  /** Rust's order on `str`, which is that of the code points. */
  predicate Precedes(a: string, b: string) {
    if b == [] then false
    else if a == [] then true
    else a[0] < b[0] || (a[0] == b[0] && Precedes(a[1..], b[1..]))
  }

  /** Where the texts first differ `a` has the smaller character, or has ended. */
  ghost predicate ComesFirst(a: string, b: string) {
    exists n: nat :: FirstDifference(a, b, n)
  }

  predicate FirstDifference(a: string, b: string, n: nat) {
    && n <= |a| && n < |b| && (forall i :: 0 <= i < n ==> a[i] == b[i])
    && (n == |a| || a[n] < b[n])
  }

  /** The order compares texts at the first difference. */
  lemma {:induction false} PrecedesMeaning(a: string, b: string)
    ensures Precedes(a, b) <==> ComesFirst(a, b)
  {
    if a == [] || b == [] || a[0] != b[0] {
      assert Precedes(a, b) <==> FirstDifference(a, b, 0);
      assert forall n: nat :: FirstDifference(a, b, n) ==> n == 0;
    } else {
      PrecedesMeaning(a[1..], b[1..]);
      if Precedes(a, b) {
        var n: nat :| FirstDifference(a[1..], b[1..], n);
        OneLater(a, b, n);
      }
      if ComesFirst(a, b) {
        var n: nat :| FirstDifference(a, b, n);
        OneLater(a, b, n - 1);
      }
    }
  }

  lemma OneLater(a: string, b: string, n: nat)
    requires a != [] && b != [] && a[0] == b[0]
    ensures FirstDifference(a[1..], b[1..], n) <==> FirstDifference(a, b, n + 1)
  {
    assert a == [a[0]] + a[1..] && b == [b[0]] + b[1..];
  }

  lemma {:induction false} PrecedesIsTotal(a: string, b: string)
    ensures a == b ==> !Precedes(a, b)
    ensures a != b ==> (Precedes(a, b) <==> !Precedes(b, a))
  {
    if a != [] && b != [] {
      PrecedesIsTotal(a[1..], b[1..]);
      assert a == [a[0]] + a[1..] && b == [b[0]] + b[1..];
    }
  }

  lemma {:induction false} PrecedesIsTransitive(a: string, b: string, c: string)
    requires Precedes(a, b) && Precedes(b, c)
    ensures Precedes(a, c)
  {
    if a != [] && a[0] == b[0] == c[0] {
      PrecedesIsTransitive(a[1..], b[1..], c[1..]);
    }
  }
}
