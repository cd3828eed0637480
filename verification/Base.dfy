/** What every module shares: failure-carrying datatypes, and counting with sequences and sets. */
module Base {
  datatype Option<+T> = None | Some(value: T)

  datatype Result<+T, +E> = Ok(value: T) | Err(error: E)

  function Min(a: nat, b: nat): nat {
    if a <= b then a else b
  }

  predicate NoDuplicates<T(==)>(s: seq<T>) {
    forall i, j :: 0 <= i < j < |s| ==> s[i] != s[j]
  }

  /** The `n` numbers from `lo` on. */
  function Interval(lo: nat, n: nat): (r: set<nat>)
    ensures |r| == n
    ensures forall k :: k in r <==> lo <= k < lo + n
  {
    if n == 0 then {} else Interval(lo, n - 1) + {lo + n - 1}
  }

  lemma SubsetSize<T>(a: set<T>, b: set<T>)
    requires a <= b
    ensures |a| <= |b|
  {
    assert b == a + (b - a);
  }

  function ElementsOf<T>(values: seq<T>): set<T> {
    set v | v in values
  }

  lemma ElementsAppend<T>(values: seq<T>, last: T)
    ensures ElementsOf(values + [last]) == ElementsOf(values) + {last}
  {
  }

  /** A sequence has as many elements as entries exactly when none repeats. */
  lemma {:induction false} ElementsCount<T>(values: seq<T>)
    ensures |ElementsOf(values)| <= |values|
    ensures |ElementsOf(values)| == |values| <==> NoDuplicates(values)
  {
    if values != [] {
      var n := |values| - 1;
      var init, last := values[..n], values[n];
      ElementsCount(init);
      assert values == init + [last];
      ElementsAppend(init, last);
      if last in init {
        var i :| 0 <= i < n && init[i] == last;
        assert values[i] == values[n];
      }
    }
  }

  /** The elements of a sequence, each once. */
  lemma {:induction false} WithoutRepeats<T>(values: seq<T>) returns (once: seq<T>)
    ensures |once| == |ElementsOf(values)| && ElementsOf(once) == ElementsOf(values)
  {
    if values == [] {
      once := [];
    } else {
      var init, last := values[..|values| - 1], values[|values| - 1];
      once := WithoutRepeats(init);
      assert ElementsOf(values) == ElementsOf(init) + {last};
      if last in init {
        assert ElementsOf(values) == ElementsOf(init);
      } else {
        assert last !in ElementsOf(init);
        assert ElementsOf(once + [last]) == ElementsOf(once) + {last};
        once := once + [last];
      }
    }
  }
}
