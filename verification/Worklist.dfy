/** Worklists whose entries each stand for a multiset of results still to come. */
module Worklist {
  import opened Base

  /** All results of a piece of work, or `None` when some part of it fails. */
  type Total<T> = Option<multiset<T>>

  ghost function Plus<T>(a: Total<T>, b: Total<T>): Total<T> {
    if a.Some? && b.Some? then Some(a.value + b.value) else None
  }

  lemma PlusLaws<T>(a: Total<T>, b: Total<T>, c: Total<T>)
    ensures Plus(a, Some(multiset{})) == a && Plus(Some(multiset{}), a) == a
    ensures Plus(a, b) == Plus(b, a)
    ensures Plus(Plus(a, b), c) == Plus(a, Plus(b, c))
  {
    if a.Some? {
      assert a.value + multiset{} == a.value && multiset{} + a.value == a.value;
      if b.Some? {
        assert a.value + b.value == b.value + a.value;
        if c.Some? { assert (a.value + b.value) + c.value == a.value + (b.value + c.value); }
      }
    }
  }

  /** What the whole queue stands for. */
  ghost function QueueSum<W, T>(value: W -> Total<T>, queue: seq<W>): Total<T> {
    if queue == [] then Some(multiset{})
    else var n := |queue| - 1; Plus(QueueSum(value, queue[..n]), value(queue[n]))
  }

  ghost function QueueWeight<W>(weigh: W -> nat, queue: seq<W>): nat {
    if queue == [] then 0
    else var n := |queue| - 1; QueueWeight(weigh, queue[..n]) + weigh(queue[n])
  }

  lemma QueueExtends<W, T>(value: W -> Total<T>, weigh: W -> nat, queue: seq<W>, work: W)
    ensures QueueSum(value, queue + [work]) == Plus(QueueSum(value, queue), value(work))
    ensures QueueWeight(weigh, queue + [work]) == QueueWeight(weigh, queue) + weigh(work)
  {
    assert (queue + [work])[..|queue|] == queue;
  }

  /** Entries of equal weight add up to a product. */
  lemma {:induction false} EqualWeights<W>(weigh: W -> nat, queue0: seq<W>, queue: seq<W>, w: nat)
    requires queue0 <= queue && forall i :: |queue0| <= i < |queue| ==> weigh(queue[i]) == w
    ensures QueueWeight(weigh, queue) == QueueWeight(weigh, queue0) + (|queue| - |queue0|) * w
  {
    if |queue| > |queue0| {
      var n := |queue| - 1;
      EqualWeights(weigh, queue0, queue[..n], w);
      assert (n + 1 - |queue0|) * w == (n - |queue0|) * w + w;
    } else {
      assert queue == queue0;
    }
  }
}
