/** What an iterator over the slots has to yield, and that this is the table's map. */
module Iteration {
  import opened Fnv
  import opened Wrappers
  import opened ProbeTable
  import opened TableRuns

  // The pairs an iterator at slot `i` has still to yield.
  function Pending(es: Slots, i: nat): seq<(Key, Pointer)>
    requires i <= |es|
    decreases |es| - i
  {
    if i == |es| then [] else Here(es[i]) + Pending(es, i + 1)
  }

  function Here(e: Entry): seq<(Key, Pointer)> {
    if e.Full? then [(e.key, e.value)] else []
  }

  lemma {:induction false} PendingSize(es: Slots, i: nat)
    requires i <= |es|
    ensures |Pending(es, i)| + LoadTo(es, i) == Load(es)
    decreases |es| - i
  {
    if i < |es| {
      PendingSize(es, i + 1);
    }
  }

  lemma {:induction false} PendingHas(es: Slots, i: nat, key: Key, value: Pointer)
    requires i <= |es|
    ensures (key, value) in Pending(es, i) <==> Full(key, value) in es[i..]
    decreases |es| - i
  {
    if i < |es| {
      PendingHas(es, i + 1, key, value);
      assert es[i..] == [es[i]] + es[i + 1..];
    }
  }

  lemma {:induction false} PendingDistinct(es: Slots, i: nat)
    requires i <= |es| && DistinctKeys(es)
    ensures forall p, q :: 0 <= p < q < |Pending(es, i)| ==> Pending(es, i)[p].0 != Pending(es, i)[q].0
    decreases |es| - i
  {
    if i < |es| {
      PendingDistinct(es, i + 1);
      if es[i].Full? {
        var rest := Pending(es, i + 1);
        forall q | 0 <= q < |rest| ensures rest[q].0 != es[i].key {
          assert rest[q] == (rest[q].0, rest[q].1);
          PendingHas(es, i + 1, rest[q].0, rest[q].1);
          var j :| 0 <= j < |es[i + 1..]| && es[i + 1..][j] == Full(rest[q].0, rest[q].1);
          assert es[i + 1 + j].key == rest[q].0;
        }
      }
    }
  }

  /** A fresh iterator over a well-formed table has exactly the table's map to yield: every
      pair that a lookup would answer, each key once, as many pairs as there are entries. */
  lemma IteratorYieldsMap(es: Slots)
    requires WellFormed(es)
    ensures |Pending(es, 0)| == Load(es)
    ensures forall key: Key, value: Pointer :: (key, value) in Pending(es, 0) <==> Lookup(es, key) == Some(value)
    ensures forall p, q :: 0 <= p < q < |Pending(es, 0)| ==> Pending(es, 0)[p].0 != Pending(es, 0)[q].0
  {
    PendingSize(es, 0);
    assert DistinctKeys(es) by { WellFormedIffChained(es); }
    PendingDistinct(es, 0);
    forall key: Key, value: Pointer ensures (key, value) in Pending(es, 0) <==> Lookup(es, key) == Some(value) {
      YieldedIffFound(es, key, value);
    }
  }

  lemma YieldedIffFound(es: Slots, key: Key, value: Pointer)
    requires WellFormed(es)
    ensures (key, value) in Pending(es, 0) <==> Lookup(es, key) == Some(value)
  {
    PendingHas(es, 0, key, value);
    assert es[0..] == es;
    LookupIffStored(es, key, value);
  }

  /** After a run with clean removals an iterator has as many pairs to yield as ht_length says,
      less the removed ones; so without removals exactly that many. */
  lemma PendingIsLength(calls: seq<Call>)
    requires CleanRemovals(calls)
    ensures |Pending(Run(calls).slots, 0)| == Run(calls).length - Removals(calls) == |LastSet(calls)|
  {
    RunIsMap(calls);
    PendingSize(Run(calls).slots, 0);
  }

  // What a call of ht_next makes of the pairs still to yield, and the pair it yields.
  predicate Yields(before: seq<(Key, Pointer)>, after: seq<(Key, Pointer)>, more: bool, pair: (Key, Pointer)) {
    if more then before == [pair] + after else before == [] && after == []
  }

  // The pairs left after `k` calls.
  function LeftAfter(pending: seq<(Key, Pointer)>, k: nat): seq<(Key, Pointer)> {
    if k <= |pending| then pending[k..] else []
  }

  /** Of any number of calls in a row the first |pending| answer true and yield the pairs in
      order, and all later ones answer false. */
  lemma {:induction false} NthCall(pending: seq<seq<(Key, Pointer)>>, more: seq<bool>,
                                   pairs: seq<(Key, Pointer)>, k: nat)
    requires |pending| == |more| + 1 == |pairs| + 1 && k < |more|
    requires forall i | 0 <= i < |more| :: Yields(pending[i], pending[i + 1], more[i], pairs[i])
    ensures pending[k] == LeftAfter(pending[0], k)
    ensures more[k] <==> k < |pending[0]|
    ensures more[k] ==> pairs[k] == pending[0][k]
  {
    if k > 0 {
      NthCall(pending, more, pairs, k - 1);
      assert Yields(pending[k - 1], pending[k], more[k - 1], pairs[k - 1]);
    }
    assert Yields(pending[k], pending[k + 1], more[k], pairs[k]);
  }
}
