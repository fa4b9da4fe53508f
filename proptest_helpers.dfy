/**
 The two selection helpers the mutator calls but does not define: proptest's
 `sample::Index` (an abstract selector reduced against a length) and `pick_slice_idxs`.
 Both are given deterministic stand-in bodies here; everything else in the model relies
 only on their contracts.
 */
module PropHelpers {

  /** An abstract selector; `Index(len)` reduces it to a position below `len`. */
  datatype PropIndex = PropIndex(raw: nat) {

    /** `Index::index(len)`: defined only for a non-empty range, and lands inside it. */
    function Index(len: nat): (r: nat)
      requires len > 0
      ensures r < len
    {
      raw % len
    }
  }

  /** The positions `0..max`, in order. */
  function Range(max: nat): (r: seq<nat>)
    ensures |r| == max
    ensures forall k :: 0 <= k < max ==> r[k] == k
  {
    seq(max, k requires 0 <= k < max => k)
  }

  /** No value occurs twice. */
  predicate Distinct(s: seq<nat>)
  {
    forall i, j :: 0 <= i < j < |s| ==> s[i] != s[j]
  }

  /**
   Each selector in turn takes one of the candidates not taken yet, reduced against the
   shrinking number of remaining candidates; it stops when either runs out.
   */
  function PickFrom(candidates: seq<nat>, selectors: seq<PropIndex>): (r: seq<nat>)
    requires Distinct(candidates)
    ensures |r| == if |selectors| < |candidates| then |selectors| else |candidates|
    ensures forall k :: 0 <= k < |r| ==> r[k] in candidates
    ensures Distinct(r)
    decreases |selectors|
  {
    if selectors == [] || candidates == [] then []
    else
      var k := selectors[0].Index(|candidates|);
      var rest := candidates[..k] + candidates[k + 1..];
      assert forall x :: x in rest ==> x in candidates && x != candidates[k];
      [candidates[k]] + PickFrom(rest, selectors[1..])
  }

  /**
   `pick_slice_idxs(max, selectors)`: one position below `max` per selector, no position
   twice, and as many as there are selectors or positions, whichever is fewer.
   */
  function PickSliceIdxs(max: nat, selectors: seq<PropIndex>): (r: seq<nat>)
    ensures |r| == if |selectors| < max then |selectors| else max
    ensures forall k :: 0 <= k < |r| ==> r[k] < max
    ensures Distinct(r)
  {
    PickFrom(Range(max), selectors)
  }
}
