/**
 * The shape shared by the source's "loop over indices and push when a
 * condition holds" code: which indices are kept, and what is pushed for them.
 * The two functions are plain definitions; what they mean is stated by the
 * lemmas below, which callers invoke where they need it.
 */
module Filtering {

  /** The indices below `n` that satisfy `keep`, in increasing order. */
  function Indices(n: nat, keep: nat -> bool): seq<nat>
  {
    if n == 0 then [] else Indices(n - 1, keep) + (if keep(n - 1) then [n - 1] else [])
  }

  /**
   * What a loop over `0 .. n-1` collects when it pushes `f(i)` exactly when
   * `keep(i)`: one entry per kept index, in index order.
   */
  function FilterMap<T>(n: nat, keep: nat -> bool, f: nat -> T): seq<T>
  {
    if n == 0 then [] else FilterMap(n - 1, keep, f) + (if keep(n - 1) then [f(n - 1)] else [])
  }

  /**
   * `Indices(n, keep)` holds exactly the kept indices below `n`, each once,
   * in increasing order.
   */
  lemma {:induction false} IndicesExactly(n: nat, keep: nat -> bool)
    ensures forall k :: 0 <= k < |Indices(n, keep)| ==> Indices(n, keep)[k] < n && keep(Indices(n, keep)[k])
    ensures forall j, k :: 0 <= j < k < |Indices(n, keep)| ==> Indices(n, keep)[j] < Indices(n, keep)[k]
    ensures forall i :: 0 <= i < n && keep(i) ==> i in Indices(n, keep)
  {
    if n > 0 {
      IndicesExactly(n - 1, keep);
    }
  }

  /** `FilterMap` is `f` applied to `Indices`, entry by entry. */
  lemma {:induction false} FilterMapOfIndices<T>(n: nat, keep: nat -> bool, f: nat -> T)
    ensures |FilterMap(n, keep, f)| == |Indices(n, keep)|
    ensures forall k :: 0 <= k < |FilterMap(n, keep, f)| ==> FilterMap(n, keep, f)[k] == f(Indices(n, keep)[k])
  {
    if n > 0 {
      FilterMapOfIndices(n - 1, keep, f);
    }
  }

  /**
   * `FilterMap` looks only at the indices below `n`, and at `f` only where
   * `keep` holds: two conditions and two maps that agree there give the same
   * result.
   */
  lemma {:induction false} FilterMapAgree<T>(n: nat, keep1: nat -> bool, f1: nat -> T, keep2: nat -> bool, f2: nat -> T)
    requires forall i: nat :: i < n ==> keep1(i) == keep2(i)
    requires forall i: nat :: i < n && keep1(i) ==> f1(i) == f2(i)
    ensures FilterMap(n, keep1, f1) == FilterMap(n, keep2, f2)
  {
    if n > 0 {
      FilterMapAgree(n - 1, keep1, f1, keep2, f2);
    }
  }
}
