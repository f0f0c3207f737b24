/** Adding numbers up: all of a list, and those at given places. */
module Sums {
  import opened Basics
  import opened Trees

  function Sum(w: seq<nat>): nat {
    if w == [] then 0 else Sum(w[..|w| - 1]) + w[|w| - 1]
  }

  predicate Places(w: seq<nat>, at: seq<nat>) {
    forall k :: 0 <= k < |at| ==> at[k] < |w|
  }

  function SumAt(w: seq<nat>, at: seq<nat>): nat
    requires Places(w, at)
  {
    if at == [] then 0 else SumAt(w, at[..|at| - 1]) + w[at[|at| - 1]]
  }

  lemma SumAtSnoc(w: seq<nat>, at: seq<nat>, i: nat)
    requires Places(w, at) && i < |w|
    ensures Places(w, at + [i]) && SumAt(w, at + [i]) == SumAt(w, at) + w[i]
  {
    assert (at + [i])[..|at|] == at;
  }

  /** The first `n` numbers, those elsewhere than at the given places left out. */
  function Masked(w: seq<nat>, at: seq<nat>, n: nat): nat
    requires n <= |w|
  {
    if n == 0 then 0 else Masked(w, at, n - 1) + if n - 1 in at then w[n - 1] else 0
  }

  lemma {:induction false} MaskedMore(w: seq<nat>, at: seq<nat>, i: nat, n: nat)
    requires n <= |w| && i !in at && i < |w|
    ensures Masked(w, at + [i], n) == Masked(w, at, n) + if i < n then w[i] else 0
  {
    if n > 0 {
      MaskedMore(w, at, i, n - 1);
    }
  }

  lemma {:induction false} MaskedIsSumAt(w: seq<nat>, at: seq<nat>)
    requires Places(w, at) && Distinct(at)
    ensures Masked(w, at, |w|) == SumAt(w, at)
  {
    if at == [] {
      MaskedNone(w, |w|);
    } else {
      var front, i := at[..|at| - 1], at[|at| - 1];
      assert at == front + [i];
      MaskedIsSumAt(w, front);
      MaskedMore(w, front, i, |w|);
    }
  }

  lemma {:induction false} MaskedNone(w: seq<nat>, n: nat)
    requires n <= |w|
    ensures Masked(w, [], n) == 0
  {
    if n > 0 {
      MaskedNone(w, n - 1);
    }
  }

  lemma {:induction false} MaskedAll(w: seq<nat>, at: seq<nat>, n: nat)
    requires n <= |w| && forall i :: 0 <= i < |w| && w[i] > 0 ==> i in at
    ensures Masked(w, at, n) == Sum(w[..n])
  {
    if n > 0 {
      MaskedAll(w, at, n - 1);
      assert w[..n][..n - 1] == w[..n - 1] && w[..n][n - 1] == w[n - 1];
    }
  }

  /** In whatever order: places met once each, and no number but 0 missed. */
  lemma SumInAnyOrder(w: seq<nat>, at: seq<nat>)
    requires Places(w, at) && Distinct(at) && forall i :: 0 <= i < |w| && w[i] > 0 ==> i in at
    ensures SumAt(w, at) == Sum(w)
  {
    MaskedIsSumAt(w, at);
    MaskedAll(w, at, |w|);
    assert w[..|w|] == w;
  }
}
