/** Shared vocabulary: options, 64-bit counters and sums over sequences. */
module Prelude {

  datatype Option<+T> = None | Some(value: T)

  datatype Result<+T, +E> = Ok(value: T) | Err(error: E)

  const U64_MODULUS: nat := 0x1_0000_0000_0000_0000

  type u64 = n: nat | n < 0x1_0000_0000_0000_0000

  type u16 = n: nat | n < 0x1_0000

  function WrapAdd(n: u64): u64 {
    (n + 1) % U64_MODULUS
  }

  function WrapSub(n: u64): u64 {
    (n + U64_MODULUS - 1) % U64_MODULUS
  }

  /** Giving a ticket back undoes taking it, also across the wrap-around. */
  lemma WrapSubUndoesAdd(n: nat)
    ensures WrapAdd(n % U64_MODULUS) == (n + 1) % U64_MODULUS
    ensures WrapSub((n + 1) % U64_MODULUS) == n % U64_MODULUS
  {
    var q, r := n / U64_MODULUS, n % U64_MODULUS;
    assert n + 1 == q * U64_MODULUS + (r + 1);
    if r + 1 == U64_MODULUS {
      assert n + 1 == (q + 1) * U64_MODULUS;
      assert (n + 1) % U64_MODULUS == 0;
    } else {
      assert (n + 1) % U64_MODULUS == r + 1;
    }
  }

  /** A shared counter; every operation is one atomic, wrapping step. */
  class AtomicU64 {
    var value: u64

    constructor (initial: u64)
      ensures value == initial
    {
      value := initial;
    }

    method FetchAdd() returns (before: u64)
      modifies this
      ensures before == old(value) && value == WrapAdd(before)
    {
      before := value;
      value := WrapAdd(value);
    }

    method FetchSub() returns (before: u64)
      modifies this
      ensures before == old(value) && value == WrapSub(before)
    {
      before := value;
      value := WrapSub(value);
    }
  }

  function Sum<T>(xs: seq<T>, f: T -> nat): nat {
    if xs == [] then 0 else Sum(xs[..|xs| - 1], f) + f(xs[|xs| - 1])
  }

  lemma {:induction false} SumAppend<T>(xs: seq<T>, x: T, f: T -> nat)
    ensures Sum(xs + [x], f) == Sum(xs, f) + f(x)
  {
    assert (xs + [x])[..|xs|] == xs;
  }

  lemma SumSmall<T>(x: T, f: T -> nat)
    ensures Sum([], f) == 0 && Sum([x], f) == f(x)
  {
    assert [x][..0] == [];
  }

  lemma {:induction false} SumConcat<T>(xs: seq<T>, ys: seq<T>, f: T -> nat)
    ensures Sum(xs + ys, f) == Sum(xs, f) + Sum(ys, f)
  {
    if ys == [] {
      assert xs + ys == xs;
    } else {
      var n := |ys| - 1;
      SumConcat(xs, ys[..n], f);
      assert (xs + ys)[..|xs + ys| - 1] == xs + ys[..n];
    }
  }

  /** Replacing one entry changes a sum by exactly that entry's change. */
  lemma {:induction false} SumUpdate<T>(xs: seq<T>, i: nat, x: T, f: T -> nat)
    requires i < |xs|
    ensures Sum(xs[i := x], f) + f(xs[i]) == Sum(xs, f) + f(x)
  {
    var n := |xs| - 1;
    if i == n {
      assert xs[i := x][..n] == xs[..n];
    } else {
      SumUpdate(xs[..n], i, x, f);
      assert xs[i := x][..n] == xs[..n][i := x];
    }
  }

  lemma MulSucc(a: nat, n: nat)
    ensures a * (n + 1) == a * n + a
  {
  }

  lemma {:induction false} SumBound<T>(xs: seq<T>, f: T -> nat, b: nat)
    requires forall i :: 0 <= i < |xs| ==> f(xs[i]) <= b
    ensures Sum(xs, f) <= b * |xs|
  {
    if xs != [] {
      SumBound(xs[..|xs| - 1], f, b);
      MulSucc(b, |xs| - 1);
    }
  }

  lemma {:induction false} SumAtLeast<T>(xs: seq<T>, f: T -> nat, i: nat)
    requires i < |xs|
    ensures f(xs[i]) <= Sum(xs, f)
  {
    if i < |xs| - 1 {
      SumAtLeast(xs[..|xs| - 1], f, i);
    }
  }

  lemma {:induction false} SumZero<T>(xs: seq<T>, f: T -> nat)
    requires forall i :: 0 <= i < |xs| ==> f(xs[i]) == 0
    ensures Sum(xs, f) == 0
  {
    if xs != [] {
      SumZero(xs[..|xs| - 1], f);
    }
  }
}
