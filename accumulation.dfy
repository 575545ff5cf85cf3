/**
  Additive writes into a shared buffer of reals: each update adds a value at one
  position. Applying a sequence of updates in order gives, at every position, the
  old value plus the sum of the values aimed at it, so any reordering of the
  updates gives the same buffer. This is the contract an atomic add provides to
  work items that write the same position concurrently: every interleaving of
  their adds is a reordering.
 */
module Accumulation {

  /** Add `val` at position `pos`. */
  datatype Update = Update(pos: int, val: real)

  /** Every update of `us` aims inside a buffer of length `n`. */
  predicate Targets(us: seq<Update>, n: int)
  {
    forall k :: 0 <= k < |us| ==> 0 <= us[k].pos < n
  }

  /** The buffer after adding the updates of `us` one after the other, first to last. */
  function Apply(a: seq<real>, us: seq<Update>): (r: seq<real>)
    requires Targets(us, |a|)
    ensures |r| == |a|
    decreases |us|
  {
    if us == [] then a
    else
      var b := Apply(a, us[..|us| - 1]);
      var u := us[|us| - 1];
      b[u.pos := b[u.pos] + u.val]
  }

  /** The sum of `f` over the elements of `xs`. */
  function SumOf<T>(xs: seq<T>, f: T -> real): real
    decreases |xs|
  {
    if xs == [] then 0.0 else f(xs[0]) + SumOf(xs[1..], f)
  }

  /** What `u` adds at position `p`. */
  function AddedAt(u: Update, p: int): real
  {
    if u.pos == p then u.val else 0.0
  }

  /** The total that the updates of `us` add at position `p`. */
  function Delta(us: seq<Update>, p: int): real
  {
    SumOf(us, u => AddedAt(u, p))
  }

  lemma {:induction false} SumOfAppend<T>(xs: seq<T>, ys: seq<T>, f: T -> real)
    ensures SumOf(xs + ys, f) == SumOf(xs, f) + SumOf(ys, f)
    decreases |xs|
  {
    if xs == [] {
      assert xs + ys == ys;
    } else {
      assert (xs + ys)[1..] == xs[1..] + ys;
      SumOfAppend(xs[1..], ys, f);
    }
  }

  /** Taking element `i` out of `ys` leaves one `ys[i]` less. */
  lemma MultisetRemoveAt<T>(ys: seq<T>, i: nat)
    requires i < |ys|
    ensures multiset(ys[..i] + ys[i + 1..]) == multiset(ys) - multiset{ys[i]}
  {
    var x := ys[i];
    assert ys == ys[..i] + [x] + ys[i + 1..];
    assert multiset(ys) == multiset(ys[..i]) + multiset{x} + multiset(ys[i + 1..]);
    assert multiset(ys[..i] + ys[i + 1..]) == multiset(ys[..i]) + multiset(ys[i + 1..]);
  }

  /** Taking element `i` out of `ys` takes `f(ys[i])` out of the sum. */
  lemma SumRemoveAt<T>(ys: seq<T>, i: nat, f: T -> real)
    requires i < |ys|
    ensures SumOf(ys, f) == f(ys[i]) + SumOf(ys[..i] + ys[i + 1..], f)
  {
    var x := ys[i];
    assert ys == ys[..i] + [x] + ys[i + 1..];
    SumOfAppend(ys[..i] + [x], ys[i + 1..], f);
    SumOfAppend(ys[..i], [x], f);
    SumOfAppend(ys[..i], ys[i + 1..], f);
    assert [x][1..] == [];
  }

  /** A sum does not depend on the order of its terms. */
  lemma {:induction false} SumOfPermutation<T>(xs: seq<T>, ys: seq<T>, f: T -> real)
    requires multiset(xs) == multiset(ys)
    ensures SumOf(xs, f) == SumOf(ys, f)
    decreases |xs|
  {
    if xs == [] {
      assert |ys| == |multiset(ys)| == 0;
    } else {
      var x := xs[0];
      assert x in multiset(ys);
      var i :| 0 <= i < |ys| && ys[i] == x;
      MultisetRemoveAt(ys, i);
      SumRemoveAt(ys, i, f);
      assert xs == [x] + xs[1..];
      assert multiset(xs[1..]) == multiset(xs) - multiset{x};
      SumOfPermutation(xs[1..], ys[..i] + ys[i + 1..], f);
    }
  }

  lemma DeltaAppend(xs: seq<Update>, ys: seq<Update>, p: int)
    ensures Delta(xs + ys, p) == Delta(xs, p) + Delta(ys, p)
  {
    SumOfAppend(xs, ys, u => AddedAt(u, p));
  }

  lemma DeltaSingle(u: Update, p: int)
    ensures Delta([u], p) == AddedAt(u, p)
  {
    assert [u][1..] == [];
    assert Delta([u], p) == AddedAt(u, p) + Delta([], p);
  }

  /** Each position ends as its old value plus everything added there. */
  lemma {:induction false} ApplyAt(a: seq<real>, us: seq<Update>, p: int)
    requires Targets(us, |a|)
    requires 0 <= p < |a|
    ensures Apply(a, us)[p] == a[p] + Delta(us, p)
    decreases |us|
  {
    if us == [] {
    } else {
      var init := us[..|us| - 1];
      var u := us[|us| - 1];
      ApplyAt(a, init, p);
      assert us == init + [u];
      DeltaAppend(init, [u], p);
      DeltaSingle(u, p);
    }
  }

  /** A position no update aims at keeps its old value. */
  lemma {:induction false} ApplyUntargeted(a: seq<real>, us: seq<Update>, p: int)
    requires Targets(us, |a|)
    requires 0 <= p < |a|
    requires forall k :: 0 <= k < |us| ==> us[k].pos != p
    ensures Apply(a, us)[p] == a[p]
    decreases |us|
  {
    if us != [] {
      ApplyUntargeted(a, us[..|us| - 1], p);
    }
  }

  /** Applying `xs` and then `ys` is applying `xs + ys`. */
  lemma {:induction false} ApplyConcat(a: seq<real>, xs: seq<Update>, ys: seq<Update>)
    requires Targets(xs, |a|) && Targets(ys, |a|)
    ensures Targets(xs + ys, |a|)
    ensures Apply(a, xs + ys) == Apply(Apply(a, xs), ys)
    decreases |ys|
  {
    if ys == [] {
      assert xs + ys == xs;
    } else {
      var init := ys[..|ys| - 1];
      assert (xs + ys)[..|xs + ys| - 1] == xs + init;
      ApplyConcat(a, xs, init);
    }
  }

  /** The order of the updates does not matter: any reordering (any interleaving of
      concurrent atomic adds) leaves the same buffer. */
  lemma ApplyPermutation(a: seq<real>, xs: seq<Update>, ys: seq<Update>)
    requires Targets(xs, |a|)
    requires multiset(xs) == multiset(ys)
    ensures Targets(ys, |a|)
    ensures Apply(a, xs) == Apply(a, ys)
  {
    forall k | 0 <= k < |ys|
      ensures 0 <= ys[k].pos < |a|
    {
      assert ys[k] in multiset(xs);
    }
    forall p | 0 <= p < |a|
      ensures Apply(a, xs)[p] == Apply(a, ys)[p]
    {
      ApplyAt(a, xs, p);
      ApplyAt(a, ys, p);
      SumOfPermutation(xs, ys, u => AddedAt(u, p));
    }
  }
}
