/**
 The container-independent helpers of the numeric backends: `fold`,
 `accumulate`, `apply`, `apply_`, `mapzip` and `mapzip_`.

 A list or a named tuple is a `seq<T>`; an in-place variant works on an
 `array<T>` whose elements are replaced by the result of a function, since
 the in-place callables of the backends overwrite each element with a value
 computed from it.
 */
module Combinators {

  /** The smaller of two lengths: how far `zip` walks before it stops. */
  function Min(x: int, y: int): int
  {
    if x <= y then x else y
  }

  /** Sum of a sequence of integers, the reference meaning of adding things up. */
  function Sum(s: seq<int>): int
  {
    if s == [] then 0 else s[0] + Sum(s[1..])
  }

  /** Integer addition as a two-argument function value, like `operator.add`. */
  function Add(x: int, y: int): int
  {
    x + y
  }

  /** Left fold with an explicit accumulator: the running state of a loop
      that replaces the accumulator by `f(acc, x)` for each `x` in turn. */
  function FoldFrom<A, T>(f: (A, T) -> A, acc: A, a: seq<T>): (r: A)
    ensures a == [] ==> r == acc
    ensures |a| == 1 ==> r == f(acc, a[0])
    decreases |a|
  {
    if a == [] then acc else FoldFrom(f, f(acc, a[0]), a[1..])
  }

  /** `fold(func, a)`: the accumulator starts at 0 and is combined with
      every element of `a`, first to last. */
  function Fold<T>(f: (int, T) -> int, a: seq<T>): (r: int)
    ensures a == [] ==> r == 0
  {
    FoldFrom(f, 0, a)
  }

  /** The step a loop takes when `sum` adds `f(x)` to its running total. */
  function AddImage<T>(f: T -> int): (int, T) -> int
  {
    (acc: int, x: T) => acc + f(x)
  }

  /** `accumulate(func, a)`: Python's `sum` over the generator `func(x) for x
      in a`, which starts at 0 and adds the images left to right. */
  function Accumulate<T>(f: T -> int, a: seq<T>): (r: int)
    ensures a == [] ==> r == 0
  {
    FoldFrom(AddImage(f), 0, a)
  }

  /** `apply(func, a)`: the list comprehension `[func(x) for x in a]`. */
  function Apply<T, U>(f: T -> U, a: seq<T>): (b: seq<U>)
    ensures |b| == |a|
    ensures forall i :: 0 <= i < |a| ==> b[i] == f(a[i])
    decreases |a|
  {
    if a == [] then [] else [f(a[0])] + Apply(f, a[1..])
  }

  /** Python's `zip(a, b)`: pairs of equal positions, stopping at the shorter input. */
  function Zip<T, U>(a: seq<T>, b: seq<U>): (z: seq<(T, U)>)
    ensures |z| == Min(|a|, |b|)
    ensures forall i :: 0 <= i < |z| ==> z[i] == (a[i], b[i])
    decreases |a|
  {
    if a == [] || b == [] then [] else [(a[0], b[0])] + Zip(a[1..], b[1..])
  }

  /** A two-argument function taking its arguments as one pair, as
      `func(x[0], x[1])` does for each `x` of a zip. */
  function Uncurry<T, U, R>(f: (T, U) -> R): ((T, U)) -> R
  {
    (p: (T, U)) => f(p.0, p.1)
  }

  /** `mapzip(func, a, b)`: `[func(x[0], x[1]) for x in zip(a, b)]`. */
  function MapZip<T, U, R>(f: (T, U) -> R, a: seq<T>, b: seq<U>): (c: seq<R>)
    ensures |c| == Min(|a|, |b|)
    ensures forall i :: 0 <= i < |c| ==> c[i] == f(a[i], b[i])
  {
    Apply(Uncurry(f), Zip(a, b))
  }

  /** `apply_(func_, a)`: every element is replaced, once, by `f` of its old value. */
  method ApplyInPlace<T>(f: T -> T, a: array<T>)
    modifies a
    ensures forall i :: 0 <= i < a.Length ==> a[i] == f(old(a[i]))
    ensures a[..] == Apply(f, old(a[..]))
  {
    var i := 0;
    while i < a.Length
      invariant 0 <= i <= a.Length
      invariant forall j :: 0 <= j < i ==> a[j] == f(old(a[j]))
      invariant forall j :: i <= j < a.Length ==> a[j] == old(a[j])
    {
      a[i] := f(a[i]);
      i := i + 1;
    }
  }

  /** `mapzip_(func_, a, b)`: for every index of `a`, element `a[i]` becomes
      `f(a[i], b[i])`. The loop runs over the indices of `a` and reads `b` at
      each of them, so `b` must be at least as long as `a`. */
  method MapZipInPlace<T, U>(f: (T, U) -> T, a: array<T>, b: array<U>)
    requires b.Length >= a.Length
    modifies a
    ensures forall i :: 0 <= i < a.Length ==> a[i] == f(old(a[i]), old(b[i]))
    ensures a[..] == MapZip(f, old(a[..]), old(b[..]))
  {
    var i := 0;
    while i < a.Length
      invariant 0 <= i <= a.Length
      invariant forall j :: 0 <= j < i ==> a[j] == f(old(a[j]), old(b[j]))
      invariant forall j :: i <= j < a.Length ==> a[j] == old(a[j])
      invariant forall j :: i <= j < b.Length ==> b[j] == old(b[j])
    {
      a[i] := f(a[i], b[i]);
      i := i + 1;
    }
  }

  // ----- properties of fold -----

  /** Folding one more element at the end combines it with the fold so far. */
  lemma {:induction false} FoldFromSnoc<A, T>(f: (A, T) -> A, acc: A, a: seq<T>, x: T)
    ensures FoldFrom(f, acc, a + [x]) == f(FoldFrom(f, acc, a), x)
    decreases |a|
  {
    if a == [] {
      assert (a + [x])[1..] == [];
    } else {
      assert (a + [x])[1..] == a[1..] + [x];
      FoldFromSnoc(f, f(acc, a[0]), a[1..], x);
    }
  }

  /** `fold` is a left fold from 0. */
  lemma FoldSnoc<T>(f: (int, T) -> int, a: seq<T>, x: T)
    ensures Fold(f, a + [x]) == f(Fold(f, a), x)
  {
    FoldFromSnoc(f, 0, a, x);
  }

  lemma {:induction false} FoldFromAdd(acc: int, a: seq<int>)
    ensures FoldFrom(Add, acc, a) == acc + Sum(a)
    decreases |a|
  {
    if a != [] {
      FoldFromAdd(acc + a[0], a[1..]);
    }
  }

  /** Folding with addition sums the elements. */
  lemma FoldAddIsSum(a: seq<int>)
    ensures Fold(Add, a) == Sum(a)
  {
    FoldFromAdd(0, a);
  }

  /** The worked example of `fold(add, coords(1, 2))`. */
  lemma FoldAddExample()
    ensures Fold(Add, [1, 2]) == 3
  {
    FoldAddIsSum([1, 2]);
    assert [1, 2][1..] == [2];
  }

  // ----- properties of accumulate -----

  lemma {:induction false} FoldFromAddImage<T>(f: T -> int, acc: int, a: seq<T>)
    ensures FoldFrom(AddImage(f), acc, a) == acc + Sum(Apply(f, a))
    decreases |a|
  {
    if a != [] {
      assert AddImage(f)(acc, a[0]) == acc + f(a[0]);
      FoldFromAddImage(f, acc + f(a[0]), a[1..]);
    }
  }

  /** `accumulate(f, a)` is the sum of the images `f(x)` of the elements. */
  lemma AccumulateIsSumOfApply<T>(f: T -> int, a: seq<T>)
    ensures Accumulate(f, a) == Sum(Apply(f, a))
  {
    FoldFromAddImage(f, 0, a);
  }

  /** `accumulate` is `fold` after `apply`: summing the images. */
  lemma AccumulateIsFoldOfApply<T>(f: T -> int, a: seq<T>)
    ensures Accumulate(f, a) == Fold(Add, Apply(f, a))
  {
    AccumulateIsSumOfApply(f, a);
    FoldAddIsSum(Apply(f, a));
  }

  function Square(x: int): int
  {
    x * x
  }

  /** The worked example of `accumulate(square, coords(1, 2))`. */
  lemma AccumulateSquareExample()
    ensures Accumulate(Square, [1, 2]) == 5
  {
    AccumulateIsSumOfApply(Square, [1, 2]);
    var images := Apply(Square, [1, 2]);
    assert images == [1, 4];
    assert images[1..] == [4];
  }

  // ----- properties of apply and mapzip -----

  /** Applying over a concatenation applies over each part. */
  lemma ApplyConcat<T, U>(f: T -> U, a: seq<T>, b: seq<T>)
    ensures Apply(f, a + b) == Apply(f, a) + Apply(f, b)
  {
  }

  /** Two successive applications are one application of the composition. */
  lemma ApplyCompose<T, U, R>(f: T -> U, g: U -> R, a: seq<T>)
    ensures Apply(g, Apply(f, a)) == Apply(x => g(f(x)), a)
  {
  }

  /** `mapzip` ignores whatever the longer input has past the shorter one. */
  lemma MapZipTruncates<T, U, R>(f: (T, U) -> R, a: seq<T>, b: seq<U>)
    ensures MapZip(f, a, b) == MapZip(f, a[..Min(|a|, |b|)], b[..Min(|a|, |b|)])
  {
  }

  /** On inputs of one length, `mapzip` with a function that ignores its
      second argument is `apply`. */
  lemma MapZipOfFirst<T, U, R>(g: T -> R, a: seq<T>, b: seq<U>)
    requires |a| == |b|
    ensures MapZip((x: T, y: U) => g(x), a, b) == Apply(g, a)
  {
  }
}
