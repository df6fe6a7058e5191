/** Option, Result and the fixed-width arithmetic the rest of the model uses. */
module Prelude {

  datatype Option<+T> = None | Some(value: T)

  datatype Result<+T, +E> = Success(value: T) | Failure(error: E) {
    predicate IsFailure() {
      Failure?
    }

    function PropagateFailure<U>(): Result<U, E>
      requires Failure?
    {
      Failure(error)
    }

    function Extract(): T
      requires Success?
    {
      value
    }
  }

  const U8: int := 0x100
  const U32: int := 0x1_0000_0000
  const U64: int := 0x1_0000_0000_0000_0000

  type u8 = x: int | 0 <= x < U8
  type u32 = x: int | 0 <= x < U32
  type u64 = x: int | 0 <= x < U64

  // Integer overflow wraps, as in a release build; a debug build panics at the same point.

  function Succ8(x: u8): u8 { (x + 1) % U8 }
  function Add32(x: u32, y: u32): u32 { (x + y) % U32 }
  function Add64(x: u64, y: u64): u64 { (x + y) % U64 }
  function Sub64(x: u64, y: u64): u64 { (x - y) % U64 }
  function SaturatingDec32(x: u32): u32 { if x == 0 then 0 else x - 1 }
  function Clamp32(x: u64): u32 { if x < U32 then x else U32 - 1 }

  /** What the widths come to: the last value goes round to 0, or stays, and every other moves by 1. */
  lemma WidthsInFull()
    ensures Succ8(255) == 0 && forall x: u8 | x < 255 :: Succ8(x) == x + 1
    ensures Add32(4294967295, 1) == 0 && forall x: u32 | x < 4294967295 :: Add32(x, 1) == x + 1
    ensures Add64(18446744073709551615, 1) == 0 && forall x: u64 | x < 18446744073709551615 :: Add64(x, 1) == x + 1
    ensures SaturatingDec32(0) == 0 && forall x: u32 | x > 0 :: SaturatingDec32(x) == x - 1
    ensures forall x: u64 :: Clamp32(x) == if x <= 4294967295 then x else 4294967295
  {
  }

  // -- sums over a sequence ----------------------------------------------------

  function Sum<T>(f: T -> nat, s: seq<T>): nat {
    if s == [] then 0 else Sum(f, s[..|s| - 1]) + f(s[|s| - 1])
  }

  lemma SumAppend<T>(f: T -> nat, s: seq<T>, x: T)
    ensures Sum(f, s + [x]) == Sum(f, s) + f(x)
  {
    assert (s + [x])[..|s|] == s;
  }

  lemma {:induction false} SumSplit<T>(f: T -> nat, s: seq<T>, k: nat)
    requires k <= |s|
    ensures Sum(f, s) == Sum(f, s[..k]) + Sum(f, s[k..])
  {
    if k == |s| {
      assert s[..k] == s;
    } else {
      var n := |s| - 1;
      assert s[..n][..k] == s[..k] && s[..n][k..] == s[k..][..n - k];
      SumSplit(f, s[..n], k);
    }
  }

  lemma {:induction false} SumUpdate<T>(f: T -> nat, s: seq<T>, i: nat, x: T)
    requires i < |s|
    ensures Sum(f, s[i := x]) == Sum(f, s) - f(s[i]) + f(x)
  {
    var n := |s| - 1;
    if i < n {
      assert s[i := x][..n] == s[..n][i := x];
      SumUpdate(f, s[..n], i, x);
    } else {
      assert s[i := x][..n] == s[..n];
    }
  }

  lemma {:induction false} SumSame<T>(f: T -> nat, a: seq<T>, b: seq<T>)
    requires |a| == |b| && forall i | 0 <= i < |a| :: f(a[i]) == f(b[i])
    ensures Sum(f, a) == Sum(f, b)
  {
    if a == [] {
    } else {
      var n := |a| - 1;
      assert forall i | 0 <= i < n :: a[..n][i] == a[i] && b[..n][i] == b[i];
      SumSame(f, a[..n], b[..n]);
    }
  }

  lemma {:induction false} SumZero<T>(f: T -> nat, s: seq<T>)
    ensures Sum(f, s) == 0 <==> forall i | 0 <= i < |s| :: f(s[i]) == 0
  {
    if s == [] {
    } else {
      var n := |s| - 1;
      SumZero(f, s[..n]);
      assert forall i | 0 <= i < n :: s[..n][i] == s[i];
    }
  }
}
