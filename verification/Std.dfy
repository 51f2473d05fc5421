/** Shared result types and the integer widths of the wire and operating-system interfaces. */
module Std {

  datatype Option<+T> = None | Some(value: T)

  datatype Result<+T, +E> = Success(value: T) | Failure(error: E) {
    predicate IsFailure() {
      Failure?
    }

    function PropagateFailure<U>(): Result<U, E>
      requires Failure?
    {
      Failure(error)
    }

    function Extract(): T
      requires Success?
    {
      value
    }
  }

  type u8 = x: int | 0 <= x < 0x100
  type u16 = x: int | 0 <= x < 0x1_0000
  type u32 = x: int | 0 <= x < 0x1_0000_0000
  type u64 = x: int | 0 <= x < 0x1_0000_0000_0000_0000

  const U32_MAX: u32 := 0xFFFF_FFFF

  /** The first failure among checks made in order. */
  function FirstFailure<E>(checks: seq<Option<E>>): (r: Option<E>)
    ensures r.None? <==> forall i :: 0 <= i < |checks| ==> checks[i].None?
  {
    if checks == [] then None
    else
      assert forall i :: 1 <= i < |checks| ==> checks[i] == checks[1..][i - 1];
      if checks[0].Some? then checks[0] else FirstFailure(checks[1..])
  }

  lemma {:induction false} FirstFailureSum<E>(a: seq<Option<E>>, b: seq<Option<E>>)
    ensures FirstFailure(a + b) == if FirstFailure(a).Some? then FirstFailure(a) else FirstFailure(b)
  {
    if a == [] {
      assert a + b == b;
    } else {
      assert (a + b)[0] == a[0] && (a + b)[1..] == a[1..] + b;
      FirstFailureSum(a[1..], b);
    }
  }

  predicate Distinct<T(==)>(s: seq<T>) {
    forall i, j :: 0 <= i < j < |s| ==> s[i] != s[j]
  }

  predicate IsPrefix<T(==)>(p: seq<T>, s: seq<T>) {
    |p| <= |s| && p == s[..|p|]
  }

  lemma Assoc<T>(a: seq<T>, b: seq<T>, c: seq<T>)
    ensures a + b + c == a + (b + c)
  {
  }

  lemma PrefixOfSum<T>(p: seq<T>, a: seq<T>, b: seq<T>)
    requires IsPrefix(p, a)
    ensures IsPrefix(p, a + b)
  {
    assert (a + b)[..|p|] == a[..|p|];
  }
}
