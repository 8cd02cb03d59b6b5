module Prelude {
  newtype Byte = x: int | 0 <= x < 256

  const TWO32 := 0x1_0000_0000

  datatype Option<+T> = None | Some(value: T)

  /** What ends an operation early: /dev/urandom cannot be read, an assertion of the source fails, or there is no
      block with a valid header to open. */
  datatype Failure = NoEntropy | AssertionFailed | NoBlocks

  datatype Result<+T> = Ok(value: T) | Fail(why: Failure) {
    predicate IsFailure() {
      Fail?
    }

    function PropagateFailure<U>(): Result<U>
      requires Fail?
    {
      Fail(why)
    }

    function Extract(): T
      requires Ok?
    {
      value
    }
  }

  function Zeros(n: nat): (z: seq<Byte>)
    ensures |z| == n
  {
    seq(n, _ => 0)
  }

  ghost predicate NoDup<T>(s: seq<T>) {
    forall i, k :: 0 <= i < k < |s| ==> s[i] != s[k]
  }

  ghost function Members<T>(s: seq<T>): set<T> {
    set x | x in s
  }

  /** A sequence without duplicates has as many members as elements. */
  lemma {:induction false} MemberCount<T>(s: seq<T>)
    requires NoDup(s)
    ensures |Members(s)| == |s|
  {
    if s != [] {
      var last := |s| - 1;
      MemberCount(s[..last]);
      assert s == s[..last] + [s[last]];
      assert Members(s) == Members(s[..last]) + {s[last]};
    }
  }

  lemma {:induction false} SubsetSize<T>(a: set<T>, b: set<T>)
    requires a <= b
    ensures |a| <= |b|
  {
    if a != {} {
      var x :| x in a;
      SubsetSize(a - {x}, b - {x});
    }
  }
}
