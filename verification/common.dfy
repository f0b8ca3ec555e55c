/** Small helper types shared by every module of the model. */
module Common {

  /** Kotlin's nullable value `T?`. */
  datatype Option<+T> = None | Some(value: T) {

    /** The elvis operator `x ?: default`. */
    function GetOr(default: T): T {
      match this
      case Some(v) => v
      case None => default
    }
  }

  /** A value or the exception that replaced it. */
  datatype Result<+T, +E> = Ok(value: T) | Err(error: E)

  const SHORT_MIN: int := -32768
  const SHORT_MAX: int := 32767

  /** Kotlin's 16-bit `Short`. */
  type Short = x: int | SHORT_MIN <= x <= SHORT_MAX

  /** `Int.toShort()`: keeps the low 16 bits, read as two's complement. */
  function ToShort(x: int): (r: Short)
    ensures (r - x) % 65536 == 0
    ensures SHORT_MIN <= x <= SHORT_MAX ==> r == x
  {
    var m := x % 65536;
    if m <= SHORT_MAX then m else m - 65536
  }

  /** Number of occurrences of `x` in `s`. */
  function Count<T(==)>(x: T, s: seq<T>): nat {
    if s == [] then 0 else (if s[0] == x then 1 else 0) + Count(x, s[1..])
  }

  /** Concatenation is associative; stated once so that proofs need not re-derive it element by element. */
  lemma AppendAssoc<T>(a: seq<T>, b: seq<T>, c: seq<T>)
    ensures a + (b + c) == (a + b) + c
  {
  }

  lemma {:induction false} CountAppend<T>(x: T, a: seq<T>, b: seq<T>)
    ensures Count(x, a + b) == Count(x, a) + Count(x, b)
  {
    if a == [] {
      assert a + b == b;
    } else {
      assert (a + b)[1..] == a[1..] + b;
      CountAppend(x, a[1..], b);
    }
  }

  lemma {:induction false} CountAbsent<T>(x: T, s: seq<T>)
    requires forall i :: 0 <= i < |s| ==> s[i] != x
    ensures Count(x, s) == 0
    decreases |s|
  {
    if s != [] {
      CountAbsent(x, s[1..]);
    }
  }
}
