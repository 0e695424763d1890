/** Small datatypes shared by the other modules. */
module Common {

  datatype Option<T> = None | Some(value: T)

  /** The outcome of an operation that either yields a value or raises the
      named exception. */
  datatype Outcome<T> = Done(value: T) | Throws(exception: string)

  /** The platform's unsigned 16-bit integer, `ushort`. */
  type UShort = x: int | 0 <= x < 0x1_0000

  /** The platform's signed 16-bit integer, `short`. */
  type Short = x: int | -0x8000 <= x < 0x8000

  /** The platform's signed 32-bit integer, `int`. */
  type Int32 = x: int | -0x8000_0000 <= x < 0x8000_0000

  /** No element occurs twice. */
  predicate Distinct<T(==)>(s: seq<T>)
  {
    forall i, j | 0 <= i < j < |s| :: s[i] != s[j]
  }

  function Min(a: int, b: int): (m: int)
    ensures m <= a && m <= b && (m == a || m == b)
  {
    if a <= b then a else b
  }

  function Max(a: int, b: int): (m: int)
    ensures m >= a && m >= b && (m == a || m == b)
  {
    if a >= b then a else b
  }
}
