/** The bits of Java value semantics the rest of the model depends on:
    32-bit `int` arithmetic with wrap-around, integer division that
    truncates toward zero, nullable references, and statements that may
    complete abruptly with an exception. */
module JavaLang {

  /** The values of a Java `int`. */
  type Int32 = x: int | -0x8000_0000 <= x < 0x8000_0000

  predicate InInt32(x: int) {
    -0x8000_0000 <= x < 0x8000_0000
  }

  /** Two's-complement wrap-around of an exact result into an `int`,
      as every Java `int` addition, subtraction and multiplication does. */
  function Wrap(x: int): (r: Int32)
    ensures InInt32(x) ==> r == x
    ensures (x - r) % 0x1_0000_0000 == 0
  {
    (x + 0x8000_0000) % 0x1_0000_0000 - 0x8000_0000
  }

  /** Adding a wrapped offset and taking it away again gives the offset back,
      however far the intermediate sum overflowed. */
  lemma WrapAddSub(base: Int32, d: Int32)
    ensures Wrap(Wrap(base + d) - base) == d
  {
  }

  /** Java `a / 2`: the quotient rounded toward zero, unlike Dafny's `/`. */
  function JavaHalf(a: int): (r: int)
    ensures a >= 0 ==> 0 <= a - 2 * r <= 1
    ensures a < 0 ==> -1 <= a - 2 * r <= 0
  {
    if a >= 0 then a / 2 else -((-a) / 2)
  }

  /** A reference that may be null. */
  datatype Nullable<+T> = Null | Ref(value: T)

  /** The exceptions the modelled code can raise. */
  datatype Exception = ArrayIndexOutOfBounds

  /** How a Java call completes: normally with a value, or by throwing. */
  datatype Completion<+T> = Normal(value: T) | Throws(exception: Exception)
}
