/**
 * Java's fixed-width integer types and the integer operators of the source
 * whose meaning differs from Dafny's unbounded, Euclidean arithmetic.
 */
module JavaTypes {

  const Int32Min: int := -0x8000_0000
  const Int32Max: int := 0x7FFF_FFFF
  const Int64Min: int := -0x8000_0000_0000_0000
  const Int64Max: int := 0x7FFF_FFFF_FFFF_FFFF

  /** A Java `int`. */
  type int32 = x: int | Int32Min <= x <= Int32Max

  /** A Java `long`. */
  type int64 = x: int | Int64Min <= x <= Int64Max

  /** The `int` a 32-bit Java addition or multiplication yields: the exact result, wrapped. */
  function Wrap32(x: int): (r: int32)
    ensures (r - x) % 0x1_0000_0000 == 0
    ensures Int32Min <= x <= Int32Max ==> r == x
  {
    var u := x % 0x1_0000_0000;
    if u <= Int32Max then u else u - 0x1_0000_0000
  }

  /** The `long` a 64-bit Java operation yields, and the `(int)` cast of a `long`. */
  function Wrap64(x: int): (r: int64)
    ensures (r - x) % 0x1_0000_0000_0000_0000 == 0
    ensures Int64Min <= x <= Int64Max ==> r == x
  {
    var u := x % 0x1_0000_0000_0000_0000;
    if u <= Int64Max then u else u - 0x1_0000_0000_0000_0000
  }

  /** Java's `/` on integers: the quotient truncated toward zero. */
  function TruncDiv(a: int, b: int): (q: int)
    requires b != 0
    ensures a >= 0 && b > 0 ==> q == a / b
    ensures q * b <= a || a < 0 || b < 0
  {
    var m := (if a < 0 then -a else a) / (if b < 0 then -b else b);
    if (a < 0) == (b < 0) then m else -m
  }

  /** `Math.floorDiv`: the quotient rounded toward negative infinity. */
  function FloorDiv(a: int, b: int): (q: int)
    requires b != 0
    ensures b > 0 ==> q * b <= a < (q + 1) * b
    ensures b < 0 ==> q * b >= a > (q + 1) * b
  {
    if b > 0 then a / b else (-a) / (-b)
  }

  datatype Option<T> = None | Some(value: T)

  /** The exceptions of the source that the model makes explicit. */
  datatype JavaException =
    | NullPointer                 // NullPointerException
    | IndexOutOfBounds            // ArrayIndexOutOfBoundsException, IndexOutOfBoundsException
    | Arithmetic                  // ArithmeticException: integer division by zero
    | NegativeArraySize           // NegativeArraySizeException
    | EndOfFile                   // EOFException from a DataInput read past the end
    | InputOutput                 // IOException, such as a negative seek offset
    | NumberFormat                // NumberFormatException from Integer.valueOf on text that is not an int
    | AttemptsExhausted           // no exception: the model's bound on an unbounded retry loop

  /** The outcome of an operation that completes normally or throws. */
  datatype Result<T> = Success(value: T) | Failure(error: JavaException)
}
