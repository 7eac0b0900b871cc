/**
 * The pieces of the .NET runtime the model leans on: 32-bit integers with
 * unchecked (wrap-around) arithmetic, the exceptions the core throws, and
 * result types that stand in for "returns normally or throws".
 */
module Runtime {

  const MinInt32: int := -0x8000_0000
  const MaxInt32: int := 0x7FFF_FFFF

  /** The C# `int`. */
  newtype int32 = x: int | -0x8000_0000 <= x < 0x8000_0000

  predicate InInt32(x: int) {
    MinInt32 <= x <= MaxInt32
  }

  /** What an unchecked C# `int` operation stores when the exact result is `x`. */
  function Wrap32(x: int): (r: int32)
    ensures InInt32(x) ==> r as int == x
    ensures x > MaxInt32 && x <= 2 * MaxInt32 + 1 ==> r as int == x - 0x1_0000_0000
  {
    ((x + 0x8000_0000) % 0x1_0000_0000 - 0x8000_0000) as int32
  }

  /** Wrapping an intermediate result does not change the wrapped final result. */
  lemma WrapThenSubtract(a: int, b: int)
    ensures Wrap32(Wrap32(a) as int - b) == Wrap32(a - b)
  {
    var k := (a + 0x8000_0000) / 0x1_0000_0000;
    assert Wrap32(a) as int == a - k * 0x1_0000_0000;
    ModShift(a - b + 0x8000_0000, -k);
  }

  /** Adding a multiple of 2^32 does not change a remainder modulo 2^32. */
  lemma ModShift(x: int, k: int)
    ensures (x + k * 0x1_0000_0000) % 0x1_0000_0000 == x % 0x1_0000_0000
  {
    var q := x / 0x1_0000_0000;
    var r := x % 0x1_0000_0000;
    assert x + k * 0x1_0000_0000 == (q + k) * 0x1_0000_0000 + r;
  }

  datatype Option<T> = None | Some(value: T)

  /** The exceptions thrown by the modelled code, and any other exception as `OtherException`. */
  datatype Exception =
    | ArgumentException(message: string)
    | ArgumentNullException(paramName: string)
    | OtherException(message: string)
  {
    /** `catch (ArgumentException)` also catches `ArgumentNullException`, its subclass. */
    predicate IsArgumentError() {
      ArgumentException? || ArgumentNullException?
    }

    /** The exception's `Message` property. */
    function Message(): string {
      match this
      case ArgumentException(m) => m
      case ArgumentNullException(p) => "Value cannot be null. (Parameter '" + p + "')"
      case OtherException(m) => m
    }
  }

  /** A call that returns a value or throws. */
  datatype Result<T> = Ok(value: T) | Err(error: Exception)

  /** A `void` call that returns normally or throws. */
  datatype Outcome = Pass | Fail(error: Exception)
}
