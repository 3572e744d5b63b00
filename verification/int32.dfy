/**
 C# `int` (System.Int32) and the arithmetic the calculator performs on it.
 The project compiles in C#'s default unchecked context, so `+`, `-` and `*`
 on two ints wrap around modulo 2^32 instead of throwing.
 */
module Int32Math {

  const MinValue: int := -0x8000_0000
  const MaxValue: int := 0x7FFF_FFFF
  /** Number of distinct 32-bit patterns. */
  const Modulus: int := 0x1_0000_0000

  predicate InRange(x: int) {
    MinValue <= x <= MaxValue
  }

  type Int32 = x: int | InRange(x)

  /** The int32 that a mathematical integer wraps to: two's-complement truncation to 32 bits. */
  function Wrap(x: int): (r: Int32)
    ensures (x - r) % Modulus == 0
    ensures InRange(x) ==> r == x
  {
    var m := (x - MinValue) % Modulus;
    assert x - MinValue == Modulus * ((x - MinValue) / Modulus) + m;
    m + MinValue
  }

  /** `r` is what a 32-bit machine holds after computing the exact value `exact`. */
  ghost predicate WrapsTo(exact: int, r: int) {
    InRange(r) && (exact - r) % Modulus == 0
  }

  /** There is only one int32 congruent to a given integer, so `Wrap` is the whole truth about it. */
  lemma WrapUnique(x: int, y: int)
    requires WrapsTo(x, y)
    ensures y == Wrap(x)
  {
    var r := Wrap(x);
    var q1 := (x - y) / Modulus;
    var q2 := (x - r) / Modulus;
    assert x - y == Modulus * q1;
    assert x - r == Modulus * q2;
    assert y - r == Modulus * (q2 - q1);
  }

  /** `a + b` on two C# ints (unchecked). */
  function Add32(a: Int32, b: Int32): (r: Int32)
    ensures InRange(a + b) ==> r == a + b
    ensures a + b > MaxValue ==> r == a + b - Modulus
    ensures a + b < MinValue ==> r == a + b + Modulus
  {
    var r := Wrap(a + b);
    assert InRange(a) && InRange(b) && InRange(r);
    r
  }

  /** `a - b` on two C# ints (unchecked). */
  function Sub32(a: Int32, b: Int32): (r: Int32)
    ensures InRange(a - b) ==> r == a - b
    ensures a - b > MaxValue ==> r == a - b - Modulus
    ensures a - b < MinValue ==> r == a - b + Modulus
  {
    var r := Wrap(a - b);
    assert InRange(a) && InRange(b) && InRange(r);
    r
  }

  /** `a * b` on two C# ints (unchecked): the low 32 bits of the product, read as signed. */
  function Mul32(a: Int32, b: Int32): (r: Int32)
    ensures WrapsTo(a * b, r)
    ensures InRange(a * b) ==> r == a * b
  {
    Wrap(a * b)
  }

  /** Wrapped subtraction undoes wrapped addition, overflow or not. */
  lemma SubUndoesAdd(a: Int32, b: Int32)
    ensures Sub32(Add32(a, b), b) == a
  {
    var s := Add32(a, b);
    assert (a + b - s) % Modulus == 0;
    assert WrapsTo(s - b, a) by {
      assert (s - b - a) == -(a + b - s);
    }
    WrapUnique(s - b, a);
  }

  /** Wrapped addition undoes wrapped subtraction, overflow or not. */
  lemma AddUndoesSub(a: Int32, b: Int32)
    ensures Add32(Sub32(a, b), b) == a
  {
    var d := Sub32(a, b);
    assert (a - b - d) % Modulus == 0;
    assert WrapsTo(d + b, a) by {
      assert (d + b - a) == -(a - b - d);
    }
    WrapUnique(d + b, a);
  }

  /** The boundary cases that show the arithmetic wraps rather than failing. */
  lemma WrapExamples()
    ensures Add32(MaxValue, 1) == MinValue
    ensures Sub32(MinValue, 1) == MaxValue
    ensures Mul32(MinValue, -1) == MinValue
    ensures Mul32(0x1_0000, 0x1_0000) == 0
  {
    WrapUnique(MinValue * -1, MinValue);
    WrapUnique(0x1_0000 * 0x1_0000, 0);
  }

  /**
   C#'s `(int)d` for a double `d` inside the int range: truncation toward zero.
   A `double` is modelled by the real number it holds.
   */
  function TruncateTowardZero(x: real): (r: int)
    ensures 0.0 <= x ==> r as real <= x < r as real + 1.0
    ensures x < 0.0 ==> r as real - 1.0 < x <= r as real
  {
    if 0.0 <= x then x.Floor else -((-x).Floor)
  }

  /**
   C#'s implicit conversion of an int to `double`. A double's 53-bit
   significand holds every int32 exactly, so the real is the int itself.
   */
  function ToDouble(n: Int32): (r: real)
    ensures r == r.Floor as real && r.Floor == n
  {
    n as real
  }

  /** Converting an int32 to double and truncating it back gives the same int. */
  lemma IntegralRoundTrip(n: Int32)
    ensures TruncateTowardZero(ToDouble(n)) == n
  {
  }
}
