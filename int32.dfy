/**
 * NumPy's 32-bit signed integers, as the demo uses them: `astype(np.int32)`
 * on the detector's floating-point coordinates, and `int32 + 12` for the
 * score label's baseline.
 */
module Int32 {

  const Min: int := -0x8000_0000
  const Max: int := 0x7FFF_FFFF
  const Modulus: int := 0x1_0000_0000

  predicate InRange(x: int) {
    Min <= x <= Max
  }

  /** Two's-complement wrap-around of an int32 sum. */
  function Wrap(x: int): (r: int)
    ensures InRange(r)
  {
    (x - Min) % Modulus + Min
  }

  /** Conversion of a real to an integer by dropping its fraction. */
  function TruncTowardZero(x: real): int {
    if 0.0 <= x then x.Floor else -((-x).Floor)
  }

  /** The reals whose truncation fits an int32. */
  predicate Representable(x: real) {
    Min as real - 1.0 < x < Max as real + 1.0
  }

  /**
   * `astype(np.int32)` of one value: truncation toward zero when the result
   * fits; otherwise the platform's "integer indefinite" value, which is
   * INT32_MIN on x86.
   */
  function CastInt32(x: real): (r: int)
    ensures InRange(r)
  {
    if Representable(x) then TruncTowardZero(x) else Min
  }

  /**
   * Wrap gives an int32 that is congruent to its argument modulo 2^32, and
   * leaves an int32 alone.
   */
  lemma WrapIsTwosComplement(x: int)
    ensures InRange(Wrap(x))
    ensures (x - Wrap(x)) % Modulus == 0
    ensures InRange(x) ==> Wrap(x) == x
  {
    var m := (x - Min) % Modulus;
    assert x - (m + Min) == Modulus * ((x - Min) / Modulus);
  }

  /** TruncTowardZero rounds toward zero: down for non-negative values, up for negative ones. */
  lemma TruncRoundsTowardZero(x: real)
    ensures 0.0 <= x ==> TruncTowardZero(x) as real <= x < TruncTowardZero(x) as real + 1.0
    ensures x < 0.0 ==> TruncTowardZero(x) as real - 1.0 < x <= TruncTowardZero(x) as real
  {
  }

  /**
   * The cast always yields an int32; it truncates toward zero whenever the
   * truncation fits, and yields INT32_MIN otherwise.
   */
  lemma CastInt32Truncates(x: real)
    ensures InRange(CastInt32(x))
    ensures Representable(x) && 0.0 <= x ==> CastInt32(x) as real <= x < CastInt32(x) as real + 1.0
    ensures Representable(x) && x < 0.0 ==> CastInt32(x) as real - 1.0 < x <= CastInt32(x) as real
    ensures !Representable(x) ==> CastInt32(x) == Min
  {
    TruncRoundsTowardZero(x);
  }

  /** Truncation is symmetric about zero. */
  lemma TruncOdd(x: real)
    ensures TruncTowardZero(-x) == -TruncTowardZero(x)
  {
  }

  /** Truncation and floor differ on negative non-integers. */
  lemma TruncIsNotFloor()
    ensures TruncTowardZero(-0.5) == 0 && (-0.5).Floor == -1
    ensures TruncTowardZero(-2.7) == -2 && (-2.7).Floor == -3
  {
  }
}
