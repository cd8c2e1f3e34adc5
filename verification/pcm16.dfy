/**
 * Conversion of one floating-point sample to a signed 16-bit PCM value, as the encoder does
 * it: clamp to [-1, 1], scale by 32768 below zero and by 32767 otherwise, and let
 * `setInt16` convert the scaled value, which truncates toward zero.
 */
module Pcm16 {
  import opened JsMath
  import opened DataView

  const INT16_MIN: int := -0x8000
  const INT16_MAX: int := 0x7FFF

  /** `Math.max(-1, Math.min(1, s))`. */
  function Clamp(s: real): (x: real)
    ensures -1.0 <= x <= 1.0
    ensures -1.0 <= s <= 1.0 ==> x == s
    ensures s >= 1.0 ==> x == 1.0
    ensures s <= -1.0 ==> x == -1.0
  {
    Max(-1.0, Min(1.0, s))
  }

  /** The asymmetric scale applied to a clamped sample before it is stored. */
  function Scale(x: real): (y: real)
    ensures (y < 0.0) == (x < 0.0)
    ensures -1.0 <= x <= 1.0 ==> -32768.0 <= y <= 32767.0
    ensures x == -1.0 ==> y == -32768.0
    ensures x == 1.0 ==> y == 32767.0
  {
    if x < 0.0 then x * 32768.0 else x * 32767.0
  }

  /** The 16-bit value the encoder stores for sample `s`. */
  function Quantize(s: real): (q: int)
    ensures INT16_MIN <= q <= INT16_MAX
    ensures s >= 1.0 ==> q == INT16_MAX
    ensures s <= -1.0 ==> q == INT16_MIN
    ensures s < 0.0 ==> q <= 0
    ensures s >= 0.0 ==> q >= 0
  {
    var scaled := Scale(Clamp(s));
    assert INT16_MIN as real <= scaled <= INT16_MAX as real;
    NoWrapInRange(scaled);
    ToInt16(scaled)
  }

  /** Inside the 16-bit range ToInt16 is plain truncation: the modulo step never wraps. */
  lemma NoWrapInRange(x: real)
    requires INT16_MIN as real <= x <= INT16_MAX as real
    ensures ToInt16(x) == Truncate(x)
  {
    var n := Truncate(x);
    assert INT16_MIN <= n <= INT16_MAX;
    if n < 0 {
      assert n % TWO_16 == n + TWO_16;
    }
  }

  /**
   * Within [-1, 1] the stored value is the scaled sample truncated toward zero: it never
   * exceeds the scaled value in magnitude and is less than one step away from it.
   */
  lemma QuantizeTruncates(s: real)
    requires -1.0 <= s <= 1.0
    ensures var x := if s < 0.0 then s * 32768.0 else s * 32767.0;
            Abs(Quantize(s) as real) <= Abs(x) < Abs(Quantize(s) as real) + 1.0
  {
    var x := Scale(s);
    NoWrapInRange(x);
  }

  /** A larger sample never encodes to a smaller value. */
  lemma QuantizeMonotone(s: real, t: real)
    requires s <= t
    ensures Quantize(s) <= Quantize(t)
  {
    var x, y := Scale(Clamp(s)), Scale(Clamp(t));
    NoWrapInRange(x);
    NoWrapInRange(y);
    assert x <= y;
    if x >= 0.0 {
      assert Floor(x) <= Floor(y);
    } else if y < 0.0 {
      assert Floor(-y) <= Floor(-x);
    }
  }
}
