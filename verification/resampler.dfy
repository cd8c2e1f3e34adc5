/**
 * Linear-interpolation resampling of the first channel of an audio buffer.
 *
 * With `ratio = sourceRate / targetRate`, output sample `i` sits at source position
 * `i * ratio`; with `base` its floor and `frac` its fractional part, the output is
 * `(1 - frac) * input[base] + frac * input[base + 1]`, where a neighbour outside the input
 * contributes nothing (the remaining weight is not renormalised). Rates are integers and
 * every quantity is an exact real number.
 */
module Resampler {
  import opened Wrappers
  import opened JsMath
  import opened Audio

  datatype ResampleError =
    | NoChannelData      // the buffer has no channel 0 to read
    | InvalidSampleRate  // a rate that leaves the ratio or the output length undefined

  /** Source samples per output sample. */
  function Ratio(sourceRate: nat, targetRate: int): (ratio: real)
    requires sourceRate > 0 && targetRate > 0
    ensures ratio > 0.0
    ensures sourceRate == targetRate ==> ratio == 1.0
  {
    sourceRate as real / targetRate as real
  }

  /** `Math.floor(n / ratio)`: the number of output samples. */
  function OutputLength(n: nat, ratio: real): (len: nat)
    requires ratio > 0.0
    ensures len as real <= n as real / ratio < len as real + 1.0
  {
    Floor(n as real / ratio)
  }

  /** Reference value of output sample `i`: two-point linear interpolation at `i * ratio`. */
  function Interpolated(input: seq<real>, ratio: real, i: nat): (v: real)
    ensures Floor(i as real * ratio) >= |input| ==> v == 0.0
    ensures Floor(i as real * ratio) + 1 < 0 ==> v == 0.0
  {
    var pos := i as real * ratio;
    var base := Floor(pos);
    var frac := pos - base as real;
    (if 0 <= base < |input| then (1.0 - frac) * input[base] else 0.0)
    + (if 0 <= base + 1 < |input| then frac * input[base + 1] else 0.0)
  }

  /**
   * The loop's summand for neighbour `j` of position `base + frac`: weight
   * `1 - |j - frac|`, and nothing when the neighbour lies outside the input.
   */
  function Contribution(input: seq<real>, base: int, frac: real, j: int): (v: real)
    ensures !(0 <= base + j < |input|) ==> v == 0.0
    ensures 0.0 <= frac <= 1.0 && j == 0 && 0 <= base < |input| ==> v == (1.0 - frac) * input[base]
    ensures 0.0 <= frac <= 1.0 && j == 1 && 0 <= base + 1 < |input| ==> v == frac * input[base + 1]
  {
    var sourceIndex := base + j;
    if sourceIndex >= 0 && sourceIndex < |input| then (1.0 - Abs(j as real - frac)) * input[sourceIndex]
    else 0.0
  }

  /** For a fractional part in [0, 1), the weights `1 - |j - frac|` are `1 - frac` and `frac`. */
  lemma TentWeights(frac: real)
    requires 0.0 <= frac < 1.0
    ensures 1.0 - Abs(0.0 - frac) == 1.0 - frac
    ensures 1.0 - Abs(1.0 - frac) == frac
    ensures (1.0 - Abs(0.0 - frac)) + (1.0 - Abs(1.0 - frac)) == 1.0
  {
  }

  /**
   * The loop's two summands add up to the reference value: its weights `1 - |j - frac|`
   * are exactly the linear-interpolation weights.
   */
  lemma SourceSumIsInterpolated(input: seq<real>, ratio: real, i: nat)
    ensures var pos := i as real * ratio;
      Contribution(input, Floor(pos), pos - Floor(pos) as real, 0)
      + Contribution(input, Floor(pos), pos - Floor(pos) as real, 1)
      == Interpolated(input, ratio, i)
  {
    var pos := i as real * ratio;
    TentWeights(pos - Floor(pos) as real);
  }

  /** Multiplying by a non-negative weight keeps an inequality. */
  lemma ScaleMonotone(w: real, a: real, b: real)
    requires 0.0 <= w && a <= b
    ensures w * a <= w * b
  {
    assert w * b - w * a == w * (b - a);
  }

  /** A positive factor keeps a strict inequality. */
  lemma ScaleStrict(w: real, a: real, b: real)
    requires 0.0 < w && a < b
    ensures a * w < b * w
  {
    assert b * w - a * w == (b - a) * w;
    assert (b - a) * w > 0.0;
  }

  /** Below a quotient, multiplying back stays below the dividend. */
  lemma BelowQuotient(x: real, n: real, r: real)
    requires r > 0.0 && x < n / r
    ensures x * r < n
  {
    ScaleStrict(r, x, n / r);
    assert n / r * r == n;
  }

  /** A weight in [0, 1] scales a non-negative value `e` down to `d`. */
  lemma ScaleDown(w: real, e: real, d: real)
    requires 0.0 <= w <= 1.0 && 0.0 <= e && d == w * e
    ensures 0.0 <= d <= e
  {
    assert e - d == (1.0 - w) * e;
  }

  /** Linear interpolation between two values in [lo, hi] stays in [lo, hi]. */
  lemma LerpBounds(w: real, a: real, b: real, lo: real, hi: real)
    requires 0.0 <= w <= 1.0
    requires lo <= a <= hi && lo <= b <= hi
    ensures lo <= (1.0 - w) * a + w * b <= hi
  {
    if a <= b {
      var e := b - a;
      var d := w * e;
      ScaleDown(w, e, d);
      assert (1.0 - w) * a + w * b == a + d;
    } else {
      var e := a - b;
      var d := w * e;
      ScaleDown(w, e, d);
      assert (1.0 - w) * a + w * b == a - d;
    }
  }

  /**
   * The resampling loops: allocate `floor(n / ratio)` outputs and fill each with the
   * weighted sum of its two neighbouring inputs.
   */
  method ResampleChannel(inputBuffer: seq<real>, ratio: real) returns (outputBuffer: seq<real>)
    requires ratio > 0.0
    ensures |outputBuffer| == OutputLength(|inputBuffer|, ratio)
    ensures forall i :: 0 <= i < |outputBuffer| ==> outputBuffer[i] == Interpolated(inputBuffer, ratio, i)
  {
    var outputLength := Floor(|inputBuffer| as real / ratio);
    outputBuffer := [];
    var i := 0;
    while i < outputLength
      invariant 0 <= i && (outputLength >= 0 ==> i <= outputLength)
      invariant |outputBuffer| == i
      invariant forall k :: 0 <= k < i ==> outputBuffer[k] == Interpolated(inputBuffer, ratio, k)
    {
      var index := i as real * ratio;
      var leftIndex := Floor(index);
      var frac := index - leftIndex as real;
      var sum := 0.0;
      var j := 0;
      while j < 2
        invariant 0 <= j <= 2
        invariant sum == (if j >= 1 then Contribution(inputBuffer, leftIndex, frac, 0) else 0.0)
                       + (if j >= 2 then Contribution(inputBuffer, leftIndex, frac, 1) else 0.0)
      {
        ghost var before := sum;
        var sourceIndex := leftIndex + j;
        if sourceIndex >= 0 && sourceIndex < |inputBuffer| {
          sum := sum + (1.0 - Abs(j as real - frac)) * inputBuffer[sourceIndex];
        }
        assert sum == before + Contribution(inputBuffer, leftIndex, frac, j);
        j := j + 1;
      }
      SourceSumIsInterpolated(inputBuffer, ratio, i);
      outputBuffer := outputBuffer + [sum];
      i := i + 1;
    }
  }

  /**
   * Resamples channel 0 of `audioBuffer` to `outputSampleRate`. The result is a one-channel
   * buffer at the new rate; the other channels are dropped.
   */
  method ResampleAudio(audioBuffer: AudioBuffer, outputSampleRate: int)
    returns (r: Result<AudioBuffer, ResampleError>)
    ensures |audioBuffer.channels| == 0 <==> r == Failure(NoChannelData)
    ensures r == Failure(InvalidSampleRate)
        <==> |audioBuffer.channels| > 0 && (audioBuffer.sampleRate == 0 || outputSampleRate <= 0)
    ensures r.Success? ==>
      var input := audioBuffer.channels[0];
      var ratio := Ratio(audioBuffer.sampleRate, outputSampleRate);
      && r.value.sampleRate == outputSampleRate
      && |r.value.channels| == 1
      && r.value.length == OutputLength(|input|, ratio)
      && ChannelsAgree(r.value)
      && (forall i :: 0 <= i < r.value.length ==> r.value.channels[0][i] == Interpolated(input, ratio, i))
    ensures r.Success? && outputSampleRate == audioBuffer.sampleRate ==>
      r.value.channels == [audioBuffer.channels[0]]
  {
    if |audioBuffer.channels| == 0 {
      return Failure(NoChannelData);
    }
    if audioBuffer.sampleRate == 0 || outputSampleRate <= 0 {
      return Failure(InvalidSampleRate);
    }
    var ratio := Ratio(audioBuffer.sampleRate, outputSampleRate);
    var inputBuffer := audioBuffer.channels[0];
    var outputBuffer := ResampleChannel(inputBuffer, ratio);
    if outputSampleRate == audioBuffer.sampleRate {
      IdentityAtEqualRates(inputBuffer);
      assert outputBuffer == inputBuffer;
    }
    r := Success(AudioBuffer(outputSampleRate, |outputBuffer|, [outputBuffer]));
  }

  // ---------------------------------------------------------------------------------------
  // Properties of the reference

  /** Casting a product of naturals to a real multiplies the casts. */
  lemma {:induction false} ProductAsReal(a: nat, b: nat)
    ensures (a * b) as real == a as real * b as real
  {
    if a > 0 {
      ProductAsReal(a - 1, b);
      assert a * b == (a - 1) * b + b;
    }
  }

  /** The floor of an integer-valued real is that integer. */
  lemma FloorOfInt(n: int)
    ensures Floor(n as real) == n
  {
    var f := Floor(n as real);
    assert f as real <= n as real < f as real + 1.0;
  }

  /** A proper fraction of a positive number lies in [0, 1). */
  lemma ProperFraction(r: real, b: real)
    requires 0.0 <= r < b
    ensures 0.0 <= r / b < 1.0
  {
    var f := r / b;
    assert f * b == r;
    if f >= 1.0 {
      ScaleMonotone(b, 1.0, f);
      assert false;
    }
    if f < 0.0 {
      ScaleMonotone(b, f, 0.0);
      assert false;
    }
  }

  /** Dividing `q * b + r` by `b` gives `q` plus the fraction `r / b`. */
  lemma DivideSplit(q: real, b: real, r: real)
    requires b > 0.0
    ensures (q * b + r) / b == q + r / b
  {
    assert (q + r / b) * b == q * b + r;
  }

  /** An integer plus a proper fraction has that integer as its floor. */
  lemma FloorOfIntPlusFraction(q: int, f: real)
    requires 0.0 <= f < 1.0
    ensures Floor(q as real + f) == q
  {
    var fl := Floor(q as real + f);
    assert fl as real <= q as real + f < fl as real + 1.0;
    assert fl as real < q as real + 1.0 && q as real < fl as real + 1.0;
  }

  /** Floor of an exact quotient of naturals is integer division. */
  lemma FloorOfQuotient(a: nat, b: nat)
    requires b > 0
    ensures Floor(a as real / b as real) == a / b
  {
    var q, r := a / b, a % b;
    var x, y := a as real, b as real;
    assert 0 <= r < b && x == q as real * y + r as real by {
      assert a == q * b + r;
      ProductAsReal(q, b);
    }
    assert x / y == q as real + r as real / y by {
      DivideSplit(q as real, y, r as real);
    }
    ProperFraction(r as real, y);
    FloorOfIntPlusFraction(q, r as real / y);
  }

  /** Dividing by `s / t` is multiplying by `t` and dividing by `s`. */
  lemma DivideByRatio(n: real, s: real, t: real)
    requires s > 0.0 && t > 0.0
    ensures n / (s / t) == n * t / s
  {
    var q := n * t / s;
    assert q * s == n * t;
    assert q * (s / t) == n;
  }

  /** The output length is `n * targetRate / sourceRate` in integer arithmetic. */
  lemma OutputLengthExact(n: nat, sourceRate: nat, targetRate: nat)
    requires sourceRate > 0 && targetRate > 0
    ensures OutputLength(n, Ratio(sourceRate, targetRate)) == n * targetRate / sourceRate
  {
    DivideByRatio(n as real, sourceRate as real, targetRate as real);
    ProductAsReal(n, targetRate);
    FloorOfQuotient(n * targetRate, sourceRate);
  }

  /** An empty input resamples to an empty output. */
  lemma EmptyInputEmptyOutput(ratio: real)
    requires ratio > 0.0
    ensures OutputLength(0, ratio) == 0
  {
  }

  /**
   * Every output sample reads its left neighbour from inside the input: `base` lies in
   * [0, n) and `frac` in [0, 1). Only the right neighbour can fall off the end.
   */
  lemma NeighboursInRange(n: nat, ratio: real, i: nat)
    requires ratio > 0.0 && i < OutputLength(n, ratio)
    ensures 0 <= Floor(i as real * ratio) < n
    ensures 0.0 <= i as real * ratio - Floor(i as real * ratio) as real < 1.0
  {
    var pos := i as real * ratio;
    assert i as real + 1.0 <= n as real / ratio;
    BelowQuotient(i as real, n as real, ratio);
    var base := Floor(pos);
    assert base as real <= pos < base as real + 1.0;
    assert 0.0 <= pos < n as real;
  }

  /**
   * Output sample `i` depends only on the inputs at `floor(i * ratio)` and the index after
   * it: two inputs of the same length that agree there give the same output.
   */
  lemma ReadsOnlyNeighbours(x: seq<real>, y: seq<real>, ratio: real, i: nat)
    requires |x| == |y|
    requires var base := Floor(i as real * ratio);
      forall k :: base <= k <= base + 1 && 0 <= k < |x| ==> x[k] == y[k]
    ensures Interpolated(x, ratio, i) == Interpolated(y, ratio, i)
  {
    var base := Floor(i as real * ratio);
    if 0 <= base < |x| {
      assert x[base] == y[base];
    }
    if 0 <= base + 1 < |x| {
      assert x[base + 1] == y[base + 1];
    }
  }

  /**
   * When both neighbours are in range the output is a convex combination of them: weights
   * `1 - frac` and `frac` summing to one, so it lies between the two neighbours.
   */
  lemma ConvexWhenInRange(input: seq<real>, ratio: real, i: nat)
    requires ratio > 0.0
    requires 0 <= Floor(i as real * ratio) && Floor(i as real * ratio) + 1 < |input|
    ensures var base := Floor(i as real * ratio);
      var frac := i as real * ratio - base as real;
      && 0.0 <= frac < 1.0
      && Interpolated(input, ratio, i) == (1.0 - frac) * input[base] + frac * input[base + 1]
      && Min(input[base], input[base + 1]) <= Interpolated(input, ratio, i) <= Max(input[base], input[base + 1])
  {
    var base := Floor(i as real * ratio);
    var frac := i as real * ratio - base as real;
    var lo, hi := Min(input[base], input[base + 1]), Max(input[base], input[base + 1]);
    var v := Interpolated(input, ratio, i);
    assert v == (1.0 - frac) * input[base] + frac * input[base + 1];
    LerpBounds(frac, input[base], input[base + 1], lo, hi);
    assert lo <= v <= hi;
  }

  /**
   * At the end of the input the missing right neighbour is dropped, not compensated: the
   * output is the last input scaled by `1 - frac`.
   */
  lemma EdgeNotRenormalised(input: seq<real>, ratio: real, i: nat)
    requires ratio > 0.0
    requires Floor(i as real * ratio) == |input| - 1
    ensures Interpolated(input, ratio, i)
         == (1.0 - (i as real * ratio - (|input| - 1) as real)) * input[|input| - 1]
  {
  }

  /** If every input lies in [-m, m], so does every output. */
  lemma BoundPreserved(input: seq<real>, ratio: real, i: nat, m: real)
    requires ratio > 0.0
    requires forall k :: 0 <= k < |input| ==> -m <= input[k] <= m
    requires i < OutputLength(|input|, ratio)
    ensures -m <= Interpolated(input, ratio, i) <= m
  {
    NeighboursInRange(|input|, ratio, i);
    var base := Floor(i as real * ratio);
    var frac := i as real * ratio - base as real;
    assert -m <= input[base] <= m;
    if base + 1 < |input| {
      LerpBounds(frac, input[base], input[base + 1], -m, m);
    } else {
      LerpBounds(frac, input[base], 0.0, -m, m);
    }
  }

  /** At equal rates the output has the input's length and every sample is copied unchanged. */
  lemma IdentityAtEqualRates(input: seq<real>)
    ensures OutputLength(|input|, 1.0) == |input|
    ensures forall i :: 0 <= i < |input| ==> Interpolated(input, 1.0, i) == input[i]
  {
    forall i | 0 <= i < |input|
      ensures Interpolated(input, 1.0, i) == input[i]
    {
      AtWholePosition(input, 1.0, i, i);
    }
  }

  /**
   * Downsampling by a whole factor `k` keeps every `k`-th input: the fractional part is
   * always zero.
   */
  lemma Decimation(input: seq<real>, k: nat, i: nat)
    requires k > 0 && i * k < |input|
    ensures Interpolated(input, k as real, i) == input[i * k]
  {
    ProductAsReal(i, k);
    AtWholePosition(input, k as real, i, i * k);
  }

  /** An output sample that falls exactly on input `base` copies it. */
  lemma AtWholePosition(input: seq<real>, ratio: real, i: nat, base: nat)
    requires i as real * ratio == base as real && base < |input|
    ensures Interpolated(input, ratio, i) == input[base]
  {
    FloorOfInt(base);
    var pos := i as real * ratio;
    assert Floor(pos) == base;
    var frac := pos - base as real;
    assert frac == 0.0;
    assert (1.0 - frac) * input[base] == input[base];
  }
}
