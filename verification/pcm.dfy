/**
 PCM normalisation: mapping a raw integer sample to a real in [-1, 1]
 according to the file's bit depth. Go computes in float32; this model
 computes the same formula over exact reals.
 */
module Pcm {
  import opened GoInt

  const Int16Min: int := -32768
  const Int16Max: int := 32767
  const Int24Min: int := -8388608
  const Int24Max: int := 8388607
  const Int32Min: int := -2147483648
  const Int32Max: int := 2147483647

  /** Linear map of `val` sending `min` to -1 and `max` to 1. */
  function Normalize(val: int, min: int, max: int): (r: real)
    requires min != max
    ensures val == min ==> r == -1.0
    ensures val == max ==> r == 1.0
    ensures min < max ==> (-1.0 <= r <= 1.0 <==> min <= val <= max)
  {
    var span := (max - min) as real;
    var frac := (val - min) as real / span;
    assert frac * span == (val - min) as real;
    frac * 2.0 - 1.0
  }

  /** Normalize keeps the order of samples. */
  lemma NormalizeMonotone(v1: int, v2: int, min: int, max: int)
    requires min < max && v1 <= v2
    ensures Normalize(v1, min, max) <= Normalize(v2, min, max)
  {
    var span := (max - min) as real;
    var f1 := (v1 - min) as real / span;
    var f2 := (v2 - min) as real / span;
    assert f1 * span == (v1 - min) as real;
    assert f2 * span == (v2 - min) as real;
    assert (f2 - f1) * span >= 0.0;
  }

  /** The one unit test of the repository: the value is -0.2, well below its 0.2 bound. */
  lemma NormalizeTestValue()
    ensures Normalize(-2, -10, 10) == -0.2
    ensures 0.2 - Normalize(-2, -10, 10) >= 0.0
  {
  }

  /** Dispatch on bit depth: wrap to the Go integer type, then normalise over its full range. */
  function GetNormalizedPcm(bitDepth: int, pcm: int): (r: real)
    ensures bitDepth != 16 && bitDepth != 24 && bitDepth != 32 ==> r == 0.0
    ensures bitDepth == 16 || bitDepth == 32 ==> -1.0 <= r <= 1.0
    ensures bitDepth == 24 ==> (-1.0 <= r <= 1.0 <==> Int24Min <= Int32(pcm) <= Int24Max)
  {
    if bitDepth == 16 then
      Normalize(Int16(pcm), Int16Min, Int16Max)
    else if bitDepth == 24 then
      Normalize(Int32(pcm), Int24Min, Int24Max)
    else if bitDepth == 32 then
      Normalize(Int32(pcm), Int32Min, Int32Max)
    else
      0.0
  }

  /** The extremes of each supported range land exactly on -1 and 1. */
  lemma Endpoints()
    ensures GetNormalizedPcm(16, Int16Min) == -1.0 && GetNormalizedPcm(16, Int16Max) == 1.0
    ensures GetNormalizedPcm(24, Int24Min) == -1.0 && GetNormalizedPcm(24, Int24Max) == 1.0
    ensures GetNormalizedPcm(32, Int32Min) == -1.0 && GetNormalizedPcm(32, Int32Max) == 1.0
  {
  }

  /** Silence is not mapped to 0: the range is one step longer below zero than above. */
  lemma ZeroIsBiased()
    ensures GetNormalizedPcm(16, 0) == 1.0 / 65535.0
    ensures GetNormalizedPcm(16, 0) > 0.0
  {
  }

  /** A 16-bit sample only depends on its low 16 bits. */
  lemma Pcm16Periodic(pcm: int, k: int)
    ensures GetNormalizedPcm(16, pcm + k * 0x1_0000) == GetNormalizedPcm(16, pcm)
  {
    Int16Periodic(pcm, k);
  }

  /** 24-bit data is wrapped to 32 bits only, so a value past 2^23 maps above 1. */
  lemma Pcm24OutOfRange()
    ensures GetNormalizedPcm(24, 8388608) > 1.0
    ensures GetNormalizedPcm(24, -8388609) < -1.0
  {
  }

  /** Within the depth's range the wrap is invisible and the mapping is order preserving. */
  lemma InRangeMonotone(bitDepth: int, a: int, b: int)
    requires bitDepth == 16 ==> Int16Min <= a <= b <= Int16Max
    requires bitDepth == 24 || bitDepth == 32 ==> Int32Min <= a <= b <= Int32Max
    requires a <= b
    ensures GetNormalizedPcm(bitDepth, a) <= GetNormalizedPcm(bitDepth, b)
  {
    if bitDepth == 16 {
      NormalizeMonotone(a, b, Int16Min, Int16Max);
    } else if bitDepth == 24 {
      NormalizeMonotone(a, b, Int24Min, Int24Max);
    } else if bitDepth == 32 {
      NormalizeMonotone(a, b, Int32Min, Int32Max);
    }
  }
}
