/**
 The head of the sample loop of extractFeatures: the interleaved data is
 walked `numChans` entries at a time and every frame is reduced to one raw
 mono value before normalisation.
 */
module Mixdown {
  import opened Wrappers
  import opened GoInt

  /**
   What the walk over the interleaved data yields: the finite list of
   mono values, an out-of-range read of the second channel (a panic), or,
   with zero channels, an index that never advances past `value`.
   */
  datatype Frames = Finite(values: seq<int>) | Malformed | Endless(value: int)

  /** Go's `(a + b) / 2` on `int`: the sum wraps at 64 bits, the halving truncates toward zero. */
  function Average(a: int, b: int): (r: int)
    ensures 0 <= Int64(a + b) ==> 0 <= Int64(a + b) - 2 * r <= 1
    ensures Int64(a + b) < 0 ==> -1 <= Int64(a + b) - 2 * r <= 0
    ensures -Half32 <= a < Half32 && -Half32 <= b < Half32 && a <= b ==> a <= r <= b
  {
    Quot(Int64(a + b), 2)
  }

  /** One frame starting at `i`: stereo pairs are averaged with Go's `int` `+` and truncating `/ 2`. */
  function MixFrame(data: seq<int>, numChans: nat, i: nat): (r: int)
    requires 1 <= numChans <= 2 && i + numChans <= |data|
    ensures numChans == 1 ==> r == data[i]
    ensures numChans == 2 && -Half32 <= data[i] < Half32 && -Half32 <= data[i + 1] < Half32 ==>
      (data[i] <= r <= data[i + 1] || data[i + 1] <= r <= data[i])
  {
    if numChans == 2 then Average(data[i], data[i + 1]) else data[i]
  }

  /** Where frame `k` starts in the interleaved data. */
  function Offset(k: nat, numChans: nat): nat {
    if numChans == 2 then 2 * k else k
  }

  /** `values` are the frames of `data` read from position `i` on. */
  predicate FramesFrom(data: seq<int>, numChans: nat, i: nat, values: seq<int>)
    requires 1 <= numChans <= 2
  {
    forall k :: 0 <= k < |values| ==>
      i + Offset(k, numChans) + numChans <= |data| && values[k] == MixFrame(data, numChans, i + Offset(k, numChans))
  }

  /** The loop `for i := start; i < len(data); i += numChans`, reading frame by frame. */
  function MixFrom(data: seq<int>, numChans: nat, i: nat): (r: Option<seq<int>>)
    requires 1 <= numChans <= 2 && i <= |data|
    ensures r.Some? <==> numChans == 1 || (|data| - i) % 2 == 0
    ensures r.Some? ==> Offset(|r.value|, numChans) == |data| - i
    decreases |data| - i
  {
    if i == |data| then Some([])
    else if numChans == 2 && i + 1 == |data| then None
    else
      match MixFrom(data, numChans, i + numChans)
      case None => None
      case Some(rest) => Some([MixFrame(data, numChans, i)] + rest)
  }

  /** The `k`-th value the walk produces is the frame at offset `k`. */
  lemma {:induction false} MixFromAt(data: seq<int>, numChans: nat, i: nat, k: nat)
    requires 1 <= numChans <= 2 && i <= |data|
    requires MixFrom(data, numChans, i).Some? && k < |MixFrom(data, numChans, i).value|
    ensures i + Offset(k, numChans) + numChans <= |data|
    ensures MixFrom(data, numChans, i).value[k] == MixFrame(data, numChans, i + Offset(k, numChans))
    decreases k
  {
    if k > 0 {
      MixFromAt(data, numChans, i + numChans, k - 1);
      assert i + Offset(k, numChans) == i + numChans + Offset(k - 1, numChans);
    }
  }

  /** Each value the walk produces is the frame at the matching offset. */
  lemma MixFromReadsFrames(data: seq<int>, numChans: nat, i: nat)
    requires 1 <= numChans <= 2 && i <= |data|
    requires MixFrom(data, numChans, i).Some?
    ensures FramesFrom(data, numChans, i, MixFrom(data, numChans, i).value)
  {
    forall k | 0 <= k < |MixFrom(data, numChans, i).value|
      ensures i + Offset(k, numChans) + numChans <= |data|
      ensures MixFrom(data, numChans, i).value[k] == MixFrame(data, numChans, i + Offset(k, numChans))
    {
      MixFromAt(data, numChans, i, k);
    }
  }

  /** The frames of a stream with `numChans <= 2` channels (more channels are rejected earlier). */
  function MixFrames(data: seq<int>, numChans: nat): (r: Frames)
    requires numChans <= 2
    ensures r.Endless? <==> numChans == 0 && |data| > 0
    ensures r.Malformed? <==> numChans == 2 && |data| % 2 == 1
    ensures r.Finite? ==> Offset(|r.values|, numChans) == |data|
  {
    if numChans == 0 then
      if |data| == 0 then Finite([]) else Endless(data[0])
    else
      match MixFrom(data, numChans, 0)
      case None => Malformed
      case Some(values) => Finite(values)
  }

  /** One channel passes through unchanged. */
  lemma MonoPassesThrough(data: seq<int>)
    ensures MixFrames(data, 1) == Finite(data)
  {
    MixFromReadsFrames(data, 1, 0);
    var r := MixFrom(data, 1, 0);
    assert r.value == data;
  }

  /** Two channels: frame k is the truncated average of entries 2k and 2k+1. */
  lemma StereoAverages(data: seq<int>)
    requires |data| % 2 == 0
    ensures MixFrames(data, 2).Finite?
    ensures |MixFrames(data, 2).values| == |data| / 2
    ensures forall k :: 0 <= k < |data| / 2 ==>
      MixFrames(data, 2).values[k] == Quot(Int64(data[2 * k] + data[2 * k + 1]), 2)
  {
    MixFromReadsFrames(data, 2, 0);
  }

  /** Averaging rounds toward zero, not down: the pair (-3, 0) mixes to -1. */
  lemma StereoTruncates()
    ensures MixFrames([-3, 0], 2) == Finite([-1])
    ensures MixFrames([3, 0], 2) == Finite([1])
  {
    assert MixFrom([-3, 0], 2, 2) == Some([]);
    assert MixFrom([3, 0], 2, 2) == Some([]);
  }

  /** A stereo stream whose two channels carry the same 32-bit samples mixes back to those samples. */
  lemma {:induction false} IdenticalChannels(data: seq<int>, mono: seq<int>)
    requires |data| == 2 * |mono|
    requires forall k :: 0 <= k < |mono| ==> data[2 * k] == mono[k] && data[2 * k + 1] == mono[k]
    requires forall k :: 0 <= k < |mono| ==> -Half32 <= mono[k] < Half32
    ensures MixFrames(data, 2) == Finite(mono)
  {
    StereoAverages(data);
    var values := MixFrames(data, 2).values;
    forall k | 0 <= k < |mono|
      ensures values[k] == mono[k]
    {
      assert Int64(mono[k] + mono[k]) == 2 * mono[k];
    }
  }
}
