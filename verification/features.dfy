/**
 extractFeatures: the decoded stream goes through channel mixdown,
 normalisation and the chunking loop, and every emitted chunk adds one
 pitch entry and one RMS entry to the statistics.
 */
module Features {
  import opened GoInt
  import opened Pcm
  import opened Mixdown
  import opened Chunker

  /**
   What the decoder hands over: the duration in nanoseconds, the format,
   the interleaved integer samples, and whether reading them failed
   (the error of FullPCMBuffer, or else the decoder's Err()).
   */
  datatype Decoded = Decoded(
    durationNs: int,
    sampleRate: int,
    numChans: nat,
    bitDepth: int,
    data: seq<int>,
    readFailed: bool)

  /** One file's statistics: the formatted pitch and RMS of every chunk, and the length in milliseconds. */
  datatype WavStats = WavStats(averagePitch: seq<string>, length: int, rms: seq<string>)

  datatype ExtractError = TooManyChans | DecodeError

  /** A run of extractFeatures returns statistics or an error; it may also panic or never return. */
  datatype Extraction = Extracted(stats: WavStats) | Failed(error: ExtractError) | Panicked | Diverges

  /** findMainFrequency followed by `%f`: a chunk, the buffer length and the sample rate to a text. */
  type PitchText = (seq<real>, int, int) -> string

  /** rootMeanSquare followed by `%f`. */
  type RmsText = seq<real> -> string

  function NormalizeFrames(frames: seq<int>, bitDepth: int): (r: seq<real>)
    ensures |r| == |frames|
  {
    seq(|frames|, k requires 0 <= k < |frames| => GetNormalizedPcm(bitDepth, frames[k]))
  }

  /** The appends made for the emitted chunks, in order: both lists grow together. */
  function Describe(chunks: seq<seq<real>>, L: int, sampleRate: int, pitchOf: PitchText, rmsOf: RmsText,
                    lengthMs: int): (s: WavStats)
    ensures s.length == lengthMs
    ensures |s.averagePitch| == |s.rms| == |chunks|
    ensures forall k :: 0 <= k < |chunks| ==>
      s.averagePitch[k] == pitchOf(chunks[k], L, sampleRate) && s.rms[k] == rmsOf(chunks[k])
  {
    if chunks == [] then WavStats([], lengthMs, [])
    else
      var prev := Describe(chunks[..|chunks| - 1], L, sampleRate, pitchOf, rmsOf, lengthMs);
      var last := chunks[|chunks| - 1];
      WavStats(prev.averagePitch + [pitchOf(last, L, sampleRate)], lengthMs, prev.rms + [rmsOf(last)])
  }

  /**
   extractFeatures with buffer length `L` (chunkBufferLength). The buffer
   is allocated before the channel check, so a negative `L` panics first.
   */
  function ExtractFeatures(d: Decoded, L: int, pitchOf: PitchText, rmsOf: RmsText): (r: Extraction)
    ensures L < 0 ==> r == Panicked
    ensures r == Failed(TooManyChans) <==> L >= 0 && d.numChans > 2
    ensures r == Diverges <==> L >= 2 && d.numChans == 0 && |d.data| > 0
    ensures r == Failed(DecodeError) ==> d.readFailed
    ensures r.Extracted? ==> !d.readFailed
    ensures r.Extracted? ==> |r.stats.averagePitch| == |r.stats.rms|
    ensures r.Extracted? ==> r.stats.length == Milliseconds(d.durationNs)
  {
    if L < 0 then Panicked
    else if d.numChans > 2 then Failed(TooManyChans)
    else
      match MixFrames(d.data, d.numChans)
      case Malformed => Panicked
      case Endless(_) => if L >= 2 then Diverges else Panicked
      case Finite(frames) =>
        match ChunkLoop(NormalizeFrames(frames, d.bitDepth), L)
        case IndexPanic => Panicked
        case Completed(chunks) =>
          if d.readFailed then Failed(DecodeError)
          else Extracted(Describe(chunks, L, d.sampleRate, pitchOf, rmsOf, Milliseconds(d.durationNs)))
  }

  /** A well-formed mono or stereo stream with L >= 2 yields one entry per chunk of the closed form. */
  lemma ExtractCountsChunks(d: Decoded, L: int, pitchOf: PitchText, rmsOf: RmsText)
    requires L >= 2 && 1 <= d.numChans <= 2
    requires d.numChans == 2 ==> |d.data| % 2 == 0
    ensures d.readFailed ==> ExtractFeatures(d, L, pitchOf, rmsOf) == Failed(DecodeError)
    ensures !d.readFailed ==> ExtractFeatures(d, L, pitchOf, rmsOf).Extracted?
    ensures !d.readFailed ==>
      |ExtractFeatures(d, L, pitchOf, rmsOf).stats.averagePitch| == ChunkCount(|d.data| / d.numChans, L)
  {
    var mixed := MixFrames(d.data, d.numChans);
    if d.numChans == 1 {
      MonoPassesThrough(d.data);
    }
    assert mixed.Finite? && |mixed.values| == |d.data| / d.numChans;
    ChunkLoopClosedForm(NormalizeFrames(mixed.values, d.bitDepth), L);
  }

  /** A stereo file gives the same result as the mono file holding its mixed-down samples. */
  lemma StereoMatchesMono(d: Decoded, L: int, pitchOf: PitchText, rmsOf: RmsText)
    requires d.numChans == 2 && |d.data| % 2 == 0
    ensures MixFrames(d.data, 2).Finite?
    ensures ExtractFeatures(d, L, pitchOf, rmsOf)
         == ExtractFeatures(d.(numChans := 1, data := MixFrames(d.data, 2).values), L, pitchOf, rmsOf)
  {
    MonoPassesThrough(MixFrames(d.data, 2).values);
  }

  /**
   An unsupported bit depth is not rejected: every sample normalises to 0,
   so every chunk handed to the estimators is all zeros.
   */
  lemma UnsupportedDepthIsSilence(d: Decoded, L: int, pitchOf: PitchText, rmsOf: RmsText)
    requires L >= 2 && d.numChans == 1 && !d.readFailed
    requires d.bitDepth != 16 && d.bitDepth != 24 && d.bitDepth != 32
    ensures ExtractFeatures(d, L, pitchOf, rmsOf).Extracted?
    ensures forall k :: 0 <= k < |ExtractFeatures(d, L, pitchOf, rmsOf).stats.rms| ==>
      ExtractFeatures(d, L, pitchOf, rmsOf).stats.rms[k] == rmsOf(Zeros(L))
      && ExtractFeatures(d, L, pitchOf, rmsOf).stats.averagePitch[k] == pitchOf(Zeros(L), L, d.sampleRate)
  {
    MonoPassesThrough(d.data);
    var frames := NormalizeFrames(d.data, d.bitDepth);
    assert frames == Zeros(|d.data|);
    ChunkLoopClosedForm(frames, L);
    var chunks := ChunkLoop(frames, L).chunks;
    forall k | 0 <= k < |chunks|
      ensures chunks[k] == Zeros(L)
    {
      if k == 0 {
        FirstChunk(frames, L);
      } else {
        LaterChunk(frames, L, k);
      }
    }
  }

  /**
   With no channels the index never advances and frame 0 is fed forever:
   for L >= 2 every finite number of rounds runs without fault (the loop
   never ends); with L = 1 the second round indexes out of range, with
   L = 0 already the first.
   */
  lemma EndlessLoop(x: real, L: nat, n: nat)
    ensures L >= 2 ==> ChunkLoop(seq(n, _ => x), L).Completed?
    ensures L >= 2 ==> |ChunkLoop(seq(n, _ => x), L).chunks| == ChunkCount(n, L)
    ensures L == 1 ==> (ChunkLoop(seq(n, _ => x), L) == IndexPanic <==> n >= 2)
    ensures L == 0 ==> (ChunkLoop(seq(n, _ => x), L) == IndexPanic <==> n >= 1)
  {
    if L >= 2 {
      ChunkLoopClosedForm(seq(n, _ => x), L);
    } else if L == 1 {
      ChunkLoopLengthOne(seq(n, _ => x));
    } else {
      ChunkLoopLengthZero(seq(n, _ => x));
    }
  }
}
