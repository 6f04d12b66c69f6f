/**
 The chunking loop of extractFeatures: a buffer of `L` slots
 (chunkBufferLength) is filled at index `j`; when slot `L - 1` is written
 the buffer is emitted as a chunk, a fresh zeroed buffer is taken and `j`
 is reset to 0 and then incremented like on every other frame. So the
 first chunk takes `L` frames and every later chunk `L - 1` frames, its
 slot 0 left at 0.
 */
module Chunker {
  import opened Wrappers

  /** The loop's variables between two frames. */
  datatype State = State(j: int, buf: seq<real>, emitted: seq<seq<real>>)

  /** A run of the loop either finishes with the emitted chunks or indexes the buffer out of range. */
  datatype Outcome = Completed(chunks: seq<seq<real>>) | IndexPanic

  function Zeros(n: nat): (z: seq<real>)
    ensures |z| == n && forall k :: 0 <= k < n ==> z[k] == 0.0
  {
    seq(n, _ => 0.0)
  }

  /** Shape every reachable state has: a buffer of `L` slots, a non-negative index, full-size chunks. */
  predicate WellFormed(L: nat, st: State) {
    && |st.buf| == L
    && 0 <= st.j
    && forall c :: 0 <= c < |st.emitted| ==> |st.emitted[c]| == L
  }

  function Init(L: nat): (st: State)
    ensures WellFormed(L, st)
  {
    State(0, Zeros(L), [])
  }

  /** One frame: store `x` at `j`, emit and reset when `j` is the last slot, then advance `j`. */
  function Step(L: nat, st: State, x: real): (r: Option<State>)
    requires WellFormed(L, st)
    ensures r.Some? <==> st.j < L
    ensures r.Some? ==> WellFormed(L, r.value)
    ensures r.Some? ==> st.emitted <= r.value.emitted
    ensures r.Some? ==> |r.value.emitted| == |st.emitted| + (if st.j == L - 1 then 1 else 0)
  {
    if st.j >= L then None
    else
      var buf := st.buf[st.j := x];
      var st' := if st.j == L - 1 then State(0, Zeros(L), st.emitted + [buf]) else st.(buf := buf);
      Some(st'.(j := st'.j + 1))
  }

  /** The loop over the remaining frames `xs`. */
  function Run(L: nat, st: State, xs: seq<real>): (r: Outcome)
    requires WellFormed(L, st)
    ensures r.Completed? ==> st.emitted <= r.chunks
    ensures r.Completed? ==> forall c :: 0 <= c < |r.chunks| ==> |r.chunks[c]| == L
    decreases |xs|
  {
    if xs == [] then Completed(st.emitted)
    else
      match Step(L, st, xs[0])
      case None => IndexPanic
      case Some(st') => Run(L, st', xs[1..])
  }

  /** The whole loop over the mono, normalised frames with buffer length `L`. */
  function ChunkLoop(frames: seq<real>, L: nat): (r: Outcome)
    ensures frames == [] ==> r == Completed([])
    ensures L == 0 && frames != [] ==> r == IndexPanic
    ensures r.Completed? ==> forall c :: 0 <= c < |r.chunks| ==> |r.chunks[c]| == L
  {
    Run(L, Init(L), frames)
  }

  // ----- Closed form (L >= 2) -----

  /** What a chunk holds before its frames: nothing for the first, one 0 for every later one. */
  function Lead(k: nat): seq<real> {
    if k == 0 then [] else [0.0]
  }

  /** Index of the first frame of chunk `k`. */
  function ChunkStart(L: nat, k: nat): nat
    requires L >= 1
  {
    if k == 0 then 0 else ChunkStart(L, k - 1) + L - |Lead(k - 1)|
  }

  /** Number of chunks emitted for `n` frames. */
  function ChunkCount(n: nat, L: nat): nat
    requires L >= 2
  {
    if n < L then 0 else 1 + (n - L) / (L - 1)
  }

  /** Chunk `k` as it must come out: its lead, then the frames from its start to the next chunk's. */
  function ExpectedChunk(frames: seq<real>, L: nat, k: nat): seq<real>
    requires L >= 1 && ChunkStart(L, k + 1) <= |frames|
  {
    Lead(k) + frames[ChunkStart(L, k)..ChunkStart(L, k + 1)]
  }

  /** The first `c` chunks as they must come out. */
  function ExpectedChunks(frames: seq<real>, L: nat, c: nat): (r: seq<seq<real>>)
    requires L >= 1 && ChunkStart(L, c) <= |frames|
    ensures |r| == c
    ensures forall k :: 0 <= k <= c ==> ChunkStart(L, k) <= |frames|
    ensures forall k :: 0 <= k < c ==> r[k] == ExpectedChunk(frames, L, k)
  {
    if c == 0 then []
    else
      var prefix := ExpectedChunks(frames, L, c - 1);
      var last := ExpectedChunk(frames, L, c - 1);
      assert forall k :: 0 <= k < c - 1 ==> (prefix + [last])[k] == prefix[k];
      assert (prefix + [last])[c - 1] == last;
      prefix + [last]
  }

  lemma {:induction false} ChunkStartClosedForm(L: nat, k: nat)
    requires L >= 1
    ensures k >= 1 ==> ChunkStart(L, k) == L + (k - 1) * (L - 1)
  {
    if k >= 2 {
      ChunkStartClosedForm(L, k - 1);
      assert (k - 1) * (L - 1) == (k - 2) * (L - 1) + (L - 1);
    }
  }

  /** `q` is the quotient of `x` by `d` when `x` lies between `q * d` and the next multiple. */
  lemma DivBracket(x: int, d: int, q: int)
    requires d > 0 && q * d <= x < q * d + d
    ensures x / d == q
  {
    var q' := x / d;
    assert x == q' * d + x % d;
    if q' < q {
      MulStep(q', q, d);
    } else if q' > q {
      MulStep(q, q', d);
    }
  }

  /** Multiples of a positive `d` are at least `d` apart. */
  lemma {:induction false} MulStep(a: int, b: int, d: int)
    requires a < b && d > 0
    ensures a * d + d <= b * d
    decreases b - a
  {
    if a + 1 < b {
      MulStep(a + 1, b, d);
    }
    assert (a + 1) * d == a * d + d;
  }

  /** The count is the unique `c` whose chunk starts bracket the number of frames. */
  lemma CountBracket(n: nat, L: nat, c: nat)
    requires L >= 2 && ChunkStart(L, c) <= n < ChunkStart(L, c + 1)
    ensures ChunkCount(n, L) == c
  {
    ChunkStartClosedForm(L, c);
    ChunkStartClosedForm(L, c + 1);
    if c >= 1 {
      assert c * (L - 1) == (c - 1) * (L - 1) + (L - 1);
      DivBracket(n - L, L - 1, c - 1);
    }
  }

  /** For every `n` the count's chunk starts do bracket `n`. */
  lemma CountIsBracketed(n: nat, L: nat)
    requires L >= 2
    ensures ChunkStart(L, ChunkCount(n, L)) <= n < ChunkStart(L, ChunkCount(n, L) + 1)
  {
    var c := ChunkCount(n, L);
    ChunkStartClosedForm(L, c);
    ChunkStartClosedForm(L, c + 1);
    if c >= 1 {
      var q := (n - L) / (L - 1);
      assert n - L == q * (L - 1) + (n - L) % (L - 1);
      assert c * (L - 1) == q * (L - 1) + (L - 1);
    }
  }

  /** The loop state after the first `i` frames, stated without running the loop. */
  ghost predicate Reached(frames: seq<real>, L: nat, i: nat, st: State)
  {
    var c := |st.emitted|;
    && L >= 2 && i <= |frames|
    && ChunkStart(L, c) <= i < ChunkStart(L, c + 1)
    && st.j == |Lead(c)| + (i - ChunkStart(L, c))
    && st.buf == Lead(c) + frames[ChunkStart(L, c)..i] + Zeros(L - st.j)
    && st.emitted == ExpectedChunks(frames, L, c)
  }

  lemma ReachedIsWellFormed(frames: seq<real>, L: nat, i: nat, st: State)
    requires Reached(frames, L, i, st)
    ensures WellFormed(L, st)
  {
  }

  /** Writing `x` into the first zero slot after the prefix `p`. */
  lemma WriteAfterPrefix(p: seq<real>, n: nat, x: real)
    requires n >= 1
    ensures (p + Zeros(n))[|p| := x] == (p + [x]) + Zeros(n - 1)
  {
  }

  /** The buffer after storing frame `i`: the current chunk's frames up to `i`, then zeros. */
  lemma WriteFrame(frames: seq<real>, L: nat, i: nat, st: State)
    requires Reached(frames, L, i, st) && i < |frames|
    ensures 0 <= st.j < L
    ensures st.buf[st.j := frames[i]]
      == Lead(|st.emitted|) + frames[ChunkStart(L, |st.emitted|)..i + 1] + Zeros(L - st.j - 1)
  {
    var c := |st.emitted|;
    var s := ChunkStart(L, c);
    assert st.j == |Lead(c) + frames[s..i]|;
    WriteAfterPrefix(Lead(c) + frames[s..i], L - st.j, frames[i]);
    assert frames[s..i + 1] == frames[s..i] + [frames[i]];
  }

  /** One step keeps the closed-form description true one frame further. */
  lemma StepReached(frames: seq<real>, L: nat, i: nat, st: State)
    requires Reached(frames, L, i, st) && i < |frames|
    ensures WellFormed(L, st)
    ensures Step(L, st, frames[i]).Some?
    ensures Reached(frames, L, i + 1, Step(L, st, frames[i]).value)
  {
    WriteFrame(frames, L, i, st);
    if st.j == L - 1 {
      StepEmits(frames, L, i, st);
    } else {
      var st' := Step(L, st, frames[i]).value;
      assert st'.buf == st.buf[st.j := frames[i]];
      assert st'.emitted == st.emitted;
    }
  }

  /** Filling the last slot completes the current chunk, and the next one starts at the following frame. */
  lemma LastSlotChunk(frames: seq<real>, L: nat, i: nat, st: State)
    requires Reached(frames, L, i, st) && i < |frames| && st.j == L - 1
    ensures ChunkStart(L, |st.emitted| + 1) == i + 1
    ensures st.buf[st.j := frames[i]] == ExpectedChunk(frames, L, |st.emitted|)
  {
    WriteFrame(frames, L, i, st);
    assert Zeros(0) == [];
  }

  /** The step that fills the last slot emits the expected chunk and starts the next one at a zero. */
  lemma StepEmits(frames: seq<real>, L: nat, i: nat, st: State)
    requires Reached(frames, L, i, st) && i < |frames| && st.j == L - 1
    ensures WellFormed(L, st)
    ensures Step(L, st, frames[i]).Some?
    ensures Reached(frames, L, i + 1, Step(L, st, frames[i]).value)
  {
    ReachedIsWellFormed(frames, L, i, st);
    var c := |st.emitted|;
    LastSlotChunk(frames, L, i, st);
    var next := State(1, Zeros(L), ExpectedChunks(frames, L, c + 1));
    assert Step(L, st, frames[i]) == Some(next);
    assert ChunkStart(L, c + 2) == i + L;
    assert next.buf == Lead(c + 1) + frames[i + 1..i + 1] + Zeros(L - 1);
  }

  /** Once every frame is consumed, the chunks emitted are exactly the first `ChunkCount` expected ones. */
  lemma ReachedEnd(frames: seq<real>, L: nat, st: State)
    requires Reached(frames, L, |frames|, st)
    ensures ChunkStart(L, ChunkCount(|frames|, L)) <= |frames|
    ensures st.emitted == ExpectedChunks(frames, L, ChunkCount(|frames|, L))
  {
    CountIsBracketed(|frames|, L);
    CountBracket(|frames|, L, |st.emitted|);
  }

  lemma {:induction false} RunFromReached(frames: seq<real>, L: nat, i: nat, st: State)
    requires Reached(frames, L, i, st)
    ensures WellFormed(L, st)
    ensures ChunkStart(L, ChunkCount(|frames|, L)) <= |frames|
    ensures Run(L, st, frames[i..]) == Completed(ExpectedChunks(frames, L, ChunkCount(|frames|, L)))
    decreases |frames| - i
  {
    ReachedIsWellFormed(frames, L, i, st);
    if i == |frames| {
      ReachedEnd(frames, L, st);
      assert frames[i..] == [];
    } else {
      StepReached(frames, L, i, st);
      var st' := Step(L, st, frames[i]).value;
      RunFromReached(frames, L, i + 1, st');
      assert frames[i..][1..] == frames[i + 1..];
    }
  }

  /**
   With `L >= 2` the loop never leaves the buffer and emits exactly
   `ChunkCount(|frames|, L)` chunks: the first is frames [0, L), chunk k >= 1
   is a 0 followed by the L - 1 frames from ChunkStart(L, k).
   */
  lemma ChunkLoopClosedForm(frames: seq<real>, L: nat)
    requires L >= 2
    ensures ChunkStart(L, ChunkCount(|frames|, L)) <= |frames|
    ensures ChunkLoop(frames, L) == Completed(ExpectedChunks(frames, L, ChunkCount(|frames|, L)))
  {
    assert Reached(frames, L, 0, Init(L));
    RunFromReached(frames, L, 0, Init(L));
    assert frames[0..] == frames;
  }

  /** The first chunk is exactly the first `L` frames. */
  lemma FirstChunk(frames: seq<real>, L: nat)
    requires L >= 2 && L <= |frames|
    ensures ChunkLoop(frames, L).Completed? && |ChunkLoop(frames, L).chunks| >= 1
    ensures ChunkLoop(frames, L).chunks[0] == frames[..L]
  {
    ChunkLoopClosedForm(frames, L);
    var chunks := ExpectedChunks(frames, L, ChunkCount(|frames|, L));
    assert chunks[0] == ExpectedChunk(frames, L, 0);
  }

  /** Every later chunk is a 0 in slot 0 followed by the next `L - 1` frames. */
  lemma LaterChunk(frames: seq<real>, L: nat, k: nat)
    requires L >= 2 && 1 <= k < ChunkCount(|frames|, L)
    ensures ChunkLoop(frames, L).Completed? && k < |ChunkLoop(frames, L).chunks|
    ensures ChunkStart(L, k) + L - 1 <= |frames|
    ensures ChunkLoop(frames, L).chunks[k] == [0.0] + frames[ChunkStart(L, k)..ChunkStart(L, k) + L - 1]
    ensures ChunkLoop(frames, L).chunks[k][0] == 0.0
  {
    ChunkLoopClosedForm(frames, L);
    var chunks := ExpectedChunks(frames, L, ChunkCount(|frames|, L));
    var s := ChunkStart(L, k);
    var ck := chunks[k];
    assert ChunkStart(L, k + 1) == s + L - 1 <= |frames|;
    assert ExpectedChunk(frames, L, k) == [0.0] + frames[s..s + L - 1];
    assert chunks[k] == ExpectedChunk(frames, L, k);
  }

  /** The frames after the last emitted chunk are fewer than the next chunk would need: they are dropped. */
  lemma TrailingFramesDropped(frames: seq<real>, L: nat)
    requires L >= 2
    ensures |frames| - ChunkStart(L, ChunkCount(|frames|, L)) < L - |Lead(ChunkCount(|frames|, L))|
  {
    CountIsBracketed(|frames|, L);
  }

  /** Nothing caps the count at ten: 30 frames with L = 2 give 29 chunks. */
  lemma CountIsUnbounded()
    ensures ChunkCount(30, 2) == 29
    ensures ChunkCount(1000, 50) == 20
  {
  }

  /** With L = 1 the second frame is written at index 1 of a one-slot buffer. */
  lemma ChunkLoopLengthOne(frames: seq<real>)
    ensures ChunkLoop(frames, 1) == IndexPanic <==> |frames| >= 2
    ensures |frames| == 1 ==> ChunkLoop(frames, 1) == Completed([frames])
    ensures frames == [] ==> ChunkLoop(frames, 1) == Completed([])
  {
    if |frames| >= 1 {
      var st := Step(1, Init(1), frames[0]).value;
      assert Zeros(1)[0 := frames[0]] == [frames[0]];
      assert st == State(1, Zeros(1), [[frames[0]]]);
      assert ChunkLoop(frames, 1) == Run(1, st, frames[1..]);
      if |frames| >= 2 {
        assert Step(1, st, frames[1]) == None;
      } else {
        assert frames[1..] == [];
        assert frames == [frames[0]];
      }
    }
  }

  /** With L = 0 the very first frame is written out of range. */
  lemma ChunkLoopLengthZero(frames: seq<real>)
    ensures ChunkLoop(frames, 0) == IndexPanic <==> |frames| >= 1
  {
  }
}
