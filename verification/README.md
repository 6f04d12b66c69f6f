# gowavlearn feature extraction, modelled in Dafny

gowavlearn turns folders of drum samples into a table for a classifier. It
scans `./data/kick`, `./data/hat`, `./data/other`, `./data/percussion` and
`./data/snare`, starts one task per `.wav` file, and cuts each file's samples
into chunks of `chunkBufferLength` frames. For each chunk it records a pitch
and an RMS value. One goroutine collects the resulting rows into `result.csv`.

This project models that pipeline as pure Dafny functions and proves
properties about it. Go's fixed-width integer behaviour is written out
explicitly:
- `int16(x)` and `int32(x)` wrap as two's complement;
- the 64-bit `int` sum in the stereo average wraps;
- `/` truncates toward zero;
- `Duration.Milliseconds` truncates.

The modules follow the program's structure:

- `GoInt` (goint.dfy): Go integer conversions, truncating division, milliseconds.
- `Pcm` (pcm.dfy): `normalize` and `getNormalizedPcm`. They are computed over
  exact reals.
- `Mixdown` (mixdown.dfy): the walk `i += NumChans` over interleaved samples.
  Stereo pairs are averaged.
- `Chunker` (chunker.dfy): the buffer loop with index `j`, as a state
  machine. It is proved equal to a closed form:
  - the first chunk is frames `[0, L)`;
  - every later chunk is a `0` followed by the next `L - 1` frames;
  - the number of chunks is `0` if `n < L`, else `1 + (n - L) / (L - 1)`.
- `Energy` (energy.dfy): the mean of squares under `rootMeanSquare`'s square
  root.
- `Features` (features.dfy): `extractFeatures` as a whole, including its
  error, panic and non-termination outcomes.
- `Decimal` (decimal.dfy): `%d` formatting and its inverse.
- `Table` (table.dfy): `createHeader`, the row built by `processWav`, and
  reading a row back.
- `Folder` (folder.dfy): the `.*\.wav` name filter, the per-folder count, and
  dispatch over the five folders.
- `Writer` (writer.dfy): `writeResultCsv` as written and as evidently intended.
- `Wrappers` (wrappers.dfy): `Option`.

Things the code decides on its own, which this model follows:

- The number of chunks is not fixed at ten. It depends on `L` and the frame
  count (`Chunker.CountIsUnbounded`). Only ten-chunk rows line up with the
  ten-column header (`Table.RowFitsHeader`).
- Every chunk after the first holds one frame fewer than `L`; its slot 0
  stays 0. This follows from `j = 0` followed by `j++`.
- Over exact reals the formula maps the maximum of each range to exactly `1`
  (`Pcm.Endpoints`), not to a value below it.
- An unsupported bit depth is not rejected. Every sample becomes `0` and the
  file still produces a row (`Features.UnsupportedDepthIsSilence`).
- Short files are not rejected either:
  - a buffer length `L >= 2` with fewer than `L` frames gives zero chunks;
  - `L = 1` with two or more frames panics;
  - `L = 0` with any frame panics.
- A 24-bit sample is only wrapped to 32 bits, so values beyond the 24-bit
  range normalise outside `[-1, 1]` (`Pcm.Pcm24OutOfRange`).
- The name filter is a regular expression matched anywhere in the name. A
  name is counted when it contains `.wav`, so `a.wav.bak` counts. It is
  case-sensitive.
- Files in `./data/snare` are labelled `Kick`.
- A failed `os.Open` in `processWav` ends the whole run (`log.Fatal`); it is
  not skipped.
- The writer's range loop blocks for good, so `Flush`, `Close` and the
  `finished` signal are never reached (see Findings).

## Model

| member | source | states |
|---|---|---|
| GoInt.Int16 | main.go:164 | `int16(x)` lies in [-2^15, 2^15) and is the identity on that range |
| GoInt.Int32 | main.go:167-170 | `int32(x)` lies in [-2^31, 2^31) and is the identity on that range |
| GoInt.Int64 | main.go:140 | the wrapped 64-bit sum lies in [-2^63, 2^63) and equals the exact sum when that fits |
| GoInt.KeepsLow16 | main.go:164 | `int16(x)` differs from `x` by a multiple of 2^16 |
| GoInt.KeepsLow32 | main.go:167 | `int32(x)` differs from `x` by a multiple of 2^32 |
| GoInt.KeepsLow64 | main.go:140 | the 64-bit wrap differs from the exact value by a multiple of 2^64 |
| GoInt.Int16Periodic | main.go:164 | adding any multiple of 2^16 leaves `int16(x)` unchanged |
| GoInt.Quot | main.go:140 | Go's `/` by a positive divisor leaves a remainder with the dividend's sign, smaller than the divisor |
| GoInt.QuotTruncatesTowardZero | main.go:140 | Go's `-3 / 2` is -1, where floor division gives -2 |
| GoInt.Milliseconds | main.go:132 | the millisecond count brackets the nanoseconds within one millisecond, toward zero |
| Pcm.Normalize | main.go:120-122 | min maps to -1, max to 1, and the result is in [-1, 1] exactly when the value is in [min, max] |
| Pcm.NormalizeMonotone | main.go:120-122 | normalisation preserves the order of samples |
| Pcm.NormalizeTestValue | main_test.go:5-10 | `normalize(-2, -10, 10)` is -0.2, so the test's bound 0.2 - got >= 0 holds |
| Pcm.GetNormalizedPcm | main.go:162-174 | depths 16 and 32 land in [-1, 1]; a 24-bit value lands there iff its 32-bit wrap is in the 24-bit range; other depths give 0 |
| Pcm.Endpoints | main.go:162-172 | each depth's minimum maps to exactly -1 and its maximum to exactly 1 |
| Pcm.ZeroIsBiased | main.go:164-165 | a 16-bit zero sample maps to 1/65535, not to 0 |
| Pcm.Pcm16Periodic | main.go:163-165 | a 16-bit sample depends only on its low 16 bits |
| Pcm.Pcm24OutOfRange | main.go:166-168 | 2^23 maps above 1 and -2^23-1 below -1 |
| Pcm.InRangeMonotone | main.go:162-172 | within a depth's range, larger samples never normalise lower |
| Mixdown.Average | main.go:140 | Go's `(a + b) / 2`: twice the result is within one of the 64-bit wrapped sum, toward zero, and for 32-bit samples it lies between them |
| Mixdown.MixFrame | main.go:139-143 | a mono frame is its sample; a stereo frame of 32-bit samples lies between its two channels |
| Mixdown.MixFrom | main.go:137-143 | the walk succeeds iff mono or the remaining length is even, and yields one value per frame |
| Mixdown.MixFromAt | main.go:137-143 | the k-th value comes from the frame at offset k * numChans |
| Mixdown.MixFromReadsFrames | main.go:137-143 | every value of the walk is the mixed frame at its offset |
| Mixdown.MixFrames | main.go:134-143 | zero channels with data never advance; odd-length stereo reads out of range; otherwise one value per frame |
| Mixdown.MonoPassesThrough | main.go:141-142 | mono data is passed through unchanged |
| Mixdown.StereoAverages | main.go:139-140 | stereo frame k is the truncated average of the 64-bit sum of entries 2k and 2k+1 |
| Mixdown.StereoTruncates | main.go:140 | the pair (-3, 0) mixes to -1 and (3, 0) to 1, rounding toward zero |
| Mixdown.IdenticalChannels | main.go:139-140 | two identical 32-bit channels mix back to the mono signal |
| Chunker.Init | main.go:131-133 | the fresh state (zeroed buffer of `L` slots, `j = 0`, no chunks) is well formed |
| Chunker.Step | main.go:145-154 | a step indexes in range iff `j < L`, keeps the buffer shape, and emits one chunk exactly when `j = L - 1` |
| Chunker.Run | main.go:137-155 | the loop only appends chunks, and every emitted chunk has `L` slots |
| Chunker.ChunkLoop | main.go:131-155 | the whole loop from the fresh buffer: no frames emit nothing, `L = 0` panics on the first frame, every chunk has `L` slots (its full content is Chunker.ChunkLoopClosedForm) |
| Chunker.ExpectedChunks | main.go:145-154 | the reference chunk list: chunk k is its lead followed by the frames between its start and the next chunk's start |
| Chunker.ChunkStartClosedForm | main.go:145-154 | chunk k >= 1 starts at frame L + (k - 1)(L - 1) |
| Chunker.CountIsBracketed | main.go:145-155 | the frame count lies between the start of chunk `ChunkCount` and the start of the next one |
| Chunker.StepReached | main.go:145-154 | one step keeps the closed-form description of the loop state true one frame further |
| Chunker.StepEmits | main.go:146-154 | the step that fills the last slot emits the expected chunk and restarts with `j = 1` on a zeroed buffer |
| Chunker.RunFromReached | main.go:137-155 | from any state the closed form describes, the loop completes with exactly the expected chunks |
| Chunker.ChunkLoopClosedForm | main.go:131-155 | for `L >= 2` the loop never panics and emits exactly `ChunkCount(n, L)` chunks of the closed form |
| Chunker.FirstChunk | main.go:145-150 | the first chunk is exactly the first `L` frames |
| Chunker.LaterChunk | main.go:151-154 | every later chunk is a 0 followed by the next `L - 1` frames |
| Chunker.TrailingFramesDropped | main.go:137-155 | the frames left after the last chunk are too few to fill another chunk, and they are dropped |
| Chunker.CountIsUnbounded | main.go:145-154 | 30 frames with L = 2 give 29 chunks and 1000 frames with L = 50 give 20, not 10 |
| Chunker.ChunkLoopLengthOne | main.go:145-154 | with L = 1 the loop panics iff there are at least two frames; one frame gives one chunk |
| Chunker.ChunkLoopLengthZero | main.go:131-145 | with L = 0 the loop panics iff there is a frame |
| Energy.SumSquares | main.go:176-181 | the accumulated sum of squares is never negative |
| Energy.MeanSquare | main.go:176-183 | the mean square under the root is never negative |
| Energy.SilenceHasNoEnergy | main.go:176-183 | an all-zero chunk has sum of squares 0 |
| Energy.ConstantSum | main.go:176-181 | a constant chunk of amplitude a has sum of squares n * a^2 |
| Energy.ConstantMean | main.go:176-183 | a constant chunk of amplitude a has mean square a^2, so its RMS is abs(a) |
| Features.NormalizeFrames | main.go:144 | one normalised value per mono frame |
| Features.Describe | main.go:146-150 | pitch and RMS lists grow in lockstep, entry k describing chunk k |
| Features.ExtractFeatures | main.go:124-160 | negative L panics; more than 2 channels is an error; zero channels with data never return when L >= 2; a read failure is reported; on success both lists have the same length and the length is the duration in ms |
| Features.ExtractCountsChunks | main.go:124-160 | a well-formed mono or stereo file with L >= 2 gets `ChunkCount(frames, L)` entries, or the read error |
| Features.StereoMatchesMono | main.go:137-144 | a stereo file gives the same result as the mono file holding its mixdown |
| Features.UnsupportedDepthIsSilence | main.go:144-174 | with an unsupported bit depth every chunk handed to the estimators is all zeros |
| Features.EndlessLoop | main.go:137 | with zero channels frame 0 repeats forever: L >= 2 never faults, L = 1 panics on the second round, L = 0 on the first |
| Decimal.FormatInt | main.go:112 | `%d` writes a leading '-' exactly for negative numbers |
| Decimal.DigitsRoundTrip | main.go:112 | the digits of n read back as n |
| Decimal.FormatParseRoundTrip | main.go:112 | parsing a `%d` text gives back the number |
| Decimal.SingleDigit | main.go:75 | a single-digit index is written as one character |
| Table.CreateHeader | main.go:72-82 | the header is Length, Pitch_0..Pitch_9, RMS_0..RMS_9, Type, 22 columns |
| Table.Row | main.go:112-115 | a row has the length cell, every pitch, every RMS and the label |
| Table.RowRoundTrip | main.go:112-115 | a row splits back into its statistics and label |
| Table.RowFitsHeader | main.go:72-115 | a row is as wide as the header iff exactly ten chunks were emitted |
| Table.ProcessWav | main.go:101-118 | an open failure is fatal; a row is sent iff extraction succeeded, and it reads back as that file's statistics and label |
| Folder.ContainsFrom | main.go:64 | the search finds `.wav` iff it occurs at or after the start index |
| Folder.RegexIsSubstring | main.go:61-64 | the unanchored `.*\.wav` matches exactly the names that contain `.wav` |
| Folder.IsWavName | main.go:61-64 | the filter accepts a name iff the regular expression matches it |
| Folder.NameExamples | main.go:61-64 | `a.wav.bak` is counted; `kick.WAV` and `wav` are not |
| Folder.WavNames | main.go:63-68 | the counted names are matching entries of the listing, and every matching entry is among them |
| Folder.WavNamesCounts | main.go:63-68 | each matching name is counted exactly as often as the listing holds it, any other name never |
| Folder.ReadFilesInFolder | main.go:56-70 | an unreadable folder is fatal; otherwise the count equals the number of tasks, one per matching name in listing order, with the folder's label |
| Folder.DispatchAll | main.go:45-53 | an unreadable folder is fatal; otherwise the five counts add up to the number of tasks, which are exactly each folder's matching names in order, labelled with that folder's label |
| Folder.AllTasksMatch | main.go:45-53 | every dispatched task names a matching file and carries one of the four labels |
| Folder.SnareIsKick | main.go:51 | the tasks from `./data/snare` are labelled `Kick` and form the last block of the dispatch |
| Writer.DrainAsWritten | main.go:84-99 | every received line is written, and close is called once per line beyond `expecting` |
| Writer.Ending | main.go:90-98 | the writer finishes iff it closed the channel exactly once |
| Writer.SentLines | main.go:106-116 | at most one line per task reaches the channel |
| Writer.AsWrittenNeverFinishes | main.go:84-99 | with one task per counted file, the writer as written never finishes |
| Writer.OneFileHangs | main.go:84-99 | one file with one good line leaves the writer waiting |
| Writer.AsWrittenFinishesOnlyOnExtraLine | main.go:89-95 | the writer as written finishes only on receiving `expecting + 1` lines |
| Writer.Completions | main.go:106-116 | one completion per task, in order |
| Writer.Rows | main.go:89-90 | the completions' rows number at most the completions |
| Writer.DrainCorrected | main.go:84-99 | the counting writer finishes iff `expecting` completions have arrived, never closes twice, and writes their rows |
| Writer.RowsAreSentLines | main.go:106-116 | the completions' rows are the sent lines, and rows plus failures equal the tasks |
| Writer.CorrectedFinishes | main.go:84-99 | N tasks with K extraction errors give N - K rows, and the writer finishes |
| Writer.OneFileFinishes | main.go:84-99 | the single-file run that hangs as written finishes under the correction |

## Left out

- Float32 rounding: `normalize` and the RMS are computed over exact reals. Rounding can make distinct samples normalise equal: in float32 the 32-bit sample 2147483547 normalises to exactly 1.0, like the maximum.
- The derivation of `chunkBufferLength` from the duration and sample rate, which goes through float64 seconds. It is an input `L` to the model.
- `findMainFrequency`, which no file of this model defines, and `%f` formatting. They are opaque function parameters (`PitchText`, `RmsText`) that the model passes chunks to in order.
- `findMainFrequency` and `rootMeanSquare` receive the same buffer. The model hands `rmsOf` the chunk as emitted, so it assumes `findMainFrequency` does not write into its argument. The RMS clause of `Features.UnsupportedDepthIsSilence` rests on that assumption.
- `math.Sqrt` in `rootMeanSquare`. Only the mean of squares under it is modelled.
- Goroutines and channels. The writer sees the received lines in one arrival order; interleavings, buffering and backpressure are not modelled.
- A panic in a `processWav` goroutine, and the send-on-closed-channel panic. Both would end the process; the model only marks such runs `Panicked`.
- File and directory I/O, the WAV decoder, `filepath.Join`, `log` output and command-line flags. The decoder's result is the `Decoded` input; a listing is an input; a failed read is an explicit flag.
- The nil buffer `FullPCMBuffer` may return together with an error. The model assumes the data is present and only records the error.
- The classifier in tree_classify.go is not part of this model.
- Energy.SilenceHasNoEnergy: states only that silence has zero energy, not the converse (zero energy implies silence).
- Mixdown.Average: assumes Go's `int` is 64 bits wide, as on 64-bit targets; on 32-bit targets such as 386 or arm the sum at main.go:140 would wrap at 32 bits.
- Mixdown.StereoAverages: samples are Go `int` values the decoder produced; sums are wrapped at 64 bits, but the samples themselves are not range-checked.
- Writer.DrainAsWritten: `written` holds the received lines only; the header row that `writeResultCsv` writes first (`Table.CreateHeader`) is not included.

## Findings

| source | as written | input that shows it | evidently intended | confidence | as-written member | corrected member |
|---|---|---|---|---|---|---|
| main.go:90-96 | the channel is closed only when the loop sees a line with index `i >= expecting`, that is the `expecting + 1`-th line. At most `expecting` lines are ever sent, so the writer blocks; `Flush`, `Close` and `finished <- true` are never reached (with `main` also blocked, the Go runtime would most likely abort on deadlock) | one folder holding one valid `.wav` file: `expecting = 1`, one line arrives, and the writer blocks waiting for another | close after the `expecting`-th completion, counting files that fail extraction as well, so N files with K errors give N - K rows and the run ends | not executed | Writer.AsWrittenNeverFinishes | Writer.CorrectedFinishes |
