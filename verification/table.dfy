/**
 The output table: the fixed header of createHeader and the row that
 processWav sends for one file (length in milliseconds, every pitch
 entry, every RMS entry, the instrument label).
 */
module Table {
  import opened Wrappers
  import opened Decimal
  import opened Features

  /** The `chunks` constant the header is built from. */
  const Chunks: nat := 10

  /** Length, ten pitch columns, ten RMS columns, Type. */
  const HeaderWidth: nat := 2 + 2 * Chunks

  /** createHeader: "Length", "Pitch_0".."Pitch_9", "RMS_0".."RMS_9", "Type". */
  method CreateHeader() returns (header: seq<string>)
    ensures |header| == HeaderWidth
    ensures header[0] == "Length" && header[HeaderWidth - 1] == "Type"
    ensures forall i :: 0 <= i < Chunks ==> header[1 + i] == "Pitch_" + FormatInt(i)
    ensures forall i :: 0 <= i < Chunks ==> header[1 + Chunks + i] == "RMS_" + FormatInt(i)
    ensures header[1] == "Pitch_0" && header[Chunks] == "Pitch_9"
    ensures header[1 + Chunks] == "RMS_0" && header[2 * Chunks] == "RMS_9"
  {
    header := ["Length"];
    var i := 0;
    while i < Chunks
      invariant 0 <= i <= Chunks
      invariant |header| == 1 + i && header[0] == "Length"
      invariant forall k :: 0 <= k < i ==> header[1 + k] == "Pitch_" + FormatInt(k)
    {
      header := header + ["Pitch_" + FormatInt(i)];
      i := i + 1;
    }
    i := 0;
    while i < Chunks
      invariant 0 <= i <= Chunks
      invariant |header| == 1 + Chunks + i && header[0] == "Length"
      invariant forall k :: 0 <= k < Chunks ==> header[1 + k] == "Pitch_" + FormatInt(k)
      invariant forall k :: 0 <= k < i ==> header[1 + Chunks + k] == "RMS_" + FormatInt(k)
    {
      header := header + ["RMS_" + FormatInt(i)];
      i := i + 1;
    }
    header := header + ["Type"];
    SingleDigit(0);
    SingleDigit(9);
  }

  /** The line processWav sends. */
  function Row(stats: WavStats, instrument: string): (line: seq<string>)
    ensures |line| == 2 + |stats.averagePitch| + |stats.rms|
  {
    [FormatInt(stats.length)] + stats.averagePitch + stats.rms + [instrument]
  }

  /** Reads a row back, taking the pitch and RMS parts to be equally long. */
  function SplitRow(line: seq<string>): Option<(WavStats, string)> {
    if |line| < 2 || |line| % 2 == 1 then None
    else
      var n := (|line| - 2) / 2;
      match ParseInt(line[0])
      case None => None
      case Some(ms) => Some((WavStats(line[1..1 + n], ms, line[1 + n..1 + 2 * n]), line[|line| - 1]))
  }

  /** Because the two lists grow in lockstep, a row can be split back into its statistics and label. */
  lemma RowRoundTrip(stats: WavStats, instrument: string)
    requires |stats.averagePitch| == |stats.rms|
    ensures SplitRow(Row(stats, instrument)) == Some((stats, instrument))
  {
    var line := Row(stats, instrument);
    var n := |stats.averagePitch|;
    FormatParseRoundTrip(stats.length);
    assert line[0] == FormatInt(stats.length);
    assert line[1..1 + n] == stats.averagePitch;
    assert line[1 + n..1 + 2 * n] == stats.rms;
  }

  /** A row lines up with the header exactly when ten chunks were emitted. */
  lemma RowFitsHeader(stats: WavStats, instrument: string)
    requires |stats.averagePitch| == |stats.rms|
    ensures |Row(stats, instrument)| == HeaderWidth <==> |stats.averagePitch| == Chunks
  {
  }

  /** What processWav does with one file. */
  datatype Delivery =
    | Sent(line: seq<string>)
    | Dropped(outcome: Extraction)   // extraction failed, panicked or never returned
    | OpenFailed                     // os.Open failed: log.Fatal ends the run

  function ProcessWav(fileOpened: bool, d: Decoded, L: int, instrument: string,
                      pitchOf: PitchText, rmsOf: RmsText): (r: Delivery)
    ensures r == OpenFailed <==> !fileOpened
    ensures fileOpened ==> (r.Sent? <==> ExtractFeatures(d, L, pitchOf, rmsOf).Extracted?)
    ensures r.Dropped? ==> !r.outcome.Extracted?
    ensures r.Sent? ==> SplitRow(r.line) == Some((ExtractFeatures(d, L, pitchOf, rmsOf).stats, instrument))
  {
    if !fileOpened then OpenFailed
    else
      var outcome := ExtractFeatures(d, L, pitchOf, rmsOf);
      if outcome.Extracted? then
        RowRoundTrip(outcome.stats, instrument);
        Sent(Row(outcome.stats, instrument))
      else Dropped(outcome)
  }
}
