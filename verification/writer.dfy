/**
 writeResultCsv: the single consumer of the result channel. It writes the
 header, then every line it receives, and is meant to close the channel
 once the expected number of files is in, flush, and signal `finished`.
 */
module Writer {
  import opened Wrappers
  import opened Features
  import opened Table

  type Line = seq<string>

  /** The lines the loop body has written and how often it called close. */
  datatype Drain = Drain(written: seq<Line>, closes: nat)

  /** How the writer goroutine ends. */
  datatype WriterEnd =
    | Finished(rows: seq<Line>)   // range loop left, file flushed, `finished` signalled
    | Blocked                     // range loop waits for a line or a close that never comes
    | ClosedTwice                 // a second close of the same channel panics

  /**
   The loop as written, fed the lines in the order they arrive: each line
   is written, then the channel is closed when the count of lines seen
   before it is at least `expecting`.
   */
  function DrainAsWritten(expecting: nat, lines: seq<Line>): (d: Drain)
    ensures d.written == lines
    ensures d.closes == if |lines| > expecting then |lines| - expecting else 0
  {
    if lines == [] then Drain([], 0)
    else
      var before := DrainAsWritten(expecting, lines[..|lines| - 1]);
      var i := |lines| - 1;
      Drain(before.written + [lines[i]], before.closes + if i >= expecting then 1 else 0)
  }

  /** Without a close the range loop never ends; a second close panics. */
  function Ending(d: Drain): (r: WriterEnd)
    ensures r.Finished? <==> d.closes == 1
    ensures r.Finished? ==> r.rows == d.written
  {
    if d.closes == 0 then Blocked
    else if d.closes == 1 then Finished(d.written)
    else ClosedTwice
  }

  /** The lines processWav puts on the channel, in order. */
  function SentLines(ds: seq<Delivery>): (lines: seq<Line>)
    ensures |lines| <= |ds|
    ensures forall l :: l in lines <==> Sent(l) in ds
  {
    if ds == [] then []
    else
      var rest := SentLines(ds[1..]);
      assert forall l :: Sent(l) in ds <==> ds[0] == Sent(l) || Sent(l) in ds[1..];
      if ds[0].Sent? then [ds[0].line] + rest else rest
  }

  /**
   One file per task and at most one line per file: the close, which needs
   line number `expecting + 1`, is never reached, so the range loop blocks
   and Flush, Close and the `finished` signal never happen.
   */
  lemma AsWrittenNeverFinishes(ds: seq<Delivery>)
    ensures Ending(DrainAsWritten(|ds|, SentLines(ds))) == Blocked
  {
  }

  /** One good file: its line is written, but the writer still blocks waiting for a second one. */
  lemma OneFileHangs(line: Line)
    ensures Ending(DrainAsWritten(1, [line])) == Blocked
    ensures DrainAsWritten(1, [line]).written == [line]
  {
  }

  /** The writer closes exactly when it receives one line more than expected. */
  lemma AsWrittenFinishesOnlyOnExtraLine(expecting: nat, lines: seq<Line>)
    ensures Ending(DrainAsWritten(expecting, lines)).Finished? <==> |lines| == expecting + 1
  {
  }

  /** A finished task, seen by a writer that counts files instead of lines. */
  datatype Completion = Row(line: Line) | NoRow

  /**
   The completion a delivery reports; os.Open failures end the run and
   panicking or endless extractions never complete, so they have none.
   */
  function Complete(d: Delivery): Option<Completion> {
    match d
    case Sent(line) => Some(Row(line))
    case Dropped(outcome) => if outcome.Failed? then Some(NoRow) else None
    case OpenFailed => None
  }

  /** Every task of `ds` completes: it sent a line or its extraction returned an error. */
  predicate AllComplete(ds: seq<Delivery>) {
    forall k :: 0 <= k < |ds| ==> Complete(ds[k]).Some?
  }

  function Completions(ds: seq<Delivery>): (cs: seq<Completion>)
    requires AllComplete(ds)
    ensures |cs| == |ds|
    ensures forall k :: 0 <= k < |ds| ==> Some(cs[k]) == Complete(ds[k])
  {
    if ds == [] then [] else [Complete(ds[0]).value] + Completions(ds[1..])
  }

  /** The lines carried by a run of completions, in order. */
  function Rows(cs: seq<Completion>): (rows: seq<Line>)
    ensures |rows| <= |cs|
  {
    if cs == [] then [] else (if cs[0].Row? then [cs[0].line] else []) + Rows(cs[1..])
  }

  /** The number of completions without a row. */
  function NoRows(cs: seq<Completion>): nat {
    if cs == [] then 0 else (if cs[0].NoRow? then 1 else 0) + NoRows(cs[1..])
  }

  /**
   The writer as intended: it counts every completion, writes the rows,
   and closes exactly once, right after the `expecting`-th completion.
   */
  function DrainCorrected(expecting: nat, cs: seq<Completion>): (r: WriterEnd)
    ensures r.Finished? <==> |cs| >= expecting
    ensures !r.ClosedTwice?
    ensures r.Finished? ==> r.rows == Rows(cs[..expecting])
  {
    if expecting == 0 then Finished([])
    else if cs == [] then Blocked
    else
      var rest := DrainCorrected(expecting - 1, cs[1..]);
      if rest.Finished? then
        assert cs[..expecting] == [cs[0]] + cs[1..][..expecting - 1];
        Finished((if cs[0].Row? then [cs[0].line] else []) + rest.rows)
      else rest
  }

  /** The rows are the sent lines, and each failed file leaves exactly one gap. */
  lemma {:induction false} RowsAreSentLines(ds: seq<Delivery>)
    requires AllComplete(ds)
    ensures Rows(Completions(ds)) == SentLines(ds)
    ensures |SentLines(ds)| + NoRows(Completions(ds)) == |ds|
  {
    if ds != [] {
      var cs := Completions(ds);
      assert cs[1..] == Completions(ds[1..]);
      assert Some(cs[0]) == Complete(ds[0]);
      RowsAreSentLines(ds[1..]);
    }
  }

  /**
   With one completion per counted file the corrected writer finishes,
   having written the line of every file that produced one and nothing else.
   */
  lemma CorrectedFinishes(ds: seq<Delivery>)
    requires AllComplete(ds)
    ensures DrainCorrected(|ds|, Completions(ds)) == Finished(SentLines(ds))
    ensures |SentLines(ds)| == |ds| - NoRows(Completions(ds))
  {
    var cs := Completions(ds);
    assert cs[..|ds|] == cs;
    RowsAreSentLines(ds);
  }

  /** The file that made the as-written writer wait now finishes it. */
  lemma OneFileFinishes(line: Line)
    ensures DrainCorrected(1, [Row(line)]) == Finished([line])
  {
    assert [Row(line)][..1] == [Row(line)];
  }
}
