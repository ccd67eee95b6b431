/**
 * The standard-error handling of `runProcess`: chunks are appended to a buffer, complete
 * lines are split off and handed to the line callback, and the first lines are captured
 * (while the capture is below 8192 characters) for the error message. Spawning, the timeout
 * and the exit-code check are outside the model.
 */
module ProcessRunner {
  import opened Text
  import opened Seqs

  /** The capture stops growing once it holds this many characters. */
  const StderrCaptureLimit := 8192

  /** A captured line is followed by a newline unless it already ends with one. */
  function Terminated(line: string): string {
    if EndsWith(line, "\n") then line else line + "\n"
  }

  /** The `stderr` text that `flushLine` builds from the lines flushed so far. */
  function Captured(lines: seq<string>): (c: string)
  {
    if lines == [] then ""
    else
      var before := Captured(lines[..|lines| - 1]);
      if |before| < StderrCaptureLimit then before + Terminated(Last(lines)) else before
  }

  predicate NonEmptyLine(line: string) {
    line != ""
  }

  /** The lines the callback has received once all of `data` has arrived and before the close. */
  function StreamedLines(data: string): seq<string> {
    Filter(CompleteLines(data), NonEmptyLine)
  }

  /** Every line the callback receives for the whole output `data`, the close included. */
  function AllStreamedLines(data: string): seq<string> {
    StreamedLines(data) + (if Trim(Residue(data)) != "" then [Trim(Residue(data))] else [])
  }

  /**
   * Splitting the accumulated buffer makes the lines independent of chunk boundaries:
   * the complete lines of `a + b` are those of `a` followed by those of the residue of `a`
   * with `b` appended, and the residue carries over the same way.
   */
  lemma CompleteLinesAppend(a: string, b: string)
    ensures CompleteLines(a + b) == CompleteLines(a) + CompleteLines(Residue(a) + b)
    ensures Residue(a + b) == Residue(Residue(a) + b)
  {
    var A := Split(a, '\n');
    var P := A[..|A| - 1];
    var R := Split(Residue(a) + b, '\n');
    SplitsOfAppend(a, b);
    assert Split(a + b, '\n') == P + R;
    AllButLastOfAppend(P, R);
    DropTrailingCrsAppend(P, R[..|R| - 1]);
  }

  /** The pieces of `a + b` are the complete pieces of `a`, then the pieces of its residue with `b`. */
  lemma SplitsOfAppend(a: string, b: string)
    ensures Split(a + b, '\n') == Split(a, '\n')[..|Split(a, '\n')| - 1] + Split(Residue(a) + b, '\n')
  {
    var A := Split(a, '\n');
    var B := Split(b, '\n');
    var r := Residue(a);
    assert r == Last(A);
    SplitAppend(a, b, '\n');
    SplitOfPieceAppend(r, b);
    AppendAssoc(A[..|A| - 1], [r + B[0]], B[1..]);
  }

  /** Text without a newline in front of `b` joins the first piece of `b`. */
  lemma SplitOfPieceAppend(r: string, b: string)
    requires '\n' !in r
    ensures Split(r + b, '\n') == [r + Split(b, '\n')[0]] + Split(b, '\n')[1..]
  {
    SplitWithout(r, '\n');
    SplitAppend(r, b, '\n');
    assert [r][..0] == [] && Last([r]) == r;
  }

  lemma AllButLastOfAppend<T>(P: seq<T>, R: seq<T>)
    requires |R| >= 1
    ensures (P + R)[..|P + R| - 1] == P + R[..|R| - 1]
    ensures Last(P + R) == Last(R)
  {
  }

  /** The callback's lines for `a + b`: those for `a`, then the non-empty complete lines of its residue with `b`. */
  lemma StreamedLinesAppend(a: string, b: string)
    ensures StreamedLines(a + b) == StreamedLines(a) + Filter(CompleteLines(Residue(a) + b), NonEmptyLine)
    ensures Residue(a + b) == Residue(Residue(a) + b)
  {
    CompleteLinesAppend(a, b);
    FilterAppend(CompleteLines(a), CompleteLines(Residue(a) + b), NonEmptyLine);
  }

  /** Flushing one more line captures it, with its newline, while the capture is below the limit. */
  lemma CapturedSnoc(lines: seq<string>, line: string)
    ensures Captured(lines + [line]) ==
              if |Captured(lines)| < StderrCaptureLimit then Captured(lines) + Terminated(line) else Captured(lines)
  {
    assert (lines + [line])[..|lines + [line]| - 1] == lines;
  }

  /** Once the capture has reached the limit, later lines leave it unchanged. */
  lemma {:induction false} CapturedFrozen(lines: seq<string>, more: seq<string>)
    requires |Captured(lines)| >= StderrCaptureLimit
    ensures Captured(lines + more) == Captured(lines)
    decreases |more|
  {
    if more == [] {
      assert lines + more == lines;
    } else {
      var front := more[..|more| - 1];
      CapturedFrozen(lines, front);
      assert (lines + more)[..|lines + more| - 1] == lines + front;
    }
  }

  /** While below the limit, the capture is every line followed by its newline. */
  lemma {:induction false} CapturedPrefix(lines: seq<string>)
    ensures |Captured(lines)| < StderrCaptureLimit ==> Captured(lines) == TerminatedAll(lines)
    ensures IsPrefixOf(Captured(lines), TerminatedAll(lines))
  {
    if lines != [] {
      var front := lines[..|lines| - 1];
      CapturedPrefix(front);
      TerminatedAllSnoc(front, Last(lines));
      assert lines == front + [Last(lines)];
      if |Captured(front)| >= StderrCaptureLimit {
        assert |Captured(lines)| >= StderrCaptureLimit;
      }
    }
  }

  function TerminatedAll(lines: seq<string>): string {
    if lines == [] then "" else TerminatedAll(lines[..|lines| - 1]) + Terminated(Last(lines))
  }

  lemma TerminatedAllSnoc(lines: seq<string>, line: string)
    ensures TerminatedAll(lines + [line]) == TerminatedAll(lines) + Terminated(line)
  {
    assert (lines + [line])[..|lines|] == lines;
  }

  predicate IsPrefixOf(a: string, b: string) {
    |a| <= |b| && b[..|a|] == a
  }

  /**
   * The per-process stderr state: `stderr` is the bounded capture, `buffer` the unterminated
   * tail, `delivered` the lines passed to the `onStderrLine` callback, in order.
   * `received` is the concatenation of every chunk so far.
   */
  class StderrCapture {
    var stderr: string
    var buffer: string
    var delivered: seq<string>
    ghost var received: string

    ghost predicate Valid()
      reads this
    {
      && buffer == Residue(received)
      && delivered == StreamedLines(received)
      && stderr == Captured(delivered)
    }

    constructor ()
      ensures Valid() && received == "" && delivered == [] && stderr == "" && buffer == ""
    {
      stderr, buffer, delivered, received := "", "", [], "";
    }

    /** `flushLine`: hand the line to the callback and capture it while below the limit. */
    method FlushLine(line: string)
      modifies this
      ensures delivered == old(delivered) + [line]
      ensures stderr == if |old(stderr)| < StderrCaptureLimit then old(stderr) + Terminated(line) else old(stderr)
      ensures buffer == old(buffer) && received == old(received)
    {
      delivered := delivered + [line];
      if |stderr| < StderrCaptureLimit {
        stderr := stderr + line;
        if !EndsWith(line, "\n") {
          stderr := stderr + "\n";
        }
      }
    }

    /** The `data` handler: split the accumulated buffer, keep the last piece, flush the non-empty lines. */
    method OnData(chunk: string)
      requires Valid()
      modifies this
      ensures Valid()
      ensures received == old(received) + chunk
    {
      StreamedLinesAppend(received, chunk);
      var lines := SplitLines(buffer + chunk);
      var complete := lines[..|lines| - 1];
      assert complete == CompleteLines(buffer + chunk);
      buffer := lines[|lines| - 1];
      received := received + chunk;
      FlushNonEmpty(complete);
    }

    /** The `for (const line of lines) if (line) flushLine(line)` loop of the `data` handler. */
    method FlushNonEmpty(complete: seq<string>)
      requires stderr == Captured(delivered)
      modifies this
      ensures delivered == old(delivered) + Filter(complete, NonEmptyLine)
      ensures stderr == Captured(delivered)
      ensures buffer == old(buffer) && received == old(received)
    {
      for i := 0 to |complete|
        invariant delivered == old(delivered) + Filter(complete[..i], NonEmptyLine)
        invariant stderr == Captured(delivered)
        invariant buffer == old(buffer) && received == old(received)
      {
        ghost var kept := Filter(complete[..i], NonEmptyLine);
        FilterSnoc(complete, i, NonEmptyLine);
        if complete[i] != "" {
          ghost var d0 := delivered;
          CapturedSnoc(d0, complete[i]);
          FlushLine(complete[i]);
          AppendAssoc(old(delivered), kept, [complete[i]]);
        }
      }
      assert complete[..|complete|] == complete;
    }

    /** The `close` handler: a non-blank unterminated tail is flushed, trimmed. */
    method OnClose()
      requires Valid()
      modifies this
      ensures delivered == AllStreamedLines(received)
      ensures stderr == Captured(delivered)
      ensures received == old(received)
    {
      var rest := Trim(buffer);
      if |rest| > 0 {
        FlushLine(rest);
        assert delivered[..|delivered| - 1] == old(delivered);
      }
    }
  }
}
