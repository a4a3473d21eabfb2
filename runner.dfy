/**
 * `test` (bad-apple.py:65-80): copy the lines of a range into a candidate
 * file, run the command on it, and print the line of a failing one-line
 * range. The command is an oracle from the candidate's lines to its exit
 * code; the temporary file's name and the logging calls do not affect the
 * verdict, and where the command's own output goes (module Routing) is
 * reported beside it.
 */
module Runner {
  import opened Wrappers
  import opened Lines
  import opened Splitter
  import opened Routing

  /** The command `toexec`, run on a candidate file holding these lines, gives this exit code. */
  type Command = seq<Line> -> int

  function Min(a: nat, b: nat): nat { if a <= b then a else b }

  function Max(a: nat, b: nat): nat { if a <= b then b else a }

  /**
   * `itertools.islice(infile, start, end)` over the re-seeked buffer: the
   * lines whose index is at least `start` and below `end`, in order. Inside
   * the buffer this is exactly the Python slice `lines[start:end]`.
   */
  function Slice(lines: seq<Line>, r: Range): (candidate: seq<Line>)
    ensures |candidate| == Min(Max(r.start, r.end), |lines|) - Min(r.start, |lines|)
    ensures forall k :: 0 <= k < |candidate| ==> candidate[k] == lines[r.start + k]
    ensures Proper(r) && r.end <= |lines| ==> candidate == lines[r.start..r.end]
  {
    lines[Min(r.start, |lines|)..Min(Max(r.start, r.end), |lines|)]
  }

  /** The command exits non-zero on the range's lines. */
  predicate Fails(lines: seq<Line>, command: Command, r: Range)
  {
    command(Slice(lines, r)) != 0
  }

  /**
   * What one call of `test` yields: its return value, the line it printed,
   * if any, and what it passed to `subprocess.call` for the command's
   * standard output and standard error.
   */
  datatype Outcome = Outcome(passed: bool, printed: Option<Line>, stdout: Sink, stderr: Sink)

  /** `print line.strip()` reached with `line` never assigned (an `UnboundLocalError`). */
  datatype TestError = UnboundLine

  /**
   * One call of `test`. It passes exactly when the command exits 0 on the
   * range's lines, and it prints the stripped line `start` exactly when a
   * one-line range fails. The variable it prints is the last line the copy
   * loop wrote, which for a one-line range inside the buffer is line `start`;
   * a failing one-line range past the end of the buffer has no such line and
   * raises instead. The command's streams are routed as the code's
   * `stdout` and `stderr` route them for this range, quirks included
   * (`StdoutSink` and `StderrSink`; see the findings in the README).
   */
  method Test(lines: seq<Line>, flags: Flags, rows: Range, command: Command) returns (res: Result<Outcome, TestError>)
    ensures res.Err? <==> Fails(lines, command, rows) && Width(rows) == 1 && rows.start >= |lines|
    ensures res.Ok? ==> res.value.passed == !Fails(lines, command, rows)
    ensures res.Ok? ==>
      res.value.printed == if Fails(lines, command, rows) && Width(rows) == 1 then Some(Strip(lines[rows.start])) else None
    ensures res.Ok? ==> res.value.stdout == StdoutSink(flags, rows) && res.value.stderr == StderrSink(flags, rows)
  {
    var smallerfile: seq<Line> := [];
    var line: Option<Line> := None;
    var i := rows.start;
    while i < rows.end && i < |lines|
      invariant i == rows.start || (rows.start < i <= rows.end && i <= |lines|)
      invariant smallerfile == if i == rows.start then [] else lines[rows.start..i]
      invariant line == if i == rows.start then None else Some(lines[i - 1])
      decreases rows.end - i
    {
      line := Some(lines[i]);
      smallerfile := smallerfile + [lines[i]];
      i := i + 1;
    }
    assert smallerfile == Slice(lines, rows);
    var out := StdoutSink(flags, rows);
    var err := StderrSink(flags, rows);
    var exitcode := command(smallerfile);
    if exitcode != 0 && rows.end - rows.start == 1 {
      match line
      case None =>
        return Err(UnboundLine);
      case Some(l) =>
        return Ok(Outcome(false, Some(Strip(l)), out, err));
    }
    return Ok(Outcome(exitcode == 0, None, out, err));
  }
}
