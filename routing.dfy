/**
 * Where `test` sends the tested command's standard output and standard
 * error (`stdout` and `stderr`, bad-apple.py:83-94), as a small policy
 * value. `subprocess.call` takes `None` to mean "do not redirect": the
 * child inherits the tool's own stream. The functions below are the code
 * as written; the `Intended` ones are the behaviour the option help texts
 * describe (see the findings in the README).
 */
module Routing {
  import opened Wrappers
  import opened Splitter

  /** The two options that shape routing: `-s` and `-m`. */
  datatype Flags = Flags(stdoutToStdout: bool, multiRowOutput: bool)

  /** A standard stream; used both for the child's streams and the tool's. */
  datatype Stream = StdOut | StdErr

  /** What is passed to `subprocess.call` for one of the child's streams. */
  datatype Sink =
    | Inherit           // `None`: the child writes to the tool's stream of the same name
    | Forward(to: Stream) // `sys.stdout` or `sys.stderr`
    | Discard           // a null device; the code never produces this

  /** The tool's stream on which what the child writes to `child` appears, if any. */
  function Destination(child: Stream, sink: Sink): Option<Stream>
  {
    match sink
    case Inherit => Some(child)
    case Forward(to) => Some(to)
    case Discard => None
  }

  /** The range is wider than one line and `-m` was not given: the case the code means to silence. */
  predicate Quiet(flags: Flags, rows: Range)
  {
    Width(rows) > 1 && !flags.multiRowOutput
  }

  /** `stderr(args, rows)` as written: whatever it returns, the child's errors reach the tool's error stream. */
  function StderrSink(flags: Flags, rows: Range): (sink: Sink)
    ensures Destination(StdErr, sink) == Some(StdErr)
    ensures sink != Discard
  {
    if Quiet(flags, rows) then Inherit else Forward(StdErr)
  }

  /**
   * `stdout(args, rows)` as written. Line 93 evaluates `sys.stdout` without
   * returning it, so `-s` has no effect: the result is never the tool's
   * standard output, and the child's output lands on the tool's error stream
   * unless the range is quiet, when it is inherited.
   */
  function StdoutSink(flags: Flags, rows: Range): (sink: Sink)
    ensures sink != Forward(StdOut) && sink != Discard
    ensures Destination(StdOut, sink) == if Quiet(flags, rows) then Some(StdOut) else Some(StdErr)
  {
    if Quiet(flags, rows) then Inherit else Forward(StdErr)
  }

  /** The `-s` flag is lost: a one-line range with `-s` still forwards output to standard error. */
  lemma StdoutFlagIgnored()
    ensures StdoutSink(Flags(true, false), Range(0, 1)) == Forward(StdErr)
    ensures StdoutSinkIntended(Flags(true, false), Range(0, 1)) == Forward(StdOut)
  {
  }

  /** A quiet four-line range does not silence the command: both of its streams reach the tool's. */
  lemma QuietRangeIsNotSilenced()
    ensures Quiet(Flags(false, false), Range(0, 4))
    ensures Destination(StdOut, StdoutSink(Flags(false, false), Range(0, 4))) == Some(StdOut)
    ensures Destination(StdErr, StderrSink(Flags(false, false), Range(0, 4))) == Some(StdErr)
    ensures Destination(StdOut, StdoutSinkIntended(Flags(false, false), Range(0, 4))) == None
    ensures Destination(StdErr, StderrSinkIntended(Flags(false, false), Range(0, 4))) == None
  {
  }

  /** `stderr` as the `-m` help text intends: discard on quiet ranges, else forward to standard error. */
  function StderrSinkIntended(flags: Flags, rows: Range): Sink
  {
    if Quiet(flags, rows) then Discard else Forward(StdErr)
  }

  /** `stdout` as the `-s` and `-m` help texts intend. */
  function StdoutSinkIntended(flags: Flags, rows: Range): Sink
  {
    if Quiet(flags, rows) then Discard
    else if flags.stdoutToStdout then Forward(StdOut)
    else Forward(StdErr)
  }

  /**
   * The intended policy: a quiet range shows nothing on either stream of the
   * tool; otherwise errors go to standard error and output goes to standard
   * output exactly when `-s` is given.
   */
  lemma IntendedRouting(flags: Flags, rows: Range)
    ensures Quiet(flags, rows) ==>
      Destination(StdOut, StdoutSinkIntended(flags, rows)) == None &&
      Destination(StdErr, StderrSinkIntended(flags, rows)) == None
    ensures !Quiet(flags, rows) ==>
      Destination(StdErr, StderrSinkIntended(flags, rows)) == Some(StdErr) &&
      (Destination(StdOut, StdoutSinkIntended(flags, rows)) == Some(StdOut) <==> flags.stdoutToStdout)
  {
  }

  /** The two versions agree on every stream that is not quiet and where `-s` is off. */
  lemma AsWrittenAgreesWithoutFlags(flags: Flags, rows: Range)
    requires !Quiet(flags, rows) && !flags.stdoutToStdout
    ensures StdoutSink(flags, rows) == StdoutSinkIntended(flags, rows)
    ensures StderrSink(flags, rows) == StderrSinkIntended(flags, rows)
  {
  }
}
