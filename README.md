# bad-apple, modelled in Dafny

`bad-apple.py` finds the lines of an input file that make a command fail.
It copies its input into a buffer and tests the whole range of lines. It
then bisects every failing range: both halves go on a LIFO work list, and
the search recurses until single lines are left. A failing one-line range
is printed, stripped. The exit status is 1 when any tested range failed
and 0 otherwise.

The model follows the script's structure, one module per concern:

- `Wrappers`: `Option` and `Result`.
- `Lines`: a line of input, Python 2's `str.strip()` and `copy`, an
  imperative loop that counts the lines.
- `Cli`: the `toexec` expression, the missing-application error and the
  `init_logging` level choice.
- `Splitter`: half-open ranges and the split at `intermediate`.
- `Routing`: the `stdout` and `stderr` decisions. The code as written sits
  beside the evidently intended version.
- `Runner`: `test` as a method with a copy loop over the buffer. The
  external command is an oracle `seq<Line> -> int` from the candidate's
  lines to its exit code.
- `Driver`: `run` as a method over the work-list stack.
  - `Tested` is the same search written as recursion, the order in which
    the stack visits ranges. `Reports` gives what is printed along it.
  - `Run`'s contract ties the method to these functions. The lemmas prove
    what the search guarantees about them.
- `Scenarios`: a whole run on five lines of which the third is bad.

Where the behaviour follows from the code rather than from the tool's
description, the model follows the code:

- An empty input is still tested once, on the empty range `(0, 0)`. It
  is not skipped.
- `/` in Python 2 floors on integers; since widths are non-negative,
  Dafny's division agrees.
- In `test`, `line` is the last line the copy loop wrote. For a one-line
  range inside the buffer that is line `start`. For a failing one-line
  range past the end of the buffer it was never assigned, and Python
  raises `UnboundLocalError`. `Test` returns that case as an error, and
  `Run` never reaches it.
- When a range is wide and `-m` is absent, the script passes `None` to
  `subprocess.call`. That means "inherit the tool's stream", not
  "suppress" (see Findings).
- `args.verbose` (`action="count"`, no default) is `None` without `-v`.
  Python 2 orders `None` below every number, so the level is WARN.

## Model

| member | source | states |
|---|---|---|
| Cli.IndexOf | bad-apple.py:27 | `leftovers.index('--')` is the first position holding the separator: it holds it and nothing before it does |
| Cli.CommandOf | bad-apple.py:27 | without a `--` the command is all leftover arguments; with one, it is exactly what follows the first `--`, and no earlier argument is a separator |
| Cli.CommandAfterFirstSeparator | bad-apple.py:27 | for any arguments without a separator, then `--`, then anything, the command is exactly the part after that `--`, whatever it contains |
| Cli.ApplicationMissing | bad-apple.py:27-30 | `main` reports "missing application to execute" exactly when there are no leftover arguments or the first `--` is the last one; otherwise it runs the command, which is non-empty |
| Cli.Application | bad-apple.py:27-30 | `main` either runs the non-empty `toexec` or stops with "missing application to execute", the latter exactly when `toexec` is empty |
| Cli.LogLevel | bad-apple.py:33-40 | `init_logging` picks DEBUG exactly for a count of at least 2, INFO exactly for a count of 1, and WARN exactly when `-v` is absent or counted 0 |
| Cli.VerbosityIsMonotone | bad-apple.py:33-40 | more `-v` never raises the logging threshold; the count selects DEBUG exactly when it is at least 2 and INFO exactly when it is 1 |
| Cli.AbsentVerbosityIsQuietest | bad-apple.py:33-40 | without `-v` (`None`) the level is WARN, the same as a count of 0, and no count is quieter |
| Splitter.Mid | bad-apple.py:59 | `intermediate` lies in the range, strictly inside it when the range has more than one line, and halves the width rounding down |
| Splitter.SplitPartitions | bad-apple.py:58-60 | a range of k > 1 lines splits into adjacent, non-empty, disjoint halves of floor(k/2) and ceil(k/2) lines that together cover exactly the original lines |
| Lines.StripLeft | bad-apple.py:79 | the leading part of `strip()`: no longer than its input, and not starting with whitespace |
| Lines.StripRight | bad-apple.py:79 | the trailing part of `strip()`: no longer than its input, and not ending with whitespace |
| Lines.StripText | bad-apple.py:79 | `str.strip()` on a line's text: never longer than the text, never ending with whitespace |
| Lines.Strip | bad-apple.py:79 | `line.strip()`: a line no longer than the original whose text does not end with whitespace |
| Lines.StripLeftSpec | bad-apple.py:79 | the left strip removes a prefix of whitespace only, and what remains does not start with whitespace |
| Lines.StripRightSpec | bad-apple.py:79 | the right strip removes a suffix of whitespace only, and what remains does not end with whitespace |
| Lines.StripTextSpec | bad-apple.py:79 | `line.strip()` is an infix of the line, everything cut from either side is whitespace, and the result neither starts nor ends with whitespace |
| Lines.StripTerminated | bad-apple.py:79 | a line whose text has no surrounding whitespace of its own is printed without its newline and otherwise unchanged |
| Lines.Copy | bad-apple.py:97-102 | `copy` writes every source line, unchanged and in order, after what the destination held, and returns the number of lines |
| Runner.Slice | bad-apple.py:68 | `islice` over the re-seeked buffer yields the lines at index `start` onward, in order, stopping at `end` or at the end of the buffer; inside the buffer this is exactly `lines[start:end]` |
| Runner.Test | bad-apple.py:65-80 | `test` runs the command on exactly the range's lines. It passes exactly when the exit code is 0. It prints the stripped line `start` exactly when a one-line range fails. It raises exactly when such a range lies past the buffer. It hands the command the streams the as-written `stdout(args, rows)` and `stderr(args, rows)` return, quirks included |
| Routing.StderrSink | bad-apple.py:83-86 | `stderr` as written never hides the command's errors: they always reach the tool's standard error, inherited on wide ranges without `-m` |
| Routing.StdoutSink | bad-apple.py:89-94 | `stdout` as written never returns the tool's standard output; the command's output reaches standard error unless the range is wide without `-m`, when it is inherited |
| Routing.StdoutFlagIgnored | bad-apple.py:92-94 | with `-s` on a one-line range the code forwards output to standard error, where the intended version forwards it to standard output |
| Routing.QuietRangeIsNotSilenced | bad-apple.py:83-94 | on a four-line range without `-m`, both of the command's streams still reach the tool's streams; the intended version shows nothing |
| Routing.IntendedRouting | bad-apple.py:83-94 | as the options describe: wide ranges without `-m` show nothing; otherwise errors go to standard error, and output goes to standard output exactly when `-s` is given |
| Routing.AsWrittenAgreesWithoutFlags | bad-apple.py:83-94 | on ranges that are not silenced and without `-s`, the code and the intended routing coincide |
| Driver.Run | bad-apple.py:43-62 | `run` tests exactly the ranges of `Tested`, in that order, all inside the buffer. It prints exactly `Reports` of them, returns 1 exactly when one of them failed and 0 otherwise, and runs at most 2n - 1 tests on n >= 1 lines |
| Driver.ReportsAppend | bad-apple.py:56-79 | what testing one sequence of ranges and then another prints is the first's output followed by the second's |
| Driver.ReportsSnoc | bad-apple.py:56-79 | testing one more range appends exactly that range's report to the output |
| Driver.AnyFailedSnoc | bad-apple.py:56-57 | after one more test, `haderrors` is set exactly when it was set before or that range failed |
| Driver.TestedShape | bad-apple.py:51-60 | the search order `Tested`: it starts at the initial range, goes further exactly when that range fails and is wider than one line, and then tests the lower half next because it is pushed last |
| Driver.TestedBounds | bad-apple.py:51-60 | the search tests the initial range first, then only non-empty, proper ranges inside it, and at most 2w - 1 ranges for a width w >= 1 (1 for the empty range), so the loop terminates |
| Driver.TestedMember | bad-apple.py:51-60 | every tested range lies inside the initial range and, unless it is the initial range, is non-empty |
| Driver.CoarserRangesFailed | bad-apple.py:56-60 | every tested range that strictly contains another tested range failed, so a reported line's enclosing ranges at every level all failed |
| Driver.PassingRangeNotSplit | bad-apple.py:56-60 | no range strictly inside a passing tested range is ever tested |
| Driver.ReportsExactly | bad-apple.py:78-79 | a line is printed iff some tested one-line range fails, and what is printed is that range's line, stripped |
| Driver.AlwaysFailingReportsEveryLine | bad-apple.py:53-79 | when the command always fails, every line of the range is printed exactly once, stripped, in input order (lower half first) |
| Driver.AlwaysFailingTestsEveryLine | bad-apple.py:53-60 | when the command always fails, every one-line range `(i, i+1)` inside the range is tested |
| Driver.AlwaysFailingTestCount | bad-apple.py:51-60 | when the command always fails, a range of w >= 1 lines takes exactly 2w - 1 tests, so the bound of `Run` is reached |
| Driver.PassingInputTestedOnce | bad-apple.py:51-62 | when the command passes on the initial range, exactly that one test runs, nothing is printed and no failure is recorded (exit code 0) |
| Driver.EmptyInputTestedOnce | bad-apple.py:46-62 | an empty input is still tested once on the empty range; nothing is printed, and the exit code is 1 exactly when the command fails on an empty file |
| Scenarios.Verdicts | bad-apple.py:68-69 | with one bad line at index 2 of five, exactly the tested ranges holding it fail |
| Scenarios.OneBadLineTrace | bad-apple.py:51-60 | on such input the ranges are tested in the order (0,5), (0,2), (2,5), (2,3), (3,5) |
| Scenarios.QuietPrefix | bad-apple.py:78-79 | while ranges wider than one line are tested, nothing is printed |
| Scenarios.OneBadLineReport | bad-apple.py:78-79 | on such input only the bad line is printed, stripped |
| Scenarios.OneBadLineExitsOne | bad-apple.py:57-62 | on such input the run exits 1 |
| Scenarios.SampleHasOneBadLine | bad-apple.py:68-76 | five concrete lines with "BAD" third, under a command that fails on candidates holding that line, are an instance of the one-bad-line scenario |
| Scenarios.SampleBadLineStripped | bad-apple.py:79 | the concrete bad line "BAD\n" is printed as "BAD" |
| Scenarios.BadLinePrinted | bad-apple.py:43-79 | on those five concrete lines the run tests the five ranges above and prints "BAD" alone |

## Left out

- Argument parsing with `argparse` (bad-apple.py:12-24) is not modelled.
  The model takes the leftover arguments, the `-s`/`-m` flags, the `-v`
  count and the input lines as parameters.
- `parser.error` is not modelled as exiting the process. `Cli.Application`
  returns its message as an error value.
- `logging.basicConfig` and every logging call are not modelled. Only the
  chosen level is.
- Temporary files (`NamedTemporaryFile`, `write`, `flush`, `seek`) are not
  modelled as files. The buffer is a `seq<Line>`, re-reading it from
  offset 0 is reading that sequence again, and the candidate file is a new
  sequence.
- The candidate file's name (appended to `toexec` at bad-apple.py:71) is
  not modelled. The command is an oracle on the candidate's lines alone.
- `subprocess.call` is not modelled. It is the oracle's exit code, and the
  sinks `Test` reports are not fed back into the oracle.
- `print` and `sys.exit` are not modelled as I/O. Printed lines are the
  `printed` sequence of `Run`, and the exit status is `Run`'s `exitCode`.
- Runner.Test: its `Err` result stands for the `UnboundLocalError`. Which
  streams were already set up before the exception is not captured.
- Driver.Reports describes what is printed only for ranges inside the
  buffer, the only ones `run` tests. For other ranges it prints nothing,
  where `test` would raise.
- The command is assumed to start. If `subprocess.call` cannot start it,
  it raises `OSError` and `run` aborts. The oracle always returns an exit
  code.
- The command is assumed deterministic. The oracle gives the same verdict
  whenever it sees the same candidate lines, while a real command may not.
- Python 2 lines are byte strings. The model uses `seq<char>`, so
  `strip()` is stated over six whitespace characters and not over bytes.
- Routing: the destination streams are not modelled as open files. Only
  which stream receives what is.

## Findings

| source | as written | input that shows it | evidently intended | confidence | as-written member | corrected member |
|---|---|---|---|---|---|---|
| bad-apple.py:92-94 | the `-s` branch evaluates `sys.stdout` without returning it, so `stdout` always returns `sys.stderr` for ranges it does not silence | `-s` given, `-m` absent, range `(0, 1)`: the command's output still goes to standard error | return `sys.stdout` when `-s` is given, as its help text says ("Don't forward stdout to stderr") | high, not executed | Routing.StdoutSink, Routing.StdoutFlagIgnored | Routing.StdoutSinkIntended, Routing.IntendedRouting |
| bad-apple.py:84-85, 90-91 | for ranges wider than one line without `-m`, both functions return `None`, which `subprocess.call` treats as "inherit the tool's stream" | `-m` absent, range `(0, 4)`: the command's output and errors appear on the tool's stdout and stderr | hide the command's output on multi-row ranges unless `-m` is given, as its help text says | medium, not executed | Routing.StderrSink, Routing.StdoutSink, Routing.QuietRangeIsNotSilenced | Routing.StderrSinkIntended, Routing.StdoutSinkIntended, Routing.IntendedRouting |
