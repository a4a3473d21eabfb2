/**
 * The pure decisions `main` makes from its arguments: which leftover
 * arguments form the command to run (bad-apple.py:27), whether there is one
 * at all (bad-apple.py:28-29), and which logging level the `-v` count
 * selects (bad-apple.py:33-40).
 */
module Cli {
  import opened Wrappers

  /** The literal argument that separates the tool's own options from the command. */
  const Separator: string := "--"

  /** Python's `list.index`: the position of the first occurrence of `x`. */
  function IndexOf(s: seq<string>, x: string): (i: nat)
    requires x in s
    ensures i < |s| && s[i] == x && x !in s[..i]
  {
    if s[0] == x then 0
    else
      var j := IndexOf(s[1..], x);
      assert s[..j + 1] == [s[0]] + s[1..][..j];
      j + 1
  }

  /**
   * `toexec`: the arguments after the first `--` when there is one, otherwise
   * all leftover arguments. In the first case the result is exactly what
   * follows the first separator, and nothing before that separator is one.
   */
  function CommandOf(leftovers: seq<string>): (toexec: seq<string>)
    ensures Separator !in leftovers ==> toexec == leftovers
    ensures Separator in leftovers ==>
      var at := |leftovers| - |toexec| - 1;
      0 <= at && leftovers[at] == Separator && Separator !in leftovers[..at] &&
      toexec == leftovers[at + 1..]
  {
    if Separator in leftovers then leftovers[IndexOf(leftovers, Separator) + 1..] else leftovers
  }

  /** Whatever precedes the first separator is dropped, whatever follows it is kept verbatim. */
  lemma {:induction false} CommandAfterFirstSeparator(before: seq<string>, after: seq<string>)
    requires Separator !in before
    ensures CommandOf(before + [Separator] + after) == after
  {
    var leftovers := before + [Separator] + after;
    assert leftovers[|before|] == Separator;
    assert leftovers[|before| + 1..] == after;
  }

  /** The message `parser.error` reports, exiting with status 2, when no command is left. */
  const MissingApplication: string := "missing application to execute"

  /** `main` before calling `run`: the command to execute, or the usage error when there is none. */
  function Application(leftovers: seq<string>): (r: Result<seq<string>, string>)
    ensures r.Ok? ==> r.value == CommandOf(leftovers) && r.value != []
    ensures r.Err? ==> r.error == MissingApplication && CommandOf(leftovers) == []
  {
    var toexec := CommandOf(leftovers);
    if toexec == [] then Err(MissingApplication) else Ok(toexec)
  }

  /**
   * `main` stops with the usage error exactly when there are no leftover
   * arguments at all or the first `--` is the last one; otherwise it runs the
   * command, which is not empty.
   */
  lemma {:induction false} ApplicationMissing(leftovers: seq<string>)
    ensures Application(leftovers).Err? <==>
      leftovers == [] ||
      (leftovers[|leftovers| - 1] == Separator && Separator !in leftovers[..|leftovers| - 1])
    ensures Application(leftovers).Ok? ==> Application(leftovers).value == CommandOf(leftovers) != []
  {
    var n := |leftovers|;
    if Separator in leftovers {
      var at := IndexOf(leftovers, Separator);
      assert CommandOf(leftovers) == leftovers[at + 1..];
      if at < n - 1 {
        assert leftovers[..n - 1][at] == Separator;
      }
    } else if n > 0 {
      assert leftovers[n - 1] in leftovers;
    }
  }

  /** The levels of Python's `logging` module that `init_logging` chooses from. */
  datatype Level = Debug | Info | Warn

  /** The numeric value `logging` gives each level; messages below it are dropped. */
  function Severity(level: Level): nat
  {
    match level
    case Debug => 10
    case Info => 20
    case Warn => 30
  }

  /**
   * The level `init_logging` configures from `args.verbose`. With
   * `action="count"` and no default that attribute is `None` when `-v` is
   * absent; in Python 2 `None >= 2` and `None == 1` are both false.
   */
  function LogLevel(verbose: Option<nat>): (level: Level)
    ensures level == Debug <==> verbose.Some? && verbose.value >= 2
    ensures level == Info <==> verbose == Some(1)
    ensures level == Warn <==> verbose == None || verbose == Some(0)
  {
    match verbose
    case None => Warn
    case Some(count) => if count >= 2 then Debug else if count == 1 then Info else Warn
  }

  /** Each extra `-v` lowers the threshold or keeps it, and two or more reach the lowest. */
  lemma VerbosityIsMonotone(fewer: nat, more: nat)
    requires fewer <= more
    ensures Severity(LogLevel(Some(more))) <= Severity(LogLevel(Some(fewer)))
    ensures more >= 2 <==> LogLevel(Some(more)) == Debug
    ensures more == 1 <==> LogLevel(Some(more)) == Info
  {
  }

  /** Without `-v` the tool is as quiet as with `-v` counted zero times: warnings only. */
  lemma AbsentVerbosityIsQuietest(count: nat)
    ensures LogLevel(None) == LogLevel(Some(0)) == Warn
    ensures Severity(LogLevel(Some(count))) <= Severity(LogLevel(None))
  {
  }
}
