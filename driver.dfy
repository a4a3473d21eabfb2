/**
 * `run` (bad-apple.py:43-62): the bisection work list. The method `Run`
 * keeps the list `backlog` as a stack exactly as the source does; the
 * function `Tested` is the same search written as recursion, the order in
 * which the stack visits ranges (a range, then everything below its lower
 * half, then everything below its upper half). What `Run` prints and returns
 * is stated through `Tested`, and the lemmas below are about `Tested`.
 */
module Driver {
  import opened Wrappers
  import opened Lines
  import opened Splitter
  import opened Runner
  import opened Routing

  /** Every range in `t` is proper and lies within a buffer of `n` lines. */
  predicate Within(n: nat, t: seq<Range>)
  {
    forall k :: 0 <= k < |t| ==> Proper(t[k]) && t[k].end <= n
  }

  /**
   * The ranges a search started at `r` tests, in the order it tests them:
   * `r` first, and more than `r` exactly when `r` fails and is wider than
   * one line.
   */
  function Tested(lines: seq<Line>, command: Command, r: Range): (t: seq<Range>)
    requires Proper(r)
    decreases Width(r)
  {
    [r] + if Fails(lines, command, r) && Width(r) > 1
          then Tested(lines, command, Lower(r)) + Tested(lines, command, Upper(r))
          else []
  }

  /** What the ranges still on a stack will test, the top of the stack first. */
  function Pending(lines: seq<Line>, command: Command, backlog: seq<Range>): seq<Range>
    requires forall k :: 0 <= k < |backlog| ==> Proper(backlog[k])
  {
    if backlog == [] then []
    else Tested(lines, command, backlog[|backlog| - 1]) + Pending(lines, command, backlog[..|backlog| - 1])
  }

  /**
   * The most tests a search from a range of this width can run: 2w - 1 for
   * w >= 1 lines, and 1 for the empty range, which is still tested once.
   */
  function MaxTests(r: Range): nat
  {
    if Width(r) <= 0 then 1 else 2 * Width(r) - 1
  }

  /** The sum of `MaxTests` over a stack; it bounds the tests still to come and drops at every step. */
  function Potential(backlog: seq<Range>): nat
  {
    if backlog == [] then 0 else Potential(backlog[..|backlog| - 1]) + MaxTests(backlog[|backlog| - 1])
  }

  /**
   * What `test` prints for one tested range whose line exists; `run` only
   * tests such ranges, so the case where `test` fails for want of a line
   * never arises here.
   */
  function ReportOf(lines: seq<Line>, command: Command, r: Range): seq<Line>
  {
    if Fails(lines, command, r) && Width(r) == 1 && r.start < |lines| then [Strip(lines[r.start])] else []
  }

  /** Everything printed while testing the ranges of `t`, in order. */
  function Reports(lines: seq<Line>, command: Command, t: seq<Range>): seq<Line>
  {
    if t == [] then [] else ReportOf(lines, command, t[0]) + Reports(lines, command, t[1..])
  }

  /** Some range of `t` failed: the final value of `haderrors`. */
  predicate AnyFailed(lines: seq<Line>, command: Command, t: seq<Range>)
  {
    exists k :: 0 <= k < |t| && Fails(lines, command, t[k])
  }

  /**
   * `run(args, toexec)` on an input of these lines (`args.input`), with the
   * routing options `flags` and the command `toexec`: copies the input into
   * the buffer, then pops, tests and splits ranges until the stack is empty.
   * `tested` lists the ranges in the order they were tested (the "Testing
   * lines" log), `printed` the stripped failing lines in the order printed.
   * The exit code is 1 exactly when some tested range failed, and at most
   * 2n - 1 tests run on n >= 1 lines.
   */
  method Run(input: seq<Line>, flags: Flags, command: Command) returns (exitCode: int, printed: seq<Line>, tested: seq<Range>)
    ensures tested == Tested(input, command, Range(0, |input|))
    ensures Within(|input|, tested)
    ensures printed == Reports(input, command, tested)
    ensures exitCode == (if AnyFailed(input, command, tested) then 1 else 0)
    ensures |tested| <= MaxTests(Range(0, |input|))
  {
    var haderrors := false;
    var alllines, nlines := Copy(input, []);
    assert alllines == input;
    var backlog := [Range(0, nlines)];
    printed, tested := [], [];
    while backlog != []
      invariant Within(nlines, backlog)
      invariant tested + Pending(alllines, command, backlog) == Tested(alllines, command, Range(0, nlines))
      invariant printed == Reports(alllines, command, tested)
      invariant haderrors == AnyFailed(alllines, command, tested)
      invariant |tested| + Potential(backlog) <= MaxTests(Range(0, nlines))
      decreases Potential(backlog)
    {
      var rows := backlog[|backlog| - 1];
      var rest := backlog[..|backlog| - 1];
      StepWithin(alllines, command, backlog);
      StepPotential(alllines, command, backlog);
      StepPending(alllines, command, tested, backlog);
      backlog := rest;
      var res := Test(alllines, flags, rows, command);
      assert res.Ok?;
      assert (if res.value.printed.Some? then [res.value.printed.value] else []) == ReportOf(alllines, command, rows);
      if res.value.printed.Some? {
        printed := printed + [res.value.printed.value];
      }
      if !res.value.passed {
        haderrors := true;
        if rows.end - rows.start > 1 {
          var intermediate := rows.start + (rows.end - rows.start) / 2;
          assert Range(intermediate, rows.end) == Upper(rows) && Range(rows.start, intermediate) == Lower(rows);
          backlog := backlog + [Range(intermediate, rows.end), Range(rows.start, intermediate)];
        }
      }
      assert backlog == Next(alllines, command, rest, rows);
      ReportsSnoc(alllines, command, tested, rows);
      AnyFailedSnoc(alllines, command, tested, rows);
      tested := tested + [rows];
    }
    exitCode := if haderrors then 1 else 0;
    TestedBounds(input, command, Range(0, |input|));
  }

  /** The stack after the top range `rows` has been popped and tested, `rest` being the stack below it. */
  ghost function Next(lines: seq<Line>, command: Command, rest: seq<Range>, rows: Range): seq<Range>
    requires Proper(rows)
  {
    if Fails(lines, command, rows) && Width(rows) > 1 then rest + [Upper(rows), Lower(rows)] else rest
  }

  /** Every range on the stack after one iteration is proper and inside the buffer. */
  lemma StepWithin(lines: seq<Line>, command: Command, backlog: seq<Range>)
    requires backlog != [] && Within(|lines|, backlog)
    ensures Within(|lines|, Next(lines, command, backlog[..|backlog| - 1], backlog[|backlog| - 1]))
  {
  }

  /** One iteration lowers the potential of the stack by at least one. */
  lemma StepPotential(lines: seq<Line>, command: Command, backlog: seq<Range>)
    requires backlog != [] && Within(|lines|, backlog)
    ensures Potential(Next(lines, command, backlog[..|backlog| - 1], backlog[|backlog| - 1])) + 1 <= Potential(backlog)
  {
    var rows := backlog[|backlog| - 1];
    var rest := backlog[..|backlog| - 1];
    if Fails(lines, command, rows) && Width(rows) > 1 {
      var pushed := rest + [Upper(rows), Lower(rows)];
      assert pushed[..|pushed| - 1] == rest + [Upper(rows)];
      assert (rest + [Upper(rows)])[..|rest|] == rest;
    }
  }

  /**
   * One iteration moves the popped range to the tested ones and leaves the
   * search still to come unchanged.
   */
  lemma StepPending(lines: seq<Line>, command: Command, tested: seq<Range>, backlog: seq<Range>)
    requires backlog != [] && Within(|lines|, backlog)
    ensures tested + Pending(lines, command, backlog) ==
      (tested + [backlog[|backlog| - 1]]) + Pending(lines, command, Next(lines, command, backlog[..|backlog| - 1], backlog[|backlog| - 1]))
  {
    var rows := backlog[|backlog| - 1];
    var rest := backlog[..|backlog| - 1];
    var p := Pending(lines, command, rest);
    assert Pending(lines, command, backlog) == Tested(lines, command, rows) + p;
    if Fails(lines, command, rows) && Width(rows) > 1 {
      var pushed := rest + [Upper(rows), Lower(rows)];
      var tl, tu := Tested(lines, command, Lower(rows)), Tested(lines, command, Upper(rows));
      assert pushed[..|pushed| - 1] == rest + [Upper(rows)];
      assert (rest + [Upper(rows)])[..|rest|] == rest;
      assert Pending(lines, command, rest + [Upper(rows)]) == tu + p;
      assert Pending(lines, command, pushed) == tl + (tu + p);
      assert Tested(lines, command, rows) == [rows] + (tl + tu);
      assert tested + (([rows] + (tl + tu)) + p) == (tested + [rows]) + (tl + (tu + p));
    } else {
      assert Tested(lines, command, rows) == [rows];
      assert tested + ([rows] + p) == (tested + [rows]) + p;
    }
  }

  /** Testing one more range prints what that range prints. */
  lemma ReportsSnoc(lines: seq<Line>, command: Command, t: seq<Range>, r: Range)
    ensures Reports(lines, command, t + [r]) == Reports(lines, command, t) + ReportOf(lines, command, r)
  {
    ReportsAppend(lines, command, t, [r]);
    assert [r][1..] == [];
  }

  /** Testing one more range sets `haderrors` exactly when that range fails or it was set. */
  lemma AnyFailedSnoc(lines: seq<Line>, command: Command, t: seq<Range>, r: Range)
    ensures AnyFailed(lines, command, t + [r]) <==> AnyFailed(lines, command, t) || Fails(lines, command, r)
  {
    if Fails(lines, command, r) {
      assert (t + [r])[|t|] == r;
    }
    if AnyFailed(lines, command, t) {
      var k :| 0 <= k < |t| && Fails(lines, command, t[k]);
      assert (t + [r])[k] == t[k];
    }
  }

  /** `q` covers every line of `p` and at least one more position: `q` is a coarser range than `p`. */
  predicate StrictlyContains(q: Range, p: Range)
  {
    q.start <= p.start && p.end <= q.end && q != p
  }

  /**
   * A search from `r` tests `r` first and then only proper, non-empty
   * ranges inside `r`, and runs at most `MaxTests(r)` tests.
   */
  lemma {:induction false} TestedBounds(lines: seq<Line>, command: Command, r: Range)
    requires Proper(r)
    ensures var t := Tested(lines, command, r);
      |t| >= 1 && t[0] == r && |t| <= MaxTests(r) &&
      (forall k :: 0 <= k < |t| ==> Proper(t[k]) && r.start <= t[k].start && t[k].end <= r.end) &&
      (forall k :: 0 < k < |t| ==> t[k].start < t[k].end)
    decreases Width(r)
  {
    var t := Tested(lines, command, r);
    if Fails(lines, command, r) && Width(r) > 1 {
      SplitPartitions(r);
      TestedBounds(lines, command, Lower(r));
      TestedBounds(lines, command, Upper(r));
      var tl, tu := Tested(lines, command, Lower(r)), Tested(lines, command, Upper(r));
      assert t == [r] + (tl + tu);
      forall k | 0 < k < |t|
        ensures Proper(t[k]) && r.start <= t[k].start && t[k].end <= r.end && t[k].start < t[k].end
      {
        if k <= |tl| {
          assert t[k] == tl[k - 1];
        } else {
          assert t[k] == tu[k - 1 - |tl|];
        }
      }
    }
  }

  /**
   * The search from `r` tests `r` first; it tests more exactly when `r`
   * fails and is wider than one line, and then the lower half comes next,
   * because it is pushed last (LIFO).
   */
  lemma TestedShape(lines: seq<Line>, command: Command, r: Range)
    requires Proper(r)
    ensures |Tested(lines, command, r)| >= 1 && Tested(lines, command, r)[0] == r
    ensures |Tested(lines, command, r)| > 1 <==> Fails(lines, command, r) && Width(r) > 1
    ensures |Tested(lines, command, r)| > 1 ==> Tested(lines, command, r)[1] == Lower(r)
  {
    if Fails(lines, command, r) && Width(r) > 1 {
      SplitPartitions(r);
      TestedBounds(lines, command, Lower(r));
      TestedBounds(lines, command, Upper(r));
    }
  }

  /** Every range a search from `r` tests, other than `r`, is non-empty and inside `r`. */
  lemma TestedMember(lines: seq<Line>, command: Command, r: Range, x: Range)
    requires Proper(r) && x in Tested(lines, command, r)
    ensures Proper(x) && r.start <= x.start && x.end <= r.end
    ensures x == r || x.start < x.end
  {
    TestedBounds(lines, command, r);
  }

  /**
   * Every coarser range tested around a tested range failed: a range is
   * only split, and its parts only tested, after it failed. In particular a
   * reported line's enclosing ranges at every level all failed.
   */
  lemma {:induction false} CoarserRangesFailed(lines: seq<Line>, command: Command, r: Range, p: Range, q: Range)
    requires Proper(r)
    requires p in Tested(lines, command, r) && q in Tested(lines, command, r)
    requires StrictlyContains(q, p)
    ensures Fails(lines, command, q)
    decreases Width(r)
  {
    TestedMember(lines, command, r, p);
    TestedMember(lines, command, r, q);
    if Fails(lines, command, r) && Width(r) > 1 {
      SplitPartitions(r);
      var tl, tu := Tested(lines, command, Lower(r)), Tested(lines, command, Upper(r));
      assert Tested(lines, command, r) == [r] + (tl + tu);
      if q != r {
        assert p != r;
        if q in tl {
          TestedMember(lines, command, Lower(r), q);
          if p in tu {
            TestedMember(lines, command, Upper(r), p);
          }
          CoarserRangesFailed(lines, command, Lower(r), p, q);
        } else {
          TestedMember(lines, command, Upper(r), q);
          if p in tl {
            TestedMember(lines, command, Lower(r), p);
          }
          CoarserRangesFailed(lines, command, Upper(r), p, q);
        }
      }
    }
  }

  /** A range that passes is never explored further: nothing finer inside it is tested. */
  lemma PassingRangeNotSplit(lines: seq<Line>, command: Command, r: Range, q: Range)
    requires Proper(r) && q in Tested(lines, command, r) && !Fails(lines, command, q)
    ensures forall p :: p in Tested(lines, command, r) ==> !StrictlyContains(q, p)
  {
    forall p | p in Tested(lines, command, r)
      ensures !StrictlyContains(q, p)
    {
      if StrictlyContains(q, p) {
        CoarserRangesFailed(lines, command, r, p, q);
      }
    }
  }

  /** What testing `a` and then `b` prints is what `a` prints followed by what `b` prints. */
  lemma {:induction false} ReportsAppend(lines: seq<Line>, command: Command, a: seq<Range>, b: seq<Range>)
    ensures Reports(lines, command, a + b) == Reports(lines, command, a) + Reports(lines, command, b)
    decreases |a|
  {
    if a == [] {
      assert a + b == b;
    } else {
      assert (a + b)[1..] == a[1..] + b;
      ReportsAppend(lines, command, a[1..], b);
    }
  }

  /**
   * A line is printed exactly when some tested range is that single line
   * and fails; what is printed is that line, stripped.
   */
  lemma {:induction false} ReportsExactly(lines: seq<Line>, command: Command, t: seq<Range>, x: Line)
    requires Within(|lines|, t)
    ensures x in Reports(lines, command, t) <==>
      exists k :: 0 <= k < |t| && Width(t[k]) == 1 && Fails(lines, command, t[k]) && x == Strip(lines[t[k].start])
    decreases |t|
  {
    if t != [] {
      var t' := t[1..];
      ReportsExactly(lines, command, t', x);
      if x in Reports(lines, command, t') {
        var k :| 0 <= k < |t'| && Width(t'[k]) == 1 && Fails(lines, command, t'[k]) && x == Strip(lines[t'[k].start]);
        assert t[k + 1] == t'[k];
      } else if x in ReportOf(lines, command, t[0]) {
        assert Width(t[0]) == 1 && Fails(lines, command, t[0]) && x == Strip(lines[t[0].start]);
      }
      if exists k :: 0 <= k < |t| && Width(t[k]) == 1 && Fails(lines, command, t[k]) && x == Strip(lines[t[k].start]) {
        var k :| 0 <= k < |t| && Width(t[k]) == 1 && Fails(lines, command, t[k]) && x == Strip(lines[t[k].start]);
        if k > 0 {
          assert t'[k - 1] == t[k];
        }
      }
    }
  }

  /** The stripped form of each line, in order. */
  function StripAll(s: seq<Line>): (r: seq<Line>)
    ensures |r| == |s| && forall k :: 0 <= k < |s| ==> r[k] == Strip(s[k])
  {
    seq(|s|, k requires 0 <= k < |s| => Strip(s[k]))
  }

  /** Stripping the lines of two adjacent slices is stripping the lines of their union. */
  lemma StripAllSplit(lines: seq<Line>, a: nat, b: nat, c: nat)
    requires a <= b <= c <= |lines|
    ensures StripAll(lines[a..c]) == StripAll(lines[a..b]) + StripAll(lines[b..c])
  {
    assert lines[a..c] == lines[a..b] + lines[b..c];
  }

  /** The one-line range `(i, i + 1)`. */
  function Single(i: nat): Range
  {
    Range(i, i + 1)
  }

  /**
   * When the command fails on every candidate, the search degrades to
   * printing every line of `r` once, stripped, lower lines first.
   */
  lemma {:induction false} AlwaysFailingReportsEveryLine(lines: seq<Line>, command: Command, r: Range)
    requires forall c :: command(c) != 0
    requires Proper(r) && r.end <= |lines|
    ensures Reports(lines, command, Tested(lines, command, r)) == StripAll(lines[r.start..r.end])
    decreases Width(r)
  {
    var t := Tested(lines, command, r);
    assert Fails(lines, command, r);
    if Width(r) > 1 {
      SplitPartitions(r);
      var lo, hi := Lower(r), Upper(r);
      AlwaysFailingReportsEveryLine(lines, command, lo);
      AlwaysFailingReportsEveryLine(lines, command, hi);
      var tl, tu := Tested(lines, command, lo), Tested(lines, command, hi);
      assert t == [r] + (tl + tu);
      ReportsAppend(lines, command, tl, tu);
      ReportsAppend(lines, command, [r], tl + tu);
      assert Reports(lines, command, [r]) == [];
      StripAllSplit(lines, r.start, lo.end, r.end);
    } else if Width(r) == 1 {
      assert t == [r];
      assert lines[r.start..r.end] == [lines[r.start]];
    } else {
      assert t == [r];
    }
  }

  /** When the command fails on every candidate, every one-line range inside `r` is tested. */
  lemma {:induction false} AlwaysFailingTestsEveryLine(lines: seq<Line>, command: Command, r: Range)
    requires forall c :: command(c) != 0
    requires Proper(r)
    ensures forall i :: r.start <= i < r.end ==> Single(i) in Tested(lines, command, r)
    decreases Width(r)
  {
    var t := Tested(lines, command, r);
    assert Fails(lines, command, r);
    if Width(r) > 1 {
      SplitPartitions(r);
      var lo, hi := Lower(r), Upper(r);
      AlwaysFailingTestsEveryLine(lines, command, lo);
      AlwaysFailingTestsEveryLine(lines, command, hi);
      var tl, tu := Tested(lines, command, lo), Tested(lines, command, hi);
      assert t == [r] + (tl + tu);
      forall i | r.start <= i < r.end
        ensures Single(i) in t
      {
        if i < lo.end {
          assert Single(i) in tl;
        } else {
          assert Single(i) in tu;
        }
      }
    } else if Width(r) == 1 {
      assert t[0] == Single(r.start);
    }
  }

  /** When the command fails on every candidate, a range of w >= 1 lines takes exactly 2w - 1 tests. */
  lemma {:induction false} AlwaysFailingTestCount(lines: seq<Line>, command: Command, r: Range)
    requires forall c :: command(c) != 0
    requires Proper(r) && Width(r) >= 1
    ensures |Tested(lines, command, r)| == 2 * Width(r) - 1
    decreases Width(r)
  {
    assert Fails(lines, command, r);
    if Width(r) > 1 {
      SplitPartitions(r);
      AlwaysFailingTestCount(lines, command, Lower(r));
      AlwaysFailingTestCount(lines, command, Upper(r));
    }
  }

  /**
   * When the command passes on a range (the whole input, to begin with), that range is not split:
   * nothing is printed and no failure is recorded. This includes the empty
   * input, whose empty range is still tested once.
   */
  lemma PassingInputTestedOnce(lines: seq<Line>, command: Command, r: Range)
    requires Proper(r) && r.end <= |lines|
    requires !Fails(lines, command, r)
    ensures Tested(lines, command, r) == [r]
    ensures Reports(lines, command, [r]) == []
    ensures !AnyFailed(lines, command, [r])
  {
    assert [r][1..] == [];
  }

  /** An empty input is tested exactly once, on the empty candidate, whatever the command does. */
  lemma EmptyInputTestedOnce(command: Command)
    ensures Tested([], command, Range(0, 0)) == [Range(0, 0)]
    ensures Reports([], command, [Range(0, 0)]) == []
    ensures AnyFailed([], command, [Range(0, 0)]) <==> command([]) != 0
  {
    assert [Range(0, 0)][0] == Range(0, 0);
  }
}
