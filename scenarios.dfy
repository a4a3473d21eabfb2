/**
 * A worked example of a whole run: five lines and a command that fails
 * exactly when its candidate contains the third of them. A script running
 * `! grep -q BAD` on the candidate behaves so when the third line is the
 * only one containing "BAD": `grep -q` exits 0 on a match, and the `!`
 * turns that into a failure. The lemmas follow the run range by range.
 */
module Scenarios {
  import opened Lines
  import opened Splitter
  import opened Runner
  import opened Driver

  /** The order in which the run tests ranges on five lines whose third one is bad. */
  const Trace: seq<Range> := [Range(0, 5), Range(0, 2), Range(2, 5), Range(2, 3), Range(3, 5)]

  /** Five lines, and a command that fails exactly on the candidates holding the third line. */
  ghost predicate OneBadLine(lines: seq<Line>, command: Command)
  {
    |lines| == 5 &&
    (forall c :: command(c) != 0 <==> lines[2] in c) &&
    lines[0] != lines[2] && lines[1] != lines[2] && lines[3] != lines[2] && lines[4] != lines[2]
  }

  /** The verdict on every range the run tests: only the ranges holding line 2 fail. */
  lemma {:induction false} Verdicts(lines: seq<Line>, command: Command)
    requires OneBadLine(lines, command)
    ensures Fails(lines, command, Range(0, 5)) && Fails(lines, command, Range(2, 5))
    ensures Fails(lines, command, Range(2, 3))
    ensures !Fails(lines, command, Range(0, 2)) && !Fails(lines, command, Range(3, 5))
  {
    assert Slice(lines, Range(0, 5))[2] == lines[2];
    assert Slice(lines, Range(2, 5))[0] == lines[2];
    assert Slice(lines, Range(2, 3))[0] == lines[2];
    assert Slice(lines, Range(0, 2)) == [lines[0], lines[1]];
    assert Slice(lines, Range(3, 5)) == [lines[3], lines[4]];
  }

  /**
   * The run tests (0,5), (0,2), (2,5), (2,3) and (3,5) in that order: the
   * lower half (0,2) passes and is dropped, the upper half is split again.
   */
  lemma {:induction false} OneBadLineTrace(lines: seq<Line>, command: Command)
    requires OneBadLine(lines, command)
    ensures Tested(lines, command, Range(0, 5)) == Trace
  {
    Verdicts(lines, command);
    var lower, upper := Tested(lines, command, Range(0, 2)), Tested(lines, command, Range(2, 5));
    assert lower == [Range(0, 2)];
    assert Tested(lines, command, Range(3, 5)) == [Range(3, 5)];
    assert Tested(lines, command, Range(2, 3)) == [Range(2, 3)];
    assert upper == [Range(2, 5)] + ([Range(2, 3)] + [Range(3, 5)]);
    assert Lower(Range(0, 5)) == Range(0, 2) && Upper(Range(0, 5)) == Range(2, 5);
    assert Tested(lines, command, Range(0, 5)) == [Range(0, 5)] + (lower + upper);
    assert [Range(0, 5)] + ([Range(0, 2)] + ([Range(2, 5)] + ([Range(2, 3)] + [Range(3, 5)]))) == Trace;
  }

  /** Nothing is printed while the first three ranges, all wider than one line, are tested. */
  lemma QuietPrefix(lines: seq<Line>, command: Command)
    ensures Reports(lines, command, Trace[..3]) == []
  {
    var t1 := [Range(0, 5)];
    var t2 := t1 + [Range(0, 2)];
    assert Reports(lines, command, t1) == [];
    ReportsSnoc(lines, command, t1, Range(0, 2));
    ReportsSnoc(lines, command, t2, Range(2, 5));
    assert Trace[..3] == t2 + [Range(2, 5)];
  }

  /** Only the bad line is printed, stripped. */
  lemma OneBadLineReport(lines: seq<Line>, command: Command)
    requires OneBadLine(lines, command)
    ensures Reports(lines, command, Trace) == [Strip(lines[2])]
  {
    Verdicts(lines, command);
    QuietPrefix(lines, command);
    var t3 := Trace[..3];
    var t4 := t3 + [Range(2, 3)];
    ReportsSnoc(lines, command, t3, Range(2, 3));
    ReportsSnoc(lines, command, t4, Range(3, 5));
    assert Trace == t4 + [Range(3, 5)];
  }

  /** Some tested range fails, so the run exits 1. */
  lemma OneBadLineExitsOne(lines: seq<Line>, command: Command)
    requires OneBadLine(lines, command)
    ensures AnyFailed(lines, command, Trace)
  {
    Verdicts(lines, command);
    assert Trace[0] == Range(0, 5);
  }

  /** Five lines whose third is "BAD\n". */
  const Sample: seq<Line> := [Line("one\n"), Line("two\n"), Line("BAD\n"), Line("four\n"), Line("five\n")]

  /** A command that fails exactly on candidates holding "BAD\n" sees `Sample` as five lines with one bad line. */
  lemma SampleHasOneBadLine(command: Command)
    requires forall c :: command(c) != 0 <==> Line("BAD\n") in c
    ensures OneBadLine(Sample, command)
  {
    assert Sample[2] == Line("BAD\n");
    assert Sample[0].text[0] == 'o' && Sample[1].text[0] == 't';
    assert Sample[3].text[0] == 'f' && Sample[4].text[0] == 'f';
  }

  /** The bad line of `Sample`, stripped, is "BAD". */
  lemma SampleBadLineStripped()
    ensures Strip(Sample[2]) == Line("BAD")
  {
    var bad := "BAD";
    assert bad[0] == 'B' && bad[|bad| - 1] == 'D';
    StripTerminated(bad);
    assert Sample[2].text == bad + "\n";
  }

  /** On `Sample` the run tests the ranges of `Trace` and prints "BAD" alone. */
  lemma BadLinePrinted(command: Command)
    requires forall c :: command(c) != 0 <==> Line("BAD\n") in c
    ensures Tested(Sample, command, Range(0, 5)) == Trace
    ensures Reports(Sample, command, Trace) == [Line("BAD")]
  {
    SampleHasOneBadLine(command);
    OneBadLineTrace(Sample, command);
    OneBadLineReport(Sample, command);
    SampleBadLineStripped();
  }
}
