/**
 * Lines of the input and the operations on them: Python 2's `str.strip()`,
 * applied to a failing line before it is printed, and `copy`, which moves
 * the input into the temporary line buffer (bad-apple.py:97-102).
 */
module Lines {

  /** One line of the input as Python 2 reads it: its characters, terminator included. */
  datatype Line = Line(text: seq<char>)

  /** The characters Python 2's `str.strip()` removes when called without arguments. */
  predicate IsSpace(c: char)
  {
    c == ' ' || c == '\t' || c == '\n' || c == '\r' || c == '\U{000B}' || c == '\U{000C}'
  }

  /** `s` with its leading whitespace removed. */
  function StripLeft(s: seq<char>): (r: seq<char>)
    ensures |r| <= |s|
    ensures r == [] || !IsSpace(r[0])
  {
    if s != [] && IsSpace(s[0]) then StripLeft(s[1..]) else s
  }

  /** `s` with its trailing whitespace removed. */
  function StripRight(s: seq<char>): (r: seq<char>)
    ensures |r| <= |s|
    ensures r == [] || !IsSpace(r[|r| - 1])
  {
    if s != [] && IsSpace(s[|s| - 1]) then StripRight(s[..|s| - 1]) else s
  }

  /**
   * What Python 2's `str.strip()` leaves of `s`: never longer than `s`, and
   * never ending in whitespace (`StripTextSpec` gives the whole
   * characterisation).
   */
  function StripText(s: seq<char>): (r: seq<char>)
    ensures |r| <= |s|
    ensures r == [] || !IsSpace(r[|r| - 1])
  {
    StripRight(StripLeft(s))
  }

  /** `line.strip()`: a line no longer than `line` whose text does not end in whitespace. */
  function Strip(line: Line): (stripped: Line)
    ensures |stripped.text| <= |line.text|
    ensures stripped.text == [] || !IsSpace(stripped.text[|stripped.text| - 1])
  {
    Line(StripText(line.text))
  }

  /** `StripLeft` cuts off a prefix of whitespace and stops at the first other character. */
  lemma {:induction false} StripLeftSpec(s: seq<char>)
    ensures var r := StripLeft(s);
      |r| <= |s| && r == s[|s| - |r|..] &&
      (forall k :: 0 <= k < |s| - |r| ==> IsSpace(s[k])) &&
      (r == [] || !IsSpace(r[0]))
  {
    if s != [] && IsSpace(s[0]) {
      StripLeftSpec(s[1..]);
    }
  }

  /** `StripRight` cuts off a suffix of whitespace and stops at the last other character. */
  lemma {:induction false} StripRightSpec(s: seq<char>)
    ensures var r := StripRight(s);
      |r| <= |s| && r == s[..|r|] &&
      (forall k :: |r| <= k < |s| ==> IsSpace(s[k])) &&
      (r == [] || !IsSpace(r[|r| - 1]))
  {
    if s != [] && IsSpace(s[|s| - 1]) {
      StripRightSpec(s[..|s| - 1]);
    }
  }

  /**
   * What `str.strip()` leaves is the infix of `s` that neither starts nor
   * ends with whitespace, everything cut off on either side being
   * whitespace.
   */
  lemma StripTextSpec(s: seq<char>)
    ensures var i, r := |s| - |StripLeft(s)|, StripText(s);
      0 <= i && i + |r| <= |s| && r == s[i..i + |r|] &&
      (forall k :: 0 <= k < i ==> IsSpace(s[k])) &&
      (forall k :: i + |r| <= k < |s| ==> IsSpace(s[k])) &&
      (r == [] || (!IsSpace(r[0]) && !IsSpace(r[|r| - 1])))
  {
    var left := StripLeft(s);
    StripLeftSpec(s);
    StripRightSpec(left);
    InfixOfSuffix(s, left, StripRight(left));
  }

  /** A prefix `r` of a suffix `left` of `s` is an infix of `s`; what follows it in `left` follows it in `s`. */
  lemma InfixOfSuffix(s: seq<char>, left: seq<char>, r: seq<char>)
    requires |left| <= |s| && left == s[|s| - |left|..]
    requires |r| <= |left| && r == left[..|r|]
    requires forall k :: |r| <= k < |left| ==> IsSpace(left[k])
    ensures var i := |s| - |left|;
      i + |r| <= |s| && r == s[i..i + |r|] &&
      (forall k :: i + |r| <= k < |s| ==> IsSpace(s[k])) &&
      (r != [] ==> r[0] == left[0])
  {
    var i := |s| - |left|;
    forall k | i + |r| <= k < |s|
      ensures IsSpace(s[k])
    {
      assert s[k] == left[k - i];
    }
  }

  /** Stripping a line whose text has no surrounding whitespace of its own removes just its terminator. */
  lemma StripTerminated(s: seq<char>)
    requires s != [] && !IsSpace(s[0]) && !IsSpace(s[|s| - 1])
    ensures StripText(s + "\n") == s
  {
    var t := s + "\n";
    assert t[0] == s[0];
    assert StripLeft(t) == t;
    assert t[..|t| - 1] == s;
    assert StripRight(t) == StripRight(s);
    assert StripRight(s) == s;
  }

  /**
   * `copy(source, dest)`: writes every line of `source` to `dest` (whose
   * contents so far are `dest`) unchanged and in order, counting them.
   */
  method Copy(source: seq<Line>, dest: seq<Line>) returns (written: seq<Line>, nlines: nat)
    ensures written == dest + source
    ensures nlines == |source|
  {
    written := dest;
    nlines := 0;
    for i := 0 to |source|
      invariant written == dest + source[..i]
      invariant nlines == i
    {
      written := written + [source[i]];
      nlines := nlines + 1;
    }
  }
}
