/**
 * Line ranges and how `run` splits a failing one (bad-apple.py:58-60).
 * Python 2's `/` on integers floors, so the split point uses Dafny's
 * division, which agrees on the non-negative widths used here.
 */
module Splitter {

  /** The tuple `(start, end)`: the half-open line range `[start, end)`. */
  datatype Range = Range(start: nat, end: nat)

  /** `rows[1]-rows[0]`. */
  function Width(r: Range): int
  {
    r.end - r.start
  }

  /** A range whose end is not before its start; every range `run` handles is one. */
  predicate Proper(r: Range)
  {
    r.start <= r.end
  }

  /** `intermediate = rows[0] + (rows[1]-rows[0])/2`: the floor of the midpoint. */
  function Mid(r: Range): (m: nat)
    requires Proper(r)
    ensures r.start <= m <= r.end
    ensures Width(r) > 1 ==> r.start < m < r.end
    ensures 2 * (m - r.start) <= Width(r) <= 2 * (m - r.start) + 1
  {
    r.start + (r.end - r.start) / 2
  }

  /** `(rows[0], intermediate)`, pushed last and so tested next. */
  function Lower(r: Range): Range
    requires Proper(r)
  {
    Range(r.start, Mid(r))
  }

  /** `(intermediate, rows[1])`. */
  function Upper(r: Range): Range
    requires Proper(r)
  {
    Range(Mid(r), r.end)
  }

  /** Line `i` lies in the range. */
  predicate Covers(r: Range, i: int)
  {
    r.start <= i < r.end
  }

  /**
   * Splitting a range of k > 1 lines yields two non-empty, adjacent ranges
   * of floor(k/2) (the lower) and ceil(k/2) (the upper) lines that are
   * disjoint and together cover exactly the original range.
   */
  lemma SplitPartitions(r: Range)
    requires Proper(r) && Width(r) > 1
    ensures Proper(Lower(r)) && Proper(Upper(r))
    ensures Lower(r).start == r.start && Lower(r).end == Upper(r).start && Upper(r).end == r.end
    ensures 0 < Width(Lower(r)) < Width(r) && 0 < Width(Upper(r)) < Width(r)
    ensures Width(Lower(r)) == Width(r) / 2 && Width(Upper(r)) == (Width(r) + 1) / 2
    ensures forall i :: Covers(r, i) <==> Covers(Lower(r), i) || Covers(Upper(r), i)
    ensures forall i :: !(Covers(Lower(r), i) && Covers(Upper(r), i))
  {
  }
}
