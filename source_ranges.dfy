/**
 * Source positions, source ranges and the marker-based range resolution
 * shared by `Text`, `Highlight` and `EscapedCharacter`.
 */
module SourceRanges {
  import opened Base

  /** A position in a source document; locations are ordered line first, then column. */
  datatype SourceLocation = SourceLocation(line: int, column: int)

  /** The order of `SourceLocation`'s `Comparable` conformance, non-strict. */
  predicate Le(a: SourceLocation, b: SourceLocation): (r: bool)
    ensures a == b ==> r
    ensures r ==> a.line <= b.line
    ensures a.line != b.line ==> (r <==> a.line < b.line)
    ensures a.line == b.line ==> (r <==> a.column <= b.column)
  {
    a.line < b.line || (a.line == b.line && a.column <= b.column)
  }

  /** `Le` is a total order: reflexive, antisymmetric, transitive and total. */
  lemma LeIsTotalOrder(a: SourceLocation, b: SourceLocation, c: SourceLocation)
    ensures Le(a, a)
    ensures Le(a, b) && Le(b, a) ==> a == b
    ensures Le(a, b) && Le(b, c) ==> Le(a, c)
    ensures Le(a, b) || Le(b, a)
  {
  }

  function Min(a: SourceLocation, b: SourceLocation): (m: SourceLocation)
    ensures Le(m, a) && Le(m, b) && (m == a || m == b)
  {
    if Le(a, b) then a else b
  }

  function Max(a: SourceLocation, b: SourceLocation): (m: SourceLocation)
    ensures Le(a, m) && Le(b, m) && (m == a || m == b)
  {
    if Le(a, b) then b else a
  }

  /** The two bounds of a half-open interval `lowerBound ..< upperBound`. */
  datatype Bounds = Bounds(lowerBound: SourceLocation, upperBound: SourceLocation)

  /**
   * `Range<SourceLocation>`: Swift's `..<` traps unless `lowerBound <= upperBound`,
   * so every range value satisfies it.
   */
  type SourceRange = b: Bounds | Le(b.lowerBound, b.upperBound)
    witness Bounds(SourceLocation(1, 1), SourceLocation(1, 1))

  /** `inner` lies within `outer`. */
  predicate Contains(outer: SourceRange, inner: SourceRange) {
    Le(outer.lowerBound, inner.lowerBound) && Le(inner.upperBound, outer.upperBound)
  }

  /** The smallest range that contains both `a` and `b`. */
  function Widened(a: SourceRange, b: SourceRange): (r: SourceRange)
    ensures Contains(r, a) && Contains(r, b)
    ensures r.lowerBound == a.lowerBound || r.lowerBound == b.lowerBound
    ensures r.upperBound == a.upperBound || r.upperBound == b.upperBound
  {
    Bounds(Min(a.lowerBound, b.lowerBound), Max(a.upperBound, b.upperBound))
  }

  /**
   * The precondition of `start.lowerBound ..< end.upperBound`: when both markers are
   * present the start marker must not begin after the end marker ends. The tokenizer
   * is trusted to supply such markers; nothing checks or repairs them.
   */
  predicate MarkersOrdered(startRange: Option<SourceRange>, endRange: Option<SourceRange>) {
    startRange.Some? && endRange.Some? ==>
      Le(startRange.value.lowerBound, endRange.value.upperBound)
  }

  /**
   * The marker-based range policy: span both markers, else the one that is present,
   * else `fallback` (`nil` for the leaf `Text`, the children's range for containers).
   */
  function MarkerRange(startRange: Option<SourceRange>, endRange: Option<SourceRange>,
                       fallback: Option<SourceRange>): (r: Option<SourceRange>)
    requires MarkersOrdered(startRange, endRange)
    ensures startRange.Some? && endRange.Some? ==>
      r.Some? && r.value.lowerBound == startRange.value.lowerBound
              && r.value.upperBound == endRange.value.upperBound
    ensures startRange.Some? && endRange.None? ==> r == startRange
    ensures startRange.None? && endRange.Some? ==> r == endRange
    ensures startRange.None? && endRange.None? ==> r == fallback
  {
    if startRange.Some? && endRange.Some? then
      Some(Bounds(startRange.value.lowerBound, endRange.value.upperBound))
    else if startRange.Some? then
      Some(Bounds(startRange.value.lowerBound, startRange.value.upperBound))
    else if endRange.Some? then
      Some(Bounds(endRange.value.lowerBound, endRange.value.upperBound))
    else
      fallback
  }

  /** A resolved range exists exactly when some marker or the fallback exists. */
  lemma MarkerRangePresence(startRange: Option<SourceRange>, endRange: Option<SourceRange>,
                            fallback: Option<SourceRange>)
    requires MarkersOrdered(startRange, endRange)
    ensures MarkerRange(startRange, endRange, fallback).Some?
        <==> startRange.Some? || endRange.Some? || fallback.Some?
  {
  }

  /**
   * When the markers come in document order (the start marker ends no later than
   * the end marker begins), the resolved range covers both markers and nothing
   * before the first or after the last.
   */
  lemma MarkerRangeCoversMarkers(startRange: SourceRange, endRange: SourceRange,
                                 fallback: Option<SourceRange>)
    requires Le(startRange.upperBound, endRange.lowerBound)
    ensures MarkersOrdered(Some(startRange), Some(endRange))
    ensures var r := MarkerRange(Some(startRange), Some(endRange), fallback);
      r.Some? && Contains(r.value, startRange) && Contains(r.value, endRange)
      && r.value.lowerBound == startRange.lowerBound
      && r.value.upperBound == endRange.upperBound
  {
  }

  /** A marker that is present makes the fallback irrelevant. */
  lemma MarkerRangeIgnoresFallback(startRange: Option<SourceRange>, endRange: Option<SourceRange>,
                                   f1: Option<SourceRange>, f2: Option<SourceRange>)
    requires MarkersOrdered(startRange, endRange)
    requires startRange.Some? || endRange.Some?
    ensures MarkerRange(startRange, endRange, f1) == MarkerRange(startRange, endRange, f2)
  {
  }
}
