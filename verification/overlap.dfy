/** The conflict test both the page and the store use: two half-open intervals
    [start, end) conflict when each starts before the other ends. */
module Overlap {
  import opened Clock

  datatype Interval = Interval(start: Instant, end: Instant)

  function Later(x: Instant, y: Instant): Instant {
    if x < y then y else x
  }

  function Earlier(x: Instant, y: Instant): Instant {
    if x < y then x else y
  }

  /** Strict on both sides, so intervals that only touch do not conflict.
      For non-empty intervals this says that the later of the two starts
      comes before the earlier of the two ends, so the intersection is not
      empty; an interval that ends before it starts is not special-cased. */
  predicate Conflicts(a: Interval, b: Interval)
    ensures a.start < a.end && b.start < b.end ==>
      (Conflicts(a, b) <==> Later(a.start, b.start) < Earlier(a.end, b.end))
  {
    a.start < b.end && a.end > b.start
  }

  lemma ConflictsSymmetric(a: Interval, b: Interval)
    ensures Conflicts(a, b) == Conflicts(b, a)
  {
  }

  /** Back-to-back intervals do not conflict, in either order. */
  lemma TouchingIsNotConflict(a: Interval, b: Interval)
    requires a.end == b.start
    ensures !Conflicts(a, b) && !Conflicts(b, a)
  {
  }

  predicate Contains(iv: Interval, t: Instant) {
    iv.start <= t < iv.end
  }

  /** Two non-empty intervals conflict exactly when some instant lies in both. */
  lemma {:induction false} ConflictsIffCommonInstant(a: Interval, b: Interval)
    requires a.start < a.end && b.start < b.end
    ensures Conflicts(a, b) <==> exists t :: Contains(a, t) && Contains(b, t)
  {
    if Conflicts(a, b) {
      var t := if a.start < b.start then b.start else a.start;
      assert Contains(a, t) && Contains(b, t);
    }
  }
}
