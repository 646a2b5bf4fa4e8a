/** Self time of a timed span: its duration less the time in which at least one of its children ran. */
module SelfTime {
  import opened JsonGrammar

  datatype Span = Span(start: real, end: Option<real>, point: bool, children: seq<Span>)

  datatype Interval = Interval(start: real, end: real)

  // ---------- instants and their measure ----------

  predicate Has(i: Interval, t: real) {
    i.start <= t <= i.end
  }

  /** Some interval of the family covers the instant. */
  predicate Covers(family: seq<Interval>, t: real) {
    if family == [] then false else Has(family[0], t) || Covers(family[1..], t)
  }

  predicate Forward(family: seq<Interval>) {
    forall k :: 0 <= k < |family| ==> family[k].start <= family[k].end
  }

  /** In order, with a gap between each interval and the next. */
  predicate Apart(family: seq<Interval>) {
    Forward(family) && forall j, k :: 0 <= j < k < |family| ==> family[j].end < family[k].start
  }

  function Total(family: seq<Interval>): real {
    if family == [] then 0.0 else family[0].end - family[0].start + Total(family[1..])
  }

  ghost predicate SameInstants(a: seq<Interval>, b: seq<Interval>) {
    forall t: real :: Covers(a, t) <==> Covers(b, t)
  }

  lemma {:induction false} CoversIff(family: seq<Interval>, t: real)
    ensures Covers(family, t) <==> exists k :: 0 <= k < |family| && Has(family[k], t)
    decreases |family|
  {
    if family != [] {
      CoversIff(family[1..], t);
      if Covers(family[1..], t) {
        var k :| 0 <= k < |family[1..]| && Has(family[1..][k], t);
        assert Has(family[k + 1], t);
      }
      if k :| 0 <= k < |family| && Has(family[k], t) {
        if k > 0 {
          assert Has(family[1..][k - 1], t);
        }
      }
    }
  }

  /** The first interval of a family apart starts no later than that of another with the same instants. */
  lemma StartsAgree(a: seq<Interval>, b: seq<Interval>)
    requires Apart(a) && Apart(b) && a != [] && b != [] && SameInstants(a, b)
    ensures a[0].start >= b[0].start
  {
    var t := a[0].start;
    assert Covers(a, t);
    CoversIff(b, t);
    var k :| 0 <= k < |b| && Has(b[k], t);
  }

  lemma EndsAgree(a: seq<Interval>, b: seq<Interval>)
    requires Apart(a) && Apart(b) && a != [] && b != [] && SameInstants(a, b) && a[0].start == b[0].start
    ensures a[0].end <= b[0].end
  {
    var e := b[0].end;
    if e < a[0].end {
      // an instant of the gap after b's first interval that a covers
      var t := if |b| > 1 && b[1].start <= a[0].end then (e + b[1].start) / 2.0 else a[0].end;
      assert Has(a[0], t) && Covers(a, t);
      GapIsFree(b, t);
    }
  }

  lemma GapIsFree(b: seq<Interval>, t: real)
    requires Apart(b) && b != [] && b[0].end < t && (|b| > 1 ==> t < b[1].start)
    ensures !Covers(b, t)
  {
    CoversIff(b, t);
    forall k | 0 <= k < |b| ensures !Has(b[k], t) {
      if k > 1 {
        assert b[1].end < b[k].start;
      }
    }
  }

  lemma RestCovers(a: seq<Interval>, t: real)
    requires Apart(a) && a != []
    ensures Covers(a[1..], t) <==> Covers(a, t) && t > a[0].end
  {
    CoversIff(a[1..], t);
    if Covers(a[1..], t) {
      var k :| 0 <= k < |a[1..]| && Has(a[1..][k], t);
      assert a[0].end < a[k + 1].start;
    }
  }

  lemma CoversItsStart(a: seq<Interval>)
    requires Apart(a) && a != []
    ensures Covers(a, a[0].start)
  {
  }

  /** A family of intervals apart is determined by the instants it covers. */
  lemma {:induction false} ApartIsUnique(a: seq<Interval>, b: seq<Interval>)
    requires Apart(a) && Apart(b) && SameInstants(a, b)
    ensures a == b
    decreases |a|
  {
    if a == [] {
      if b != [] {
        CoversItsStart(b);
      }
    } else if b == [] {
      CoversItsStart(a);
    } else {
      StartsAgree(a, b);
      StartsAgree(b, a);
      EndsAgree(a, b);
      EndsAgree(b, a);
      forall t: real ensures Covers(a[1..], t) <==> Covers(b[1..], t) {
        RestCovers(a, t);
        RestCovers(b, t);
      }
      ApartIsUnique(a[1..], b[1..]);
      assert a == [a[0]] + a[1..] && b == [b[0]] + b[1..];
    }
  }

  // ---------- the sweep ----------

  predicate Sorted(s: seq<Interval>) {
    forall j, k :: 0 <= j < k < |s| ==> s[j].start <= s[k].start
  }

  function Insert(i: Interval, s: seq<Interval>): seq<Interval> {
    if s == [] || i.start < s[0].start then [i] + s else [s[0]] + Insert(i, s[1..])
  }

  /** Stable sort by start. */
  function SortByStart(s: seq<Interval>): seq<Interval> {
    if s == [] then [] else Insert(s[|s| - 1], SortByStart(s[..|s| - 1]))
  }

  lemma FrontSorted(i: Interval, s: seq<Interval>)
    requires Sorted(s) && (s != [] ==> i.start <= s[0].start)
    ensures Sorted([i] + s)
  {
  }

  lemma {:induction false} InsertSorted(i: Interval, s: seq<Interval>)
    requires Sorted(s)
    ensures Sorted(Insert(i, s)) && Insert(i, s) != []
    ensures Insert(i, s)[0] == if s == [] || i.start < s[0].start then i else s[0]
    decreases |s|
  {
    if s == [] || i.start < s[0].start {
      FrontSorted(i, s);
    } else {
      InsertSorted(i, s[1..]);
      FrontSorted(s[0], Insert(i, s[1..]));
    }
  }

  lemma {:induction false} InsertKeeps(i: Interval, s: seq<Interval>)
    ensures multiset(Insert(i, s)) == multiset(s) + multiset{i}
    decreases |s|
  {
    if s != [] && s[0].start <= i.start {
      InsertKeeps(i, s[1..]);
      assert s == [s[0]] + s[1..];
    }
  }

  lemma {:induction false} SortSorts(s: seq<Interval>)
    ensures Sorted(SortByStart(s)) && multiset(SortByStart(s)) == multiset(s)
    decreases |s|
  {
    if s != [] {
      SortSorts(s[..|s| - 1]);
      InsertSorted(s[|s| - 1], SortByStart(s[..|s| - 1]));
      InsertKeeps(s[|s| - 1], SortByStart(s[..|s| - 1]));
      assert s == s[..|s| - 1] + [s[|s| - 1]];
    }
  }

  lemma SortKeepsInstants(s: seq<Interval>)
    requires Forward(s)
    ensures SameInstants(s, SortByStart(s)) && Forward(SortByStart(s))
  {
    SortSorts(s);
    var r := SortByStart(s);
    forall k | 0 <= k < |r| ensures r[k] in s {
      assert r[k] in multiset(r);
    }
    forall k | 0 <= k < |s| ensures s[k] in r {
      assert s[k] in multiset(s);
    }
    forall t: real ensures Covers(s, t) <==> Covers(r, t) {
      CoversIff(s, t);
      CoversIff(r, t);
      if Covers(s, t) {
        var k :| 0 <= k < |s| && Has(s[k], t);
        assert s[k] in r;
        var j :| 0 <= j < |r| && r[j] == s[k];
        assert Has(r[j], t);
      }
      if Covers(r, t) {
        var k :| 0 <= k < |r| && Has(r[k], t);
        assert r[k] in s;
        var j :| 0 <= j < |s| && s[j] == r[k];
        assert Has(s[j], t);
      }
    }
  }

  lemma {:induction false} TotalLast(family: seq<Interval>, i: Interval)
    ensures Total(family + [i]) == Total(family) + (i.end - i.start)
    decreases |family|
  {
    if family == [] {
      assert family + [i] == [i];
      assert [i][1..] == [];
    } else {
      assert (family + [i])[1..] == family[1..] + [i];
      TotalLast(family[1..], i);
    }
  }

  lemma {:induction false} CoversLast(family: seq<Interval>, i: Interval, t: real)
    ensures Covers(family + [i], t) <==> Covers(family, t) || Has(i, t)
    decreases |family|
  {
    if family == [] {
      assert family + [i] == [i];
      assert [i][1..] == [];
    } else {
      assert (family + [i])[1..] == family[1..] + [i];
      CoversLast(family[1..], i, t);
    }
  }

  /** The next interval leaves a gap: the current one is complete. */
  lemma StartsAnew(done: seq<Interval>, cur: Interval, seen: seq<Interval>, next: Interval)
    requires Apart(done + [cur]) && SameInstants(done + [cur], seen) && next.start <= next.end && next.start > cur.end
    ensures Apart(done + [cur] + [next]) && SameInstants(done + [cur] + [next], seen + [next])
  {
    var all := done + [cur];
    forall j | 0 <= j < |all| ensures all[j].end < next.start {
      if j < |done| {
        assert all[j].end < all[|done|].start;
      }
    }
    forall t: real ensures Covers(all + [next], t) <==> Covers(seen + [next], t) {
      CoversLast(all, next, t);
      CoversLast(seen, next, t);
    }
  }

  /** The next interval touches the current one: they run together. */
  lemma RunsOn(done: seq<Interval>, cur: Interval, seen: seq<Interval>, next: Interval, both: Interval)
    requires Apart(done + [cur]) && SameInstants(done + [cur], seen)
    requires cur.start <= next.start <= cur.end && next.start <= next.end
    requires both == Interval(cur.start, if next.end > cur.end then next.end else cur.end)
    ensures Apart(done + [both]) && SameInstants(done + [both], seen + [next])
  {
    var before, all := done + [cur], done + [both];
    forall j, k | 0 <= j < k < |all| ensures all[j].end < all[k].start {
      assert before[j].end < before[k].start;
    }
    forall k | 0 <= k < |all| ensures all[k].start <= all[k].end {
      assert before[k].start <= before[k].end;
    }
    forall t: real ensures Covers(all, t) <==> Covers(seen + [next], t) {
      CoversLast(done, cur, t);
      CoversLast(done, both, t);
      CoversLast(seen, next, t);
      assert Covers(before, t) <==> Covers(seen, t);
    }
  }

  /** The sweep: the total length of a family apart that covers the same instants. */
  method Sweep(intervals: seq<Interval>) returns (union: real)
    requires intervals != [] && Sorted(intervals) && Forward(intervals)
    ensures exists family :: Apart(family) && SameInstants(family, intervals) && union == Total(family)
  {
    union := 0.0;
    var curStart := intervals[0].start;
    var curEnd := intervals[0].end;
    ghost var done: seq<Interval> := [];
    assert intervals[..1] == [intervals[0]] == [] + [Interval(curStart, curEnd)];
    for i := 1 to |intervals|
      invariant Apart(done + [Interval(curStart, curEnd)])
      invariant SameInstants(done + [Interval(curStart, curEnd)], intervals[..i])
      invariant union == Total(done)
      invariant curStart <= intervals[i - 1].start
    {
      var s, e := intervals[i].start, intervals[i].end;
      ghost var cur, next := Interval(curStart, curEnd), intervals[i];
      assert intervals[..i + 1] == intervals[..i] + [next];
      assert intervals[i - 1].start <= s;
      if s > curEnd {
        StartsAnew(done, cur, intervals[..i], next);
        TotalLast(done, cur);
        union := union + (curEnd - curStart);
        done := done + [cur];
        curStart := s;
        curEnd := e;
      } else {
        RunsOn(done, cur, intervals[..i], next, Interval(curStart, if e > curEnd then e else curEnd));
        if e > curEnd {
          curEnd := e;
        }
      }
    }
    TotalLast(done, Interval(curStart, curEnd));
    union := union + (curEnd - curStart);
    assert intervals[..|intervals|] == intervals;
    assert Apart(done + [Interval(curStart, curEnd)]);
  }

  // ---------- self time ----------

  function DurationOf(span: Span): real {
    if span.point || span.end.None? then 0.0 else span.end.value - span.start
  }

  /** The intervals of the children that are over and are no points. */
  function ChildIntervals(children: seq<Span>): seq<Interval> {
    if children == [] then []
    else if !children[0].point && children[0].end.Some?
    then [Interval(children[0].start, children[0].end.value)] + ChildIntervals(children[1..])
    else ChildIntervals(children[1..])
  }

  function NonNegative(x: real): real {
    if x < 0.0 then 0.0 else x
  }

  /** x is the measure of the instants covered by at least one interval. */
  ghost predicate IsMeasure(x: real, intervals: seq<Interval>) {
    exists family :: Apart(family) && SameInstants(family, intervals) && x == Total(family)
  }

  lemma MeasureIsUnique(x: real, y: real, intervals: seq<Interval>)
    requires IsMeasure(x, intervals) && IsMeasure(y, intervals)
    ensures x == y
  {
    var a: seq<Interval> :| Apart(a) && SameInstants(a, intervals) && x == Total(a);
    var b: seq<Interval> :| Apart(b) && SameInstants(b, intervals) && y == Total(b);
    assert SameInstants(a, b);
    ApartIsUnique(a, b);
  }

  lemma NothingMeasured()
    ensures IsMeasure(0.0, [])
  {
    var none: seq<Interval> := [];
    assert Apart(none) && SameInstants(none, []) && 0.0 == Total(none);
  }

  /** A span that is no point has for self time its duration less the measure of its children, at least 0. */
  method SelfTimeOf(span: Span) returns (r: real)
    requires Forward(ChildIntervals(span.children))
    ensures span.point || ChildIntervals(span.children) == [] ==> r == DurationOf(span)
    ensures !span.point && DurationOf(span) >= 0.0 ==>
      && (exists x :: IsMeasure(x, ChildIntervals(span.children)))
      && (forall x :: IsMeasure(x, ChildIntervals(span.children)) ==> r == NonNegative(DurationOf(span) - x))
  {
    var dur := DurationOf(span);
    NothingMeasured();
    forall x | IsMeasure(x, []) ensures x == 0.0 {
      MeasureIsUnique(x, 0.0, []);
    }
    if |span.children| == 0 || span.point {
      assert dur - 0.0 == dur;
      return dur;
    }
    var intervals := ChildIntervals(span.children);
    if |intervals| == 0 {
      assert dur - 0.0 == dur;
      return dur;
    }
    SortSorts(intervals);
    SortKeepsInstants(intervals);
    var sorted := SortByStart(intervals);
    assert |sorted| > 0 by {
      assert intervals[0] in multiset(intervals);
      assert intervals[0] in multiset(sorted);
    }
    var union := Sweep(sorted);
    assert IsMeasure(union, intervals) by {
      var f: seq<Interval> :| Apart(f) && SameInstants(f, sorted) && union == Total(f);
      assert SameInstants(f, intervals);
    }
    forall x | IsMeasure(x, intervals) ensures x == union {
      MeasureIsUnique(x, union, intervals);
    }
    r := NonNegative(dur - union);
  }

  lemma {:induction false} TotalWithin(family: seq<Interval>, from: real, to: real)
    requires Apart(family) && from <= to
    requires forall k :: 0 <= k < |family| ==> from <= family[k].start && family[k].end <= to
    ensures 0.0 <= Total(family) <= to - from
    decreases |family|
  {
    if family != [] {
      TotalWithin(family[1..], family[0].end, to);
    }
  }

  /** Children that run within their span never take up more than its duration, so nothing is cut off at 0. */
  lemma ChildrenFit(span: Span, x: real)
    requires span.end.Some? && !span.point && span.start <= span.end.value
    requires IsMeasure(x, ChildIntervals(span.children))
    requires forall t: real :: Covers(ChildIntervals(span.children), t) ==> span.start <= t <= span.end.value
    ensures 0.0 <= x <= DurationOf(span)
  {
    var family: seq<Interval> :| Apart(family) && SameInstants(family, ChildIntervals(span.children)) && x == Total(family);
    forall k | 0 <= k < |family| ensures span.start <= family[k].start && family[k].end <= span.end.value {
      CoversIff(family, family[k].start);
      CoversIff(family, family[k].end);
      assert Has(family[k], family[k].start) && Has(family[k], family[k].end);
      assert Covers(family, family[k].start) && Covers(family, family[k].end);
    }
    TotalWithin(family, span.start, span.end.value);
  }
}
