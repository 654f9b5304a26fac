/** Half-open intervals of instants, and the four list operations the scheduling
    engine is built from. Each operation is specified by the set of instants its
    lists stand for. */
module Intervals {
  import opened Lists

  /** [start, end), in microseconds. */
  datatype Interval = Interval(start: int, end: int)

  ghost predicate Covers(ivs: seq<Interval>, t: int) {
    exists i :: 0 <= i < |ivs| && ivs[i].start <= t < ivs[i].end
  }

  /** The instants a list of intervals stands for. */
  ghost function Points(ivs: seq<Interval>): iset<int> {
    iset t | Covers(ivs, t)
  }

  predicate Within(t: int, lo: int, hi: int) {
    lo <= t < hi
  }

  ghost function Between(lo: int, hi: int): iset<int> {
    iset t | Within(t, lo, hi)
  }

  ghost predicate Proper(ivs: seq<Interval>) {
    forall i :: 0 <= i < |ivs| ==> ivs[i].start < ivs[i].end
  }

  /** In order, with a gap between any two neighbours. */
  ghost predicate Separated(ivs: seq<Interval>) {
    forall i, j :: 0 <= i < j < |ivs| ==> ivs[i].end < ivs[j].start && ivs[i].start <= ivs[j].start
  }

  ghost predicate Canonical(ivs: seq<Interval>) {
    Proper(ivs) && Separated(ivs)
  }

  /** [start, end) is a maximal stretch of `s`. */
  ghost predicate IsRun(s: iset<int>, iv: Interval) {
    && iv.start < iv.end
    && (forall t :: iv.start <= t < iv.end ==> t in s)
    && iv.start - 1 !in s
    && iv.end !in s
  }

  lemma RunHoldsItsStart(s: iset<int>, iv: Interval)
    requires IsRun(s, iv)
    ensures iv.start in s
  {
  }

  // ------------------------------------------------------------------ merge

  predicate StartsNoLater(a: Interval, b: Interval) {
    a.start <= b.start
  }

  function SortByStart(ivs: seq<Interval>): (r: seq<Interval>)
    ensures |r| == |ivs|
    ensures forall i, j :: 0 <= i < j < |r| ==> r[i].start <= r[j].start
    ensures Points(r) == Points(ivs)
    ensures Proper(ivs) ==> Proper(r)
  {
    var r := Sort(StartsNoLater, ivs);
    SameElementsSamePoints(r, ivs);
    assert forall i, j :: 0 <= i < j < |r| ==> StartsNoLater(r[i], r[j]);
    r
  }

  /** Sorts and coalesces overlapping or touching intervals. */
  method Merge(intervals: seq<Interval>) returns (merged: seq<Interval>)
    ensures Points(merged) == Points(intervals)
    ensures Separated(merged)
    ensures Proper(intervals) ==> Proper(merged)
    ensures Canonical(intervals) ==> merged == intervals
  {
    if intervals == [] {
      return [];
    }
    var ordered := SortByStart(intervals);
    merged := [ordered[0]];
    MergeBegins(ordered);
    for k := 1 to |ordered|
      invariant MergedSoFar(ordered, k, merged)
    {
      var cur, last := ordered[k], merged[|merged| - 1];
      MergeContinues(ordered, k, merged);
      if cur.start <= last.end {
        if cur.end > last.end {
          merged := merged[|merged| - 1 := Interval(last.start, cur.end)];
        }
      } else {
        merged := merged + [cur];
      }
    }
    assert ordered[..|ordered|] == ordered;
    if Canonical(intervals) {
      CanonicalUnique(intervals, merged);
    }
  }

  /** The invariant of the coalescing loop. */
  ghost predicate MergedSoFar(ordered: seq<Interval>, k: nat, merged: seq<Interval>)
    requires 0 < k <= |ordered|
  {
    && merged != []
    && Separated(merged)
    && Points(merged) == Points(ordered[..k])
    && merged[|merged| - 1].start <= ordered[k - 1].start
    && (Proper(ordered) ==> Proper(merged))
  }

  lemma MergeBegins(ordered: seq<Interval>)
    requires ordered != []
    ensures MergedSoFar(ordered, 1, [ordered[0]])
  {
  }

  lemma MergeContinues(ordered: seq<Interval>, k: nat, merged: seq<Interval>)
    requires 0 < k < |ordered| && MergedSoFar(ordered, k, merged)
    requires ordered[k - 1].start <= ordered[k].start
    ensures MergedSoFar(ordered, k + 1, Coalesce(merged, ordered[k]))
  {
    CoalesceCovers(merged, ordered[k]);
    CoalesceSeparated(merged, ordered[k]);
    PrefixPoints(ordered, k);
  }

  lemma SameElementsSamePoints(a: seq<Interval>, b: seq<Interval>)
    requires multiset(a) == multiset(b)
    ensures |a| == |b|
    ensures forall t :: Covers(a, t) <==> Covers(b, t)
    ensures Proper(a) <==> Proper(b)
  {
    SameMultiset(a, b);
    assert forall iv :: iv in a <==> iv in b;
    forall t ensures Covers(a, t) <==> Covers(b, t) {
      assert Covers(a, t) <==> exists iv :: iv in a && iv.start <= t < iv.end;
      assert Covers(b, t) <==> exists iv :: iv in b && iv.start <= t < iv.end;
    }
    assert Proper(a) <==> forall iv :: iv in a ==> iv.start < iv.end;
    assert Proper(b) <==> forall iv :: iv in b ==> iv.start < iv.end;
  }

  lemma CoversAppend(ivs: seq<Interval>, iv: Interval)
    ensures forall t :: Covers(ivs + [iv], t) <==> Covers(ivs, t) || iv.start <= t < iv.end
    ensures Points(ivs + [iv]) == Points(ivs) + Between(iv.start, iv.end)
  {
    var r := ivs + [iv];
    forall t ensures Covers(r, t) <==> Covers(ivs, t) || iv.start <= t < iv.end {
      if Covers(ivs, t) {
        var i :| 0 <= i < |ivs| && ivs[i].start <= t < ivs[i].end;
        assert r[i] == ivs[i];
      }
      assert r[|ivs|] == iv;
    }
  }

  lemma PrefixPoints(ivs: seq<Interval>, k: nat)
    requires k < |ivs|
    ensures Points(ivs[..k + 1]) == Points(ivs[..k]) + Between(ivs[k].start, ivs[k].end)
  {
  }

  /** What one step of the coalescing loop makes of the list built so far. */
  function Coalesce(merged: seq<Interval>, cur: Interval): seq<Interval>
    requires merged != []
  {
    var last := merged[|merged| - 1];
    if cur.start > last.end then merged + [cur]
    else if cur.end > last.end then merged[|merged| - 1 := Interval(last.start, cur.end)]
    else merged
  }

  /** A step adds exactly the instants of `cur`. */
  lemma CoalesceCovers(merged: seq<Interval>, cur: Interval)
    requires merged != [] && merged[|merged| - 1].start <= cur.start
    ensures Points(Coalesce(merged, cur)) == Points(merged) + Between(cur.start, cur.end)
  {
    var n := |merged| - 1;
    var init, after := merged[..n], Coalesce(merged, cur);
    assert merged == init + [merged[n]];
    CoversAppend(merged, cur);
    CoversAppend(init, merged[n]);
    if cur.start <= merged[n].end {
      assert after == init + [after[n]];
      CoversAppend(init, after[n]);
    }
  }

  lemma CoalesceSeparated(merged: seq<Interval>, cur: Interval)
    requires merged != [] && Separated(merged) && merged[|merged| - 1].start <= cur.start
    ensures Separated(Coalesce(merged, cur))
    ensures var after := Coalesce(merged, cur); after[|after| - 1].start <= cur.start
    ensures Proper(merged) && cur.start < cur.end ==> Proper(Coalesce(merged, cur))
  {
  }

  // -------------------------------------------------------- canonical form

  lemma TailPoints(ivs: seq<Interval>)
    requires ivs != [] && Canonical(ivs)
    ensures Canonical(ivs[1..])
    ensures Points(ivs[1..]) == Points(ivs) - Between(ivs[0].start, ivs[0].end)
  {
  }

  lemma MemberIsRun(ivs: seq<Interval>, i: nat)
    requires Canonical(ivs) && i < |ivs|
    ensures IsRun(Points(ivs), ivs[i])
  {
  }

  /** The intervals of a canonical list are exactly the maximal stretches of its points. */
  lemma CanonicalRuns(ivs: seq<Interval>, iv: Interval)
    requires Canonical(ivs)
    ensures iv in ivs <==> IsRun(Points(ivs), iv)
  {
    if iv in ivs {
      var i :| 0 <= i < |ivs| && ivs[i] == iv;
      MemberIsRun(ivs, i);
    }
    if IsRun(Points(ivs), iv) {
      assert iv.start in Points(ivs);
      var i :| 0 <= i < |ivs| && ivs[i].start <= iv.start < ivs[i].end;
      MemberIsRun(ivs, i);
      assert ivs[i] == iv;
    }
  }

  lemma SameFirst(a: seq<Interval>, b: seq<Interval>)
    requires Canonical(a) && Canonical(b) && Points(a) == Points(b) && a != []
    ensures b != [] && a[0] == b[0]
  {
    assert Covers(a, a[0].start) && a[0].start in Points(b);
    assert Covers(b, b[0].start) && b[0].start in Points(a);
    MemberIsRun(a, 0);
    MemberIsRun(b, 0);
  }

  /** A point set has at most one canonical list. */
  lemma {:induction false} CanonicalUnique(a: seq<Interval>, b: seq<Interval>)
    requires Canonical(a) && Canonical(b) && Points(a) == Points(b)
    ensures a == b
  {
    if a != [] {
      SameFirst(a, b);
      TailPoints(a);
      TailPoints(b);
      CanonicalUnique(a[1..], b[1..]);
      assert a == [a[0]] + a[1..] && b == [b[0]] + b[1..];
    } else if b != [] {
      SameFirst(b, a);
    }
  }

  /** A stretch of points of a canonical list lies inside one of its intervals. */
  lemma StretchInOneInterval(ivs: seq<Interval>, lo: int, hi: int) returns (k: nat)
    requires Canonical(ivs) && lo < hi && Between(lo, hi) <= Points(ivs)
    ensures k < |ivs| && ivs[k].start <= lo && hi <= ivs[k].end
  {
    assert Within(lo, lo, hi) && lo in Points(ivs);
    k :| 0 <= k < |ivs| && ivs[k].start <= lo < ivs[k].end;
    if ivs[k].end < hi {
      MemberIsRun(ivs, k);
      assert Within(ivs[k].end, lo, hi);
    }
  }

  // -------------------------------------------------- difference and restriction

  /** What is left of `iv` once `cut` is taken out. */
  function Pieces(iv: Interval, cut: Interval): seq<Interval> {
    if cut.end <= iv.start || cut.start >= iv.end then [iv]
    else
      (if cut.start > iv.start then [Interval(iv.start, cut.start)] else [])
      + (if cut.end < iv.end then [Interval(cut.end, iv.end)] else [])
  }

  lemma PiecesPoints(nxt: seq<Interval>, iv: Interval, cut: Interval)
    ensures Points(nxt + Pieces(iv, cut)) == Points(nxt) + (Between(iv.start, iv.end) - Between(cut.start, cut.end))
  {
    var p := Pieces(iv, cut);
    if |p| == 2 {
      assert nxt + p == nxt + [p[0]] + [p[1]];
      CoversAppend(nxt, p[0]);
      CoversAppend(nxt + [p[0]], p[1]);
    } else if |p| == 1 {
      assert p == [p[0]];
      CoversAppend(nxt, p[0]);
    } else {
      assert nxt + p == nxt;
    }
  }

  /** The first m intervals of `result` have been cut, into `nxt`. */
  ghost predicate CutSoFar(result: seq<Interval>, m: nat, cut: Interval, nxt: seq<Interval>)
    requires m <= |result|
  {
    && Points(nxt) == Points(result[..m]) - Between(cut.start, cut.end)
    && (Canonical(result) && cut.start < cut.end ==>
          && Canonical(nxt)
          && (m < |result| ==> forall i :: 0 <= i < |nxt| ==> nxt[i].end < result[m].start))
  }

  lemma CutContinues(result: seq<Interval>, m: nat, cut: Interval, nxt: seq<Interval>)
    requires m < |result| && CutSoFar(result, m, cut, nxt)
    ensures CutSoFar(result, m + 1, cut, nxt + Pieces(result[m], cut))
  {
    PiecesPoints(nxt, result[m], cut);
    PrefixPoints(result, m);
  }

  /** The first k cuts have been taken out of `base`. */
  ghost predicate SubtractedSoFar(base: seq<Interval>, cuts: seq<Interval>, k: nat, result: seq<Interval>)
    requires k <= |cuts|
  {
    && Points(result) == Points(base) - Points(cuts[..k])
    && (Canonical(base) && Proper(cuts) ==> Canonical(result))
  }

  lemma SubtractContinues(base: seq<Interval>, cuts: seq<Interval>, k: nat, result: seq<Interval>, nxt: seq<Interval>)
    requires k < |cuts| && SubtractedSoFar(base, cuts, k, result)
    requires CutSoFar(result, |result|, cuts[k], nxt)
    ensures SubtractedSoFar(base, cuts, k + 1, nxt)
  {
    PrefixPoints(cuts, k);
    assert result[..|result|] == result;
  }

  /** `base` minus `cuts`; neither needs to be merged. */
  method Subtract(base: seq<Interval>, cuts: seq<Interval>) returns (result: seq<Interval>)
    ensures Points(result) == Points(base) - Points(cuts)
    ensures Canonical(base) && Proper(cuts) ==> Canonical(result)
  {
    result := base;
    var merged := Merge(cuts);
    for k := 0 to |merged|
      invariant SubtractedSoFar(base, merged, k, result)
    {
      var cut := merged[k];
      var nxt: seq<Interval> := [];
      for m := 0 to |result|
        invariant CutSoFar(result, m, cut, nxt)
      {
        var iv := result[m];
        CutContinues(result, m, cut, nxt);
        ghost var was := nxt;
        if cut.end <= iv.start || cut.start >= iv.end {
          nxt := nxt + [iv];
        } else {
          if cut.start > iv.start {
            nxt := nxt + [Interval(iv.start, cut.start)];
          }
          if cut.end < iv.end {
            nxt := nxt + [Interval(cut.end, iv.end)];
          }
        }
        assert nxt == was + Pieces(iv, cut);
      }
      SubtractContinues(base, merged, k, result, nxt);
      result := nxt;
    }
    assert merged[..|merged|] == merged;
  }

  method Clip(intervals: seq<Interval>, lo: int, hi: int) returns (out: seq<Interval>)
    ensures Points(out) == Points(intervals) * Between(lo, hi)
    ensures Proper(out)
    ensures Separated(intervals) ==> Separated(out)
  {
    out := [];
    for k := 0 to |intervals|
      invariant forall t :: Covers(out, t) <==> Covers(intervals[..k], t) && lo <= t < hi
      invariant Proper(out)
      invariant Separated(intervals) ==> Separated(out)
      invariant k < |intervals| && Separated(intervals) ==>
                  forall i :: 0 <= i < |out| ==> out[i].end < intervals[k].start
    {
      var iv := intervals[k];
      var s, e := if iv.start > lo then iv.start else lo, if iv.end < hi then iv.end else hi;
      assert intervals[..k + 1] == intervals[..k] + [iv];
      CoversAppend(intervals[..k], iv);
      CoversAppend(out, Interval(s, e));
      if s < e {
        out := out + [Interval(s, e)];
      }
    }
    assert intervals[..|intervals|] == intervals;
    assert forall t :: Covers(intervals, t) <==> t in Points(intervals);
  }

  // ------------------------------------------------------------ intersection

  /** Everything `a` and `b` share is in `out` already or still ahead of (i, j). */
  ghost predicate SharedSoFar(a: seq<Interval>, b: seq<Interval>, i: nat, j: nat, out: seq<Interval>)
    requires i <= |a| && j <= |b|
  {
    && (forall t :: Covers(a, t) && Covers(b, t) <==> Covers(out, t) || (Covers(a[i..], t) && Covers(b[j..], t)))
    && Canonical(out)
    && (i < |a| && j < |b| ==> EndsBefore(out, a[i], b[j]))
  }

  /** What one turn of the two-pointer walk finds. */
  function Overlap(x: Interval, y: Interval): Interval {
    Interval(if x.start > y.start then x.start else y.start, if x.end < y.end then x.end else y.end)
  }

  /** The pointer that moves leaves behind only what the overlap holds. */
  lemma WalkAt(a: seq<Interval>, b: seq<Interval>, i: nat, j: nat, t: int)
    requires Separated(a) && Separated(b) && i < |a| && j < |b|
    ensures var o := Overlap(a[i], b[j]);
            Covers(a[i..], t) && Covers(b[j..], t) <==>
              || o.start <= t < o.end
              || (if a[i].end < b[j].end then Covers(a[i + 1..], t) && Covers(b[j..], t)
                  else Covers(a[i..], t) && Covers(b[j + 1..], t))
  {
  }

  /** The walk's result with this turn's overlap, if there is one. */
  function WithOverlap(out: seq<Interval>, x: Interval, y: Interval): seq<Interval> {
    if Overlap(x, y).start < Overlap(x, y).end then out + [Overlap(x, y)] else out
  }

  lemma WithOverlapCovers(out: seq<Interval>, x: Interval, y: Interval, t: int)
    ensures Covers(WithOverlap(out, x, y), t) <==> Covers(out, t) || Overlap(x, y).start <= t < Overlap(x, y).end
  {
    CoversAppend(out, Overlap(x, y));
  }

  /** What is shared stays in sight when one pointer moves. */
  lemma WalkCovers(a: seq<Interval>, b: seq<Interval>, i: nat, j: nat, out: seq<Interval>, t: int)
    requires Separated(a) && Separated(b) && i < |a| && j < |b|
    requires Covers(a, t) && Covers(b, t) <==> Covers(out, t) || (Covers(a[i..], t) && Covers(b[j..], t))
    ensures Covers(a, t) && Covers(b, t) <==>
              || Covers(WithOverlap(out, a[i], b[j]), t)
              || (if a[i].end < b[j].end then Covers(a[i + 1..], t) && Covers(b[j..], t)
                  else Covers(a[i..], t) && Covers(b[j + 1..], t))
  {
    WithOverlapCovers(out, a[i], b[j], t);
    WalkAt(a, b, i, j, t);
  }

  ghost predicate EndsBefore(out: seq<Interval>, x: Interval, y: Interval) {
    forall k :: 0 <= k < |out| ==> out[k].end < x.start || out[k].end < y.start
  }

  /** The result stays canonical, and ends before whatever comes next on one of the sides. */
  lemma WalkKeepsOrder(a: seq<Interval>, b: seq<Interval>, i: nat, j: nat, out: seq<Interval>)
    requires Separated(a) && Separated(b) && i < |a| && j < |b| && Canonical(out)
    requires EndsBefore(out, a[i], b[j])
    ensures Canonical(WithOverlap(out, a[i], b[j]))
    ensures var next := WithOverlap(out, a[i], b[j]);
            if a[i].end < b[j].end then i + 1 < |a| ==> EndsBefore(next, a[i + 1], b[j])
            else j + 1 < |b| ==> EndsBefore(next, a[i], b[j + 1])
  {
    OverlapKeepsCanonical(out, a[i], b[j]);
    hide Canonical;
    if a[i].end < b[j].end {
      if i + 1 < |a| { OverlapEndsBefore(out, a[i], b[j], a[i + 1]); }
    } else if j + 1 < |b| {
      OverlapEndsBefore(out, b[j], a[i], b[j + 1]);
    }
  }

  lemma OverlapKeepsCanonical(out: seq<Interval>, x: Interval, y: Interval)
    requires Canonical(out) && EndsBefore(out, x, y)
    ensures Canonical(WithOverlap(out, x, y))
  {
    var o := Overlap(x, y);
    assert forall k :: 0 <= k < |out| ==> out[k].end < o.start;
  }

  /** The one that ends first gives way to `z`, the next on its side. */
  lemma OverlapEndsBefore(out: seq<Interval>, x: Interval, y: Interval, z: Interval)
    requires EndsBefore(out, x, y) && x.end <= y.end && x.end < z.start && x.start <= z.start
    ensures EndsBefore(WithOverlap(out, x, y), z, y) && EndsBefore(WithOverlap(out, y, x), y, z)
  {
    assert Overlap(x, y).end <= x.end && Overlap(y, x) == Overlap(x, y);
  }

  lemma WalkContinues(a: seq<Interval>, b: seq<Interval>, i: nat, j: nat, out: seq<Interval>)
    requires Separated(a) && Separated(b) && i < |a| && j < |b| && SharedSoFar(a, b, i, j, out)
    ensures var next := WithOverlap(out, a[i], b[j]);
            if a[i].end < b[j].end then SharedSoFar(a, b, i + 1, j, next) else SharedSoFar(a, b, i, j + 1, next)
  {
    hide WithOverlap, Canonical, Covers, Separated;
    WalkKeepsOrder(a, b, i, j, out);
    forall t {
      WalkCovers(a, b, i, j, out, t);
    }
  }

  lemma WalkBegins(a: seq<Interval>, b: seq<Interval>)
    ensures SharedSoFar(a, b, 0, 0, [])
  {
    assert a[0..] == a && b[0..] == b;
  }

  lemma WalkEnds(a: seq<Interval>, b: seq<Interval>, i: nat, j: nat, out: seq<Interval>)
    requires i <= |a| && j <= |b| && SharedSoFar(a, b, i, j, out) && (i == |a| || j == |b|)
    ensures Points(out) == Points(a) * Points(b) && Canonical(out)
  {
    assert forall t :: Covers(a, t) <==> t in Points(a);
    assert forall t :: Covers(b, t) <==> t in Points(b);
  }

  /** The two-pointer walk; its result is canonical whatever the inputs are. */
  method Intersect(a0: seq<Interval>, b0: seq<Interval>) returns (out: seq<Interval>)
    ensures Points(out) == Points(a0) * Points(b0)
    ensures Canonical(out)
  {
    var a := Merge(a0);
    var b := Merge(b0);
    hide SharedSoFar, Separated, Canonical, Points;
    out := [];
    var i, j := 0, 0;
    WalkBegins(a, b);
    while i < |a| && j < |b|
      invariant i <= |a| && j <= |b|
      invariant SharedSoFar(a, b, i, j, out)
      decreases |a| - i + |b| - j
    {
      WalkContinues(a, b, i, j, out);
      var lo := if a[i].start > b[j].start then a[i].start else b[j].start;
      var hi := if a[i].end < b[j].end then a[i].end else b[j].end;
      if lo < hi {
        out := out + [Interval(lo, hi)];
      }
      if a[i].end < b[j].end {
        i := i + 1;
      } else {
        j := j + 1;
      }
    }
    WalkEnds(a, b, i, j, out);
  }
}
