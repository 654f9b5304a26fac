/** The five scoring factors, over exact reals. */
module Scoring {
  import opened Lists
  import opened Intervals
  import opened SchedulingTypes

  function Clamp(x: real): real {
    if x < 0.0 then 0.0 else if x > 1.0 then 1.0 else x
  }

  function Abs(x: real): real {
    if x < 0.0 then -x else x
  }

  function Hours(seconds: int): real {
    seconds as real / 3600.0
  }

  function Minutes(span: int): real {
    span as real / 60_000_000.0
  }

  function Days(span: int): real {
    span as real / 86_400_000_000.0
  }

  function MinOf(xs: seq<real>): (r: real)
    requires xs != []
    ensures r in xs && forall i :: 0 <= i < |xs| ==> r <= xs[i]
  {
    if |xs| == 1 then xs[0]
    else
      var r := MinOf(xs[1..]);
      assert forall i :: 0 < i < |xs| ==> xs[i] == xs[1..][i - 1];
      if xs[0] <= r then xs[0] else r
  }

  /** The worst-off participant decides, whatever the order they are listed in. */
  function WorstOff(xs: seq<real>): real {
    if xs == [] then 0.0 else MinOf(xs)
  }

  function LocalHours(tz: ZoneTable, ps: seq<Participant>, t: int): (hours: seq<real>)
    requires KnownZones(tz, ps)
  {
    seq(|ps|, i requires 0 <= i < |ps| => Hours(LocalSecond(tz[ps[i].timezone], t)))
  }

  function FairnessAt(hour: real, wh: WorkingHours): real
    requires wh.dayStart != wh.dayEnd
  {
    var mid := (Hours(wh.dayStart) + Hours(wh.dayEnd)) / 2.0;
    var halfWidth := (Hours(wh.dayEnd) - Hours(wh.dayStart)) / 2.0;
    Clamp(1.0 - Abs(hour - mid) / halfWidth)
  }

  function ComfortAt(hour: real, wh: WorkingHours): real {
    var dayStart, dayEnd := Hours(wh.dayStart), Hours(wh.dayEnd);
    var coreStart, coreEnd := Hours(wh.coreStart), Hours(wh.coreEnd);
    if coreStart <= hour <= coreEnd then 1.0
    else if dayStart <= hour < coreStart then Clamp((hour - dayStart) / (coreStart - dayStart))
    else if coreEnd < hour <= dayEnd then Clamp((dayEnd - hour) / (dayEnd - coreEnd))
    else 0.0
  }

  function TimezoneFairness(hours: seq<real>, wh: WorkingHours): real
    requires wh.dayStart != wh.dayEnd
  {
    WorstOff(seq(|hours|, i requires 0 <= i < |hours| => FairnessAt(hours[i], wh)))
  }

  function WorkingHoursComfort(hours: seq<real>, wh: WorkingHours): real {
    WorstOff(seq(|hours|, i requires 0 <= i < |hours| => ComfortAt(hours[i], wh)))
  }

  function SchedulingProximity(start: int, reference: int, horizonDays: int): real
    requires horizonDays != 0
  {
    Clamp(1.0 - Days(start - reference) / horizonDays as real)
  }

  function BufferQuality(gapBefore: real, gapAfter: real, bufferMinutes: int): real {
    if bufferMinutes <= 0 then 1.0
    else
      var extra := (if gapBefore <= gapAfter then gapBefore else gapAfter) - bufferMinutes as real;
      Clamp(extra / bufferMinutes as real)
  }

  function Share(weight: real, factor: real): real {
    weight * factor
  }

  function WeightedTotal(b: Breakdown, w: Weights): real {
    Share(w.fairness, b.fairness) + Share(w.comfort, b.comfort) + Share(w.proximity, b.proximity)
    + Share(w.workload, b.workload) + Share(w.buffer, b.buffer)
  }

  // --------------------------------------------------------------- workload balance

  function CountOnDay(z: Zone, bookings: seq<int>, day: int): nat {
    if bookings == [] then 0
    else (if LocalDay(z, bookings[0]) == day then 1 else 0) + CountOnDay(z, bookings[1..], day)
  }

  function BookingsOf(bookings: map<string, seq<int>>, id: string): seq<int> {
    if id in bookings then bookings[id] else []
  }

  /** One panelist's share: 1 on a local day with no other interview, 1/2 with one, and so on. */
  function Lightness(tz: ZoneTable, p: Participant, start: int, bookings: map<string, seq<int>>): real
    requires p.timezone in tz
  {
    var z := tz[p.timezone];
    1.0 / (1 + CountOnDay(z, BookingsOf(bookings, p.id), LocalDay(z, start))) as real
  }

  function SumLightness(tz: ZoneTable, ps: seq<Participant>, start: int, bookings: map<string, seq<int>>): (r: real)
    requires KnownZones(tz, ps)
    ensures 0.0 <= r <= |ps| as real
  {
    if ps == [] then 0.0
    else Lightness(tz, ps[0], start, bookings) + SumLightness(tz, ps[1..], start, bookings)
  }

  /** The average lightness of the panel; 1 for an empty panel. */
  function Balance(tz: ZoneTable, ps: seq<Participant>, start: int, bookings: map<string, seq<int>>): real
    requires KnownZones(tz, ps)
  {
    if ps == [] then 1.0 else SumLightness(tz, ps, start, bookings) / |ps| as real
  }

  lemma {:induction false} SumLightnessAppend(
    tz: ZoneTable, a: seq<Participant>, b: seq<Participant>, start: int, bookings: map<string, seq<int>>)
    requires KnownZones(tz, a + b)
    ensures KnownZones(tz, a) && KnownZones(tz, b)
    ensures SumLightness(tz, a + b, start, bookings)
         == SumLightness(tz, a, start, bookings) + SumLightness(tz, b, start, bookings)
  {
    assert forall i :: 0 <= i < |a| ==> a[i] == (a + b)[i];
    assert forall i :: 0 <= i < |b| ==> b[i] == (a + b)[|a| + i];
    if a == [] {
      assert a + b == b;
    } else {
      assert (a + b)[1..] == a[1..] + b;
      SumLightnessAppend(tz, a[1..], b, start, bookings);
    }
  }

  /** The loop of the source: one score per panelist, then their mean. */
  method WorkloadBalance(tz: ZoneTable, ps: seq<Participant>, start: int, bookings: map<string, seq<int>>)
    returns (r: real)
    requires KnownZones(tz, ps)
    ensures r == Balance(tz, ps, start, bookings)
  {
    if ps == [] {
      return 1.0;
    }
    var sum := 0.0;
    for k := 0 to |ps|
      invariant KnownZones(tz, ps[..k])
      invariant sum == SumLightness(tz, ps[..k], start, bookings)
    {
      var z := tz[ps[k].timezone];
      var localDay := LocalDay(z, start);
      var count := CountOnDay(z, BookingsOf(bookings, ps[k].id), localDay);
      sum := sum + 1.0 / (1 + count) as real;
      assert ps[..k + 1] == ps[..k] + [ps[k]];
      SumLightnessAppend(tz, ps[..k], [ps[k]], start, bookings);
    }
    assert ps[..|ps|] == ps;
    r := sum / |ps| as real;
  }

  // ----------------------------------------------------------------- score ranges

  predicate UnitInterval(x: real) {
    0.0 <= x <= 1.0
  }

  predicate BreakdownInRange(b: Breakdown) {
    && UnitInterval(b.fairness) && UnitInterval(b.comfort) && UnitInterval(b.proximity)
    && UnitInterval(b.workload) && UnitInterval(b.buffer)
  }

  predicate WeightsNormalised(w: Weights) {
    && w.fairness >= 0.0 && w.comfort >= 0.0 && w.proximity >= 0.0 && w.workload >= 0.0 && w.buffer >= 0.0
    && w.fairness + w.comfort + w.proximity + w.workload + w.buffer == 1.0
  }

  lemma ShareInRange(w: real, x: real)
    requires w >= 0.0 && UnitInterval(x)
    ensures 0.0 <= Share(w, x) <= w
  {
    assert w * (1.0 - x) >= 0.0;
  }

  /** A convex combination of factors in [0, 1] stays in [0, 1]. */
  lemma TotalInRange(b: Breakdown, w: Weights)
    requires BreakdownInRange(b) && WeightsNormalised(w)
    ensures UnitInterval(WeightedTotal(b, w))
  {
    ShareInRange(w.fairness, b.fairness);
    ShareInRange(w.comfort, b.comfort);
    ShareInRange(w.proximity, b.proximity);
    ShareInRange(w.workload, b.workload);
    ShareInRange(w.buffer, b.buffer);
  }

  lemma DivisionBounds(x: real, d: real)
    requires 0.0 <= x <= d && d > 0.0
    ensures UnitInterval(x / d)
  {
    var q := x / d;
    assert q * d == x;
  }

  /** The fairness formula needs no clamping, and comfort is decided by one of its three bands. */
  predicate SafetyNetsIdle(hour: real, wh: WorkingHours) {
    var mid := (Hours(wh.dayStart) + Hours(wh.dayEnd)) / 2.0;
    var halfWidth := (Hours(wh.dayEnd) - Hours(wh.dayStart)) / 2.0;
    && wh.dayStart != wh.dayEnd
    && FairnessAt(hour, wh) == 1.0 - Abs(hour - mid) / halfWidth
    && (|| Hours(wh.coreStart) <= hour <= Hours(wh.coreEnd)
        || Hours(wh.dayStart) <= hour < Hours(wh.coreStart)
        || Hours(wh.coreEnd) < hour <= Hours(wh.dayEnd))
  }

  /** Neither safety net is needed exactly while the clock reads a time of the working day, its end
      included. */
  lemma SafetyNetsExact(second: int, wh: WorkingHours)
    requires wh.dayStart < wh.dayEnd
    ensures SafetyNetsIdle(Hours(second), wh) <==> wh.dayStart <= second <= wh.dayEnd
  {
    var mid := (Hours(wh.dayStart) + Hours(wh.dayEnd)) / 2.0;
    var halfWidth := (Hours(wh.dayEnd) - Hours(wh.dayStart)) / 2.0;
    var distance := Abs(Hours(second) - mid);
    var q := distance / halfWidth;
    assert q * halfWidth == distance;
    if wh.dayStart <= second <= wh.dayEnd {
      DivisionBounds(distance, halfWidth);
    } else {
      assert q > 1.0;
    }
  }

  lemma ClampedInRange(hours: seq<real>, wh: WorkingHours)
    requires wh.dayStart != wh.dayEnd
    ensures UnitInterval(TimezoneFairness(hours, wh)) && UnitInterval(WorkingHoursComfort(hours, wh))
  {
    hide FairnessAt, ComfortAt, Hours;
    forall h ensures UnitInterval(FairnessAt(h, wh)) && UnitInterval(ComfortAt(h, wh)) {
      ClampedAt(h, wh);
    }
  }

  lemma ClampedAt(hour: real, wh: WorkingHours)
    requires wh.dayStart != wh.dayEnd
    ensures UnitInterval(FairnessAt(hour, wh)) && UnitInterval(ComfortAt(hour, wh))
  {
    hide Hours, Abs;
  }

  lemma BalanceInRange(tz: ZoneTable, ps: seq<Participant>, start: int, bookings: map<string, seq<int>>)
    requires KnownZones(tz, ps)
    ensures UnitInterval(Balance(tz, ps, start, bookings))
  {
  }

  // ---------------------------------------------------------- the factors, in numbers

  lemma DivisionOrder(x: real, y: real, d: real)
    requires d > 0.0
    ensures x / d * d == x
    ensures x <= y <==> x / d <= y / d
  {
    var p, q := x / d, y / d;
    assert p * d == x && q * d == y;
    if p <= q {
      assert (q - p) * d >= 0.0;
    } else {
      assert (p - q) * d > 0.0;
    }
  }

  /** Sooner is better: 1 until the reference, falling in a straight line to 0 at the horizon. */
  lemma ProximityFalls(start: int, reference: int, horizonDays: int)
    requires horizonDays > 0
    ensures var ahead, horizon := (start - reference) as real, (horizonDays * 86_400_000_000) as real;
            var score := SchedulingProximity(start, reference, horizonDays);
            && (ahead <= 0.0 ==> score == 1.0)
            && (ahead >= horizon ==> score == 0.0)
            && (0.0 <= ahead <= horizon ==> score * horizon == horizon - ahead)
  {
    var ahead, horizon := (start - reference) as real, (horizonDays * 86_400_000_000) as real;
    var share := Days(start - reference) / horizonDays as real;
    DivisionOrder(Days(start - reference), 0.0, horizonDays as real);
    assert share * horizonDays as real == ahead / 86_400_000_000.0;
    assert share * horizon == ahead;
    RatioSize(share, horizon, ahead);
  }

  lemma RatioSize(share: real, whole: real, part: real)
    requires whole > 0.0 && share * whole == part
    ensures part <= 0.0 <==> share <= 0.0
    ensures part >= whole <==> share >= 1.0
    ensures (1.0 - share) * whole == whole - part
  {
    var gap := 1.0 - share;
    assert gap * whole == whole - part;
    PositiveProduct(share, whole);
    PositiveProduct(gap, whole);
  }

  lemma PositiveProduct(x: real, y: real)
    requires y > 0.0
    ensures x > 0.0 <==> x * y > 0.0
    ensures x >= 0.0 <==> x * y >= 0.0
  {
  }

  /** 1 in the middle of the working day, falling in a straight line to 0 at its edges. */
  lemma FairnessFalls(second: int, wh: WorkingHours)
    requires wh.dayStart < wh.dayEnd
    ensures var width := (wh.dayEnd - wh.dayStart) as real;
            var twice := 2 * second - wh.dayStart - wh.dayEnd;
            var off := (if twice >= 0 then twice else -twice) as real;
            FairnessAt(Hours(second), wh) * width == if off <= width then width - off else 0.0
  {
    var width, off := (wh.dayEnd - wh.dayStart) as real, Abs((2 * second - wh.dayStart - wh.dayEnd) as real);
    var mid := (Hours(wh.dayStart) + Hours(wh.dayEnd)) / 2.0;
    var halfWidth := (Hours(wh.dayEnd) - Hours(wh.dayStart)) / 2.0;
    var share := Abs(Hours(second) - mid) / halfWidth;
    assert share * halfWidth == Abs(Hours(second) - mid);
    assert halfWidth * 7200.0 == width && Abs(Hours(second) - mid) * 7200.0 == off;
    assert share * width == (share * halfWidth) * 7200.0;
    RatioSize(share, width, off);
  }

  /** 1 exactly in the core band, and in a straight line to 0 at the day's edge on either side. */
  lemma ComfortFalls(second: int, wh: WorkingHours)
    requires wh.dayStart <= wh.coreStart <= wh.coreEnd <= wh.dayEnd
    ensures var score := ComfortAt(Hours(second), wh);
            && (score == 1.0 <==> wh.coreStart <= second <= wh.coreEnd)
            && (wh.dayStart <= second < wh.coreStart ==>
                  score * (wh.coreStart - wh.dayStart) as real == (second - wh.dayStart) as real)
            && (wh.coreEnd < second <= wh.dayEnd ==>
                  score * (wh.dayEnd - wh.coreEnd) as real == (wh.dayEnd - second) as real)
            && (second < wh.dayStart || second > wh.dayEnd ==> score == 0.0)
  {
    if wh.dayStart <= second < wh.coreStart {
      SameRatio(second - wh.dayStart, wh.coreStart - wh.dayStart);
    } else if wh.coreEnd < second <= wh.dayEnd {
      SameRatio(wh.dayEnd - second, wh.dayEnd - wh.coreEnd);
    }
  }

  /** Measured in hours or in seconds, a share of the way is the same. */
  lemma SameRatio(part: int, whole: int)
    requires 0 <= part < whole
    ensures var share := Hours(part) / Hours(whole);
            0.0 <= share < 1.0 && share * whole as real == part as real
  {
    var share := Hours(part) / Hours(whole);
    assert share * Hours(whole) == Hours(part);
    assert share * whole as real == (share * Hours(whole)) * 3600.0;
    RatioSize(share, whole as real, part as real);
  }

  /** 0 at exactly the mandatory buffer on the tighter side, 1 from twice that; 1 without a buffer. */
  lemma BufferGrows(before: int, after: int, bufferMinutes: int)
    requires bufferMinutes >= 0
    ensures var tighter, buffer := if before <= after then before else after, bufferMinutes * 60_000_000;
            var score := BufferQuality(Minutes(before), Minutes(after), bufferMinutes);
            && (bufferMinutes == 0 ==> score == 1.0)
            && (bufferMinutes > 0 && tighter <= buffer ==> score == 0.0)
            && (bufferMinutes > 0 && tighter >= 2 * buffer ==> score == 1.0)
            && (buffer <= tighter <= 2 * buffer && bufferMinutes > 0 ==>
                  score * buffer as real == (tighter - buffer) as real)
  {
    if bufferMinutes > 0 {
      var tighter, buffer := if before <= after then before else after, bufferMinutes * 60_000_000;
      var extra := Minutes(tighter) - bufferMinutes as real;
      var share := extra / bufferMinutes as real;
      assert share * bufferMinutes as real == extra;
      assert share * buffer as real == (share * bufferMinutes as real) * 60_000_000.0;
      RatioSize(share, buffer as real, (tighter - buffer) as real);
    }
  }

  lemma WorstOffIsLeast(xs: seq<real>)
    requires xs != []
    ensures forall i :: 0 <= i < |xs| ==> WorstOff(xs) <= xs[i]
    ensures exists i :: 0 <= i < |xs| && WorstOff(xs) == xs[i]
  {
    assert WorstOff(xs) in xs;
  }

  /** Which of a panelist's interviews fall on the local day of `start`. */
  function SameDay(z: Zone, start: int): int -> real {
    (b: int) => if z.toLocal(b) / 86_400_000_000 == z.toLocal(start) / 86_400_000_000 then 1.0 else 0.0
  }

  /** How many of them there are. */
  function OthersThatDay(tz: ZoneTable, p: Participant, start: int, bookings: map<string, seq<int>>): (n: real)
    requires p.timezone in tz
  {
    if p.id in bookings then SumBy(SameDay(tz[p.timezone], start), bookings[p.id]) else 0.0
  }

  lemma {:induction false} CountIsSum(z: Zone, bookings: seq<int>, start: int)
    ensures CountOnDay(z, bookings, LocalDay(z, start)) as real == SumBy(SameDay(z, start), bookings)
  {
    if bookings != [] {
      CountIsSum(z, bookings[1..], start);
    }
  }

  lemma LightnessTold(tz: ZoneTable, p: Participant, start: int, bookings: map<string, seq<int>>)
    requires p.timezone in tz
    ensures IsShare(Lightness(tz, p, start, bookings), OthersThatDay(tz, p, start, bookings))
  {
    var z := tz[p.timezone];
    CountIsSum(z, BookingsOf(bookings, p.id), start);
    var n := CountOnDay(z, BookingsOf(bookings, p.id), LocalDay(z, start));
    assert 1.0 / (1 + n) as real * (1 + n) as real == 1.0;
  }

  /** One over one more than the others. */
  predicate IsShare(share: real, others: real) {
    share * (1.0 + others) == 1.0
  }

  predicate IsMean(mean: real, sum: real, n: nat) {
    mean * n as real == sum
  }

  /** Each panelist's share is one over one more than those, and the balance is their mean. */
  lemma {:induction false} BalanceIsMean(
    tz: ZoneTable, ps: seq<Participant>, start: int, bookings: map<string, seq<int>>, share: Participant -> real)
    requires KnownZones(tz, ps)
    requires forall i :: 0 <= i < |ps| ==> IsShare(share(ps[i]), OthersThatDay(tz, ps[i], start, bookings))
    ensures SumLightness(tz, ps, start, bookings) == SumBy(share, ps)
    ensures IsMean(Balance(tz, ps, start, bookings), SumBy(share, ps), |ps|)
  {
    hide OthersThatDay, Lightness, Balance, IsShare, IsMean;
    if ps != [] {
      BalanceIsMean(tz, ps[1..], start, bookings, share);
      LightnessTold(tz, ps[0], start, bookings);
      SameShare(share(ps[0]), Lightness(tz, ps[0], start, bookings), OthersThatDay(tz, ps[0], start, bookings));
    }
    MeanOfSum(tz, ps, start, bookings);
  }

  lemma MeanOfSum(tz: ZoneTable, ps: seq<Participant>, start: int, bookings: map<string, seq<int>>)
    requires KnownZones(tz, ps)
    ensures IsMean(Balance(tz, ps, start, bookings), SumLightness(tz, ps, start, bookings), |ps|)
  {
  }

  lemma SameShare(x: real, y: real, others: real)
    requires IsShare(x, others) && IsShare(y, others)
    ensures x == y
  {
    assert (x - y) * (1.0 + others) == 0.0;
  }

  // -------------------------------------------------------- order of participants

  lemma WorstOffSameElements(a: seq<real>, b: seq<real>)
    requires forall x :: x in a <==> x in b
    ensures WorstOff(a) == WorstOff(b)
  {
  }

  function Panelists(ps: seq<Participant>): (r: seq<Participant>)
    ensures forall p :: p in r <==> p in ps && !p.isCandidate
  {
    if ps == [] then [] else (if ps[0].isCandidate then [] else [ps[0]]) + Panelists(ps[1..])
  }

  lemma KnownPanelists(tz: ZoneTable, ps: seq<Participant>)
    requires KnownZones(tz, ps)
    ensures KnownZones(tz, Panelists(ps))
  {
  }

  /** A participant's part in the panel's size, and in its sum of shares. */
  function Seat(): Participant -> real {
    (p: Participant) => if p.isCandidate then 0.0 else 1.0
  }

  function PanelShare(tz: ZoneTable, start: int, bookings: map<string, seq<int>>): Participant -> real {
    (p: Participant) =>
      if p.isCandidate || p.timezone !in tz then 0.0 else Lightness(tz, p, start, bookings)
  }

  lemma {:induction false} PanelSize(ps: seq<Participant>)
    ensures |Panelists(ps)| as real == SumBy(Seat(), ps)
  {
    if ps != [] {
      PanelSize(ps[1..]);
    }
  }

  lemma {:induction false} PanelSum(tz: ZoneTable, ps: seq<Participant>, start: int, bookings: map<string, seq<int>>)
    requires KnownZones(tz, ps)
    ensures KnownZones(tz, Panelists(ps))
    ensures SumLightness(tz, Panelists(ps), start, bookings) == SumBy(PanelShare(tz, start, bookings), ps)
  {
    KnownPanelists(tz, ps);
    if ps != [] {
      PanelSum(tz, ps[1..], start, bookings);
      assert PanelShare(tz, start, bookings)(ps[0]) ==
             if ps[0].isCandidate then 0.0 else Lightness(tz, ps[0], start, bookings);
      if ps[0].isCandidate {
        assert Panelists(ps) == Panelists(ps[1..]);
      } else {
        assert Panelists(ps) == [ps[0]] + Panelists(ps[1..]);
        assert Panelists(ps)[1..] == Panelists(ps[1..]);
      }
    }
  }

  /** The panel's balance does not depend on the order in which participants are listed. */
  lemma BalancePermuted(
    tz: ZoneTable, a: seq<Participant>, b: seq<Participant>, start: int, bookings: map<string, seq<int>>)
    requires KnownZones(tz, a) && KnownZones(tz, b) && multiset(a) == multiset(b)
    ensures KnownZones(tz, Panelists(a)) && KnownZones(tz, Panelists(b))
    ensures Balance(tz, Panelists(a), start, bookings) == Balance(tz, Panelists(b), start, bookings)
  {
    PanelSize(a);
    PanelSize(b);
    PanelSum(tz, a, start, bookings);
    PanelSum(tz, b, start, bookings);
    SumByPermuted(Seat(), a, b);
    SumByPermuted(PanelShare(tz, start, bookings), a, b);
  }
}
