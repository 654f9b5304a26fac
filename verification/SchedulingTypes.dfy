/** The plain data of the scheduling engine. Instants are microseconds since an epoch. */
module SchedulingTypes {
  import opened Intervals

  const SECOND := 1_000_000
  const MINUTE := 60_000_000
  const DAY := 86_400_000_000

  /** A time zone: the wall clock (microseconds since a local epoch midnight) shown at an
      instant, and the instant a wall-clock reading denotes. */
  datatype Zone = Zone(toLocal: int -> int, toUtc: int -> int)

  type ZoneTable = map<string, Zone>

  /** Seconds since local midnight. */
  datatype WorkingHours = WorkingHours(dayStart: int, dayEnd: int, coreStart: int, coreEnd: int)

  datatype Participant = Participant(id: string, timezone: string, isCandidate: bool, busy: seq<Interval>)

  datatype Weights = Weights(fairness: real, comfort: real, proximity: real, workload: real, buffer: real)

  datatype Breakdown = Breakdown(fairness: real, comfort: real, proximity: real, workload: real, buffer: real)

  datatype Constraints = Constraints(
    durationMinutes: int,
    bufferMinutes: int,
    horizonDays: int,
    proximityHorizonDays: int,
    slotStepMinutes: int,
    topN: int,
    workingHours: WorkingHours)

  datatype EngineInput = EngineInput(
    referenceTime: int,
    participants: seq<Participant>,
    windows: seq<Interval>,
    constraints: Constraints,
    existingBookings: map<string, seq<int>>,
    weights: Weights)

  /** The participant's local calendar day, and seconds since local midnight, at an instant. */
  function LocalDay(z: Zone, t: int): int {
    z.toLocal(t) / DAY
  }

  function LocalSecond(z: Zone, t: int): int {
    z.toLocal(t) % DAY / SECOND
  }

  predicate InWorkingHours(z: Zone, wh: WorkingHours, t: int) {
    wh.dayStart <= LocalSecond(z, t) < wh.dayEnd
  }

  function DayStart(z: Zone, wh: WorkingHours, day: int): int {
    z.toUtc(day * DAY + wh.dayStart * SECOND)
  }

  function DayEnd(z: Zone, wh: WorkingHours, day: int): int {
    z.toUtc(day * DAY + wh.dayEnd * SECOND)
  }

  /** Some local day of `span`, from that of its start to that of its end, has t in its working
      day: between the instants at which work starts and ends. */
  ghost predicate OnDuty(z: Zone, wh: WorkingHours, span: Interval, t: int) {
    exists d :: LocalDay(z, span.start) <= d <= LocalDay(z, span.end) && InWorkday(z, wh, d, t)
  }

  predicate InWorkday(z: Zone, wh: WorkingHours, d: int, t: int) {
    DayStart(z, wh, d) <= t < DayEnd(z, wh, d)
  }

  /** Seen from an instant in the working day of d, earlier instants are not on later days, nor
      later ones on earlier days. */
  ghost predicate OrderlyDays(z: Zone, wh: WorkingHours) {
    forall d, t, s :: InWorkday(z, wh, d, t) ==> (s <= t ==> LocalDay(z, s) <= d) && (s >= t ==> LocalDay(z, s) >= d)
  }

  /** Then the participant's own local day decides, whichever span of days is looked at. */
  lemma OwnDayDecides(z: Zone, wh: WorkingHours, span: Interval, t: int)
    requires OrderlyDays(z, wh) && span.start <= t <= span.end
    ensures OnDuty(z, wh, span, t) <==> InWorkday(z, wh, LocalDay(z, t), t)
  {
  }

  /** A zone whose offsets, over any number of clock changes at any time of day, differ by no more
      than working hours keep from midnight is ordered. */
  lemma BoundedOffsetsOrderly(z: Zone, wh: WorkingHours, lo: int, hi: int)
    requires forall t :: lo <= z.toLocal(t) - t <= hi
    requires forall w :: lo <= w - z.toUtc(w) <= hi
    requires hi - lo <= wh.dayStart * SECOND && hi - lo <= DAY - wh.dayEnd * SECOND
    ensures OrderlyDays(z, wh)
  {
  }

  /** The clock tells it: the working days come in order, and each is when the clock reads working
      hours on that day. */
  ghost predicate Consistent(z: Zone, wh: WorkingHours) {
    && OrderlyDays(z, wh)
    && (forall d, t :: InWorkday(z, wh, d, t) <==> LocalDay(z, t) == d && InWorkingHours(z, wh, t))
  }

  lemma ClockDecides(z: Zone, wh: WorkingHours, span: Interval, t: int)
    requires Consistent(z, wh) && span.start <= t <= span.end
    ensures OnDuty(z, wh, span, t) <==> InWorkingHours(z, wh, t)
  {
    assert InWorkingHours(z, wh, t) ==> InWorkday(z, wh, LocalDay(z, t), t);
  }

  /** Around the working day of d, and as far on either side as offsets can differ, the offset is o. */
  ghost predicate SteadyAround(z: Zone, wh: WorkingHours, d: int, o: int, spread: int) {
    var from, until := d * DAY + wh.dayStart * SECOND - o, d * DAY + wh.dayEnd * SECOND - o;
    && DayStart(z, wh, d) == from && DayEnd(z, wh, d) == until
    && forall t :: from - spread <= t < until + spread ==> z.toLocal(t) == t + o
  }

  /** A zone with any number of clock changes, of any direction, is consistent if none comes closer to
      working hours than offsets can differ; `offset` is the one in force on a day's work. */
  lemma SteadyWorkConsistent(z: Zone, wh: WorkingHours, lo: int, hi: int, spread: int, offset: int -> int)
    requires 0 <= wh.dayStart <= wh.dayEnd <= 86_400
    requires forall t :: lo <= z.toLocal(t) - t <= hi
    requires forall w :: lo <= w - z.toUtc(w) <= hi
    requires spread == hi - lo && spread <= wh.dayStart * SECOND && spread <= DAY - wh.dayEnd * SECOND
    requires forall d :: SteadyAround(z, wh, d, offset(d), spread)
    ensures Consistent(z, wh)
  {
    BoundedOffsetsOrderly(z, wh, lo, hi);
    forall d, t ensures InWorkday(z, wh, d, t) <==> LocalDay(z, t) == d && InWorkingHours(z, wh, t) {
      SteadyWorkDay(z, wh, lo, hi, d, offset(d), t);
    }
  }

  lemma SteadyWorkDay(z: Zone, wh: WorkingHours, lo: int, hi: int, d: int, o: int, t: int)
    requires 0 <= wh.dayStart <= wh.dayEnd <= 86_400
    requires lo <= z.toLocal(t) - t <= hi && SteadyAround(z, wh, d, o, hi - lo)
    requires forall w :: lo <= w - z.toUtc(w) <= hi
    ensures InWorkday(z, wh, d, t) <==> LocalDay(z, t) == d && InWorkingHours(z, wh, t)
  {
    var from, until := d * DAY + wh.dayStart * SECOND, d * DAY + wh.dayEnd * SECOND;
    assert from - z.toUtc(from) == o && lo <= o <= hi;
    ReadingInDay(z.toLocal(t), d, wh.dayStart, wh.dayEnd);
  }

  predicate KnownZones(tz: ZoneTable, ps: seq<Participant>) {
    forall i :: 0 <= i < |ps| ==> ps[i].timezone in tz
  }

  /** The clock of a zone whose offset changes from `before` to `after` at the instant `change`;
      a wall-clock reading that occurs twice or never is read with the offset in force before. */
  function ShiftingZone(change: int, before: int, after: int): Zone {
    Zone(
      t => if t < change then t + before else t + after,
      w => if w < change + before || w < change + after then w - before else w - after)
  }

  lemma DaysInOrder(d: int, day: int)
    ensures d < day ==> d * DAY + DAY <= day * DAY
    ensures d >= day ==> d * DAY >= day * DAY
  {
  }

  lemma DivMonotone(x: int, y: int)
    requires x <= y
    ensures x / DAY <= y / DAY
  {
  }

  /** Being on local day d between two seconds of the day is being between two readings. */
  lemma ReadingInDay(w: int, d: int, lo: int, hi: int)
    requires 0 <= lo <= hi <= 86_400
    ensures w / DAY == d && lo <= w % DAY / SECOND < hi <==> d * DAY + lo * SECOND <= w < d * DAY + hi * SECOND
  {
    var q, r := w / DAY, w % DAY;
    assert w == q * 86_400_000_000 + r && 0 <= r < 86_400_000_000;
  }

  /** Up to the day before the change the old offset rules, from that day's work on the new one. */
  lemma ShiftingZoneWindow(change: int, before: int, after: int, a: int, b: int, t: int)
    requires a <= b
    requires before == after
             || (b <= change + before && b <= change + after)
             || (a >= change + before && a >= change + after)
    ensures var z := ShiftingZone(change, before, after);
            z.toUtc(a) <= t < z.toUtc(b) <==> a <= z.toLocal(t) < b
  {
  }

  lemma ShiftingZoneDays(change: int, before: int, after: int, day: int, s: int, t: int)
    requires s <= t
    requires before == after
             || (day * DAY <= change + before <= (day + 1) * DAY && day * DAY <= change + after <= (day + 1) * DAY)
    ensures var z := ShiftingZone(change, before, after); LocalDay(z, s) <= LocalDay(z, t)
  {
    var x := if s < change then s + before else s + after;
    var y := if t < change then t + before else t + after;
    if x <= y {
      DivMonotone(x, y);
    } else {
      DivMonotone(day * 86_400_000_000, y);
      DivMonotone(x, day * 86_400_000_000 + 86_399_999_999);
    }
  }

  lemma ShiftingZoneWorkDay(change: int, before: int, after: int, wh: WorkingHours, day: int, d: int, t: int)
    requires 0 <= wh.dayStart <= wh.dayEnd <= 86_400
    requires before == after
             || (day * DAY <= change + before <= day * DAY + wh.dayStart * SECOND
                 && day * DAY <= change + after <= day * DAY + wh.dayStart * SECOND)
    ensures var z := ShiftingZone(change, before, after);
            InWorkday(z, wh, d, t) <==> LocalDay(z, t) == d && InWorkingHours(z, wh, t)
  {
    var z := ShiftingZone(change, before, after);
    ReadingInDay(z.toLocal(t), d, wh.dayStart, wh.dayEnd);
    DaysInOrder(d, day);
    var midnight, from, until := d * DAY, wh.dayStart * SECOND, wh.dayEnd * SECOND;
    assert 0 <= from <= until <= DAY;
    ShiftingZoneWindow(change, before, after, midnight + from, midnight + until, t);
  }

  /** A zone with a daylight-saving change, forward or back, between midnight and the start of
      the working day is consistent; so is one whose offset never changes. */
  lemma ShiftingZoneConsistent(change: int, before: int, after: int, wh: WorkingHours, day: int)
    requires 0 <= wh.dayStart <= wh.dayEnd <= 86_400
    requires before == after
             || (day * DAY <= change + before <= day * DAY + wh.dayStart * SECOND
                 && day * DAY <= change + after <= day * DAY + wh.dayStart * SECOND)
    ensures Consistent(ShiftingZone(change, before, after), wh)
  {
    hide ShiftingZone, LocalDay, InWorkday, InWorkingHours;
    var z := ShiftingZone(change, before, after);
    assert forall s, t :: s <= t ==> LocalDay(z, s) <= LocalDay(z, t) by {
      forall s, t | s <= t ensures LocalDay(z, s) <= LocalDay(z, t) {
        ShiftingZoneDays(change, before, after, day, s, t);
      }
    }
    forall d, t
      ensures InWorkday(z, wh, d, t) <==> LocalDay(z, t) == d && InWorkingHours(z, wh, t)
    {
      ShiftingZoneWorkDay(change, before, after, wh, day, d, t);
    }
  }
}
