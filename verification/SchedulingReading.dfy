/** The scheduler's answers in plain numbers: working hours, zones, grid, weights and horizon are
    written out, and nothing is said through what the scheduler computes with. */
module SchedulingReading {
  import opened Lists
  import opened Intervals
  import opened SchedulingTypes
  import opened Scoring
  import opened EngineSpec
  import opened Engine
  import opened EngineTheorems
  import opened EngineReading
  import opened SchedulingService

  // ------------------------------------------------------------- what suits whom

  /** What is left of the submitted windows: those not yet over, from now on. */
  lemma {:induction false} WindowsAhead(ws: seq<Interval>, ref: int, w: Interval)
    ensures w in ClipWindows(ws, ref) <==>
              exists i :: 0 <= i < |ws| && ref < ws[i].end && w.end == ws[i].end
                          && w.start == (if ws[i].start < ref then ref else ws[i].start)
  {
    if ws != [] {
      WindowsAhead(ws[1..], ref, w);
      assert forall i :: 0 < i < |ws| ==> ws[i] == ws[1..][i - 1];
      assert forall i :: 0 <= i < |ws| - 1 ==> ws[1..][i] == ws[i + 1];
    }
  }

  /** Between seven in the morning and ten at night of some local day from that of the first instant
      ahead to that of the last. */
  ghost predicate SevenToTen(tz: ZoneTable, s: Situation, zone: string, t: int) {
    var ahead := ClipWindows(s.avail.windows, s.ref);
    zone in tz && ahead != [] && AtWorkBetween(tz[zone], MinStart(ahead), MaxEnd(ahead), 25_200, 79_200, t)
  }

  /** The candidate is available and everybody is at work and free at instant t. */
  ghost predicate OpenAt(tz: ZoneTable, s: Situation, t: int) {
    && t >= s.ref
    && (exists w :: 0 <= w < |s.avail.windows| && s.avail.windows[w].start <= t < s.avail.windows[w].end)
    && SevenToTen(tz, s, s.avail.timezone, t)
    && (forall i :: 0 <= i < |s.panel| ==> PanelistOpenAt(tz, s, s.panel[i], t))
  }

  ghost predicate PanelistOpenAt(tz: ZoneTable, s: Situation, p: Panelist, t: int) {
    && (p.timezone != "" ==> SevenToTen(tz, s, p.timezone, t))
    && (p.timezone == "" ==> SevenToTen(tz, s, "UTC", t))
    && (!s.simulated && p.id in s.calendars ==>
          forall b :: 0 <= b < |s.calendars[p.id]| ==>
            !(s.calendars[p.id][b].start <= t < s.calendars[p.id][b].end))
    && (forall c :: c in s.commitments && c.user == p.id && c.request != s.req.id ==>
          !(c.span.start <= t < c.span.end))
  }

  lemma WorksRead(tz: ZoneTable, s: Situation, zone: string, t: int)
    ensures Works(tz, s, zone, t) <==> SevenToTen(tz, s, zone, t)
  {
    var ahead := ClipWindows(s.avail.windows, s.ref);
    if zone in tz && ahead != [] {
      DutyRead(tz[zone], AVAILABILITY_WINDOW, SpanOf(ahead), t);
    }
  }

  lemma PanelistRead(tz: ZoneTable, s: Situation, p: Panelist, t: int)
    ensures PanelistFree(tz, s, p, t) <==> PanelistOpenAt(tz, s, p, t)
  {
    WorksRead(tz, s, p.timezone, t);
    WorksRead(tz, s, "UTC", t);
    hide Works, SevenToTen;
  }

  lemma SuitsRead(tz: ZoneTable, s: Situation, t: int)
    ensures Suits(tz, s, t) <==> OpenAt(tz, s, t)
  {
    WorksRead(tz, s, s.avail.timezone, t);
    hide Works, SevenToTen, PanelistFree, PanelistOpenAt;
    forall i | 0 <= i < |s.panel| ensures PanelistFree(tz, s, s.panel[i], t) <==> PanelistOpenAt(tz, s, s.panel[i], t) {
      PanelistRead(tz, s, s.panel[i], t);
    }
    assert forall i :: 0 <= i < |s.panel| ==> s.panel[i] in s.panel;
  }

  /** The interview can start at `start` exactly if every instant of it and of the buffers is open. */
  lemma CanHostRead(tz: ZoneTable, s: Situation, start: int)
    ensures CanHost(tz, s, start) <==>
              forall t :: start - s.req.bufferMinutes * 60_000_000 <= t
                          < start + s.req.durationMinutes * 60_000_000 + s.req.bufferMinutes * 60_000_000
                          ==> OpenAt(tz, s, t)
  {
    hide Suits, OpenAt;
    forall t ensures Suits(tz, s, t) <==> OpenAt(tz, s, t) {
      SuitsRead(tz, s, t);
    }
  }

  /** What may be submitted: windows that begin later than now and end within twenty-one days. */
  lemma AcceptedRead(w: Interval, now: int)
    ensures AcceptedAt(w, now) <==> now < w.start && w.start < w.end && w.end <= now + 21 * 86_400_000_000
  {
  }

  /** The engine refuses nothing that is made of a positive length, known zones, proper blocks, and windows
      accepted before now. */
  lemma WellFormedRead(tz: ZoneTable, s: Situation, submitted: int)
    ensures WellFormed(tz, s, submitted) <==>
              && s.req.durationMinutes >= 1 && s.req.bufferMinutes >= 0 && s.avail.timezone in tz
              && (forall i :: 0 <= i < |s.panel| ==>
                    if s.panel[i].timezone == "" then "UTC" in tz else s.panel[i].timezone in tz)
              && (forall i :: 0 <= i < |s.avail.windows| ==>
                    var w := s.avail.windows[i];
                    submitted < w.start && w.start < w.end && w.end <= submitted + 21 * 86_400_000_000)
              && (forall id, b | id in s.calendars && 0 <= b < |s.calendars[id]| ::
                    s.calendars[id][b].start < s.calendars[id][b].end)
              && (forall c :: c in s.commitments ==> c.span.start < c.span.end)
  {
    assert forall i :: 0 <= i < |s.avail.windows| ==>
             (AcceptedAt(s.avail.windows[i], submitted) <==>
                submitted < s.avail.windows[i].start < s.avail.windows[i].end <= submitted + 21 * 86_400_000_000);
  }

  // ---------------------------------------------------------- what is recommended

  /** Open from the one instant to the other, and not a moment longer on either side. */
  ghost predicate OpenExactly(tz: ZoneTable, s: Situation, from: int, until: int) {
    && from < until && (forall t :: from <= t < until ==> OpenAt(tz, s, t))
    && !OpenAt(tz, s, from - 1) && !OpenAt(tz, s, until)
  }

  /** A quarter-hour grid from the first start of each open stretch. */
  ghost predicate QuarterHour(tz: ZoneTable, s: Situation, start: int, from: int, until: int, k: nat) {
    && OpenExactly(tz, s, from, until)
    && start == from + s.req.bufferMinutes * 60_000_000 + k * 900_000_000
    && start + s.req.durationMinutes * 60_000_000 + s.req.bufferMinutes * 60_000_000 <= until
  }

  lemma FreeRead(tz: ZoneTable, s: Situation, busy: map<Id, seq<Interval>>, inp: EngineInput)
    requires Prepared(s, busy, inp) && Valid(tz, inp)
    ensures forall t :: Free(tz, inp, t) <==> OpenAt(tz, s, t)
  {
    ValidFacts(tz, inp);
    hide Prepared, Valid, Free, Suits, OpenAt;
    forall t ensures Free(tz, inp, t) <==> OpenAt(tz, s, t) {
      FreeIsSuitable(tz, s, busy, inp, t);
      SuitsRead(tz, s, t);
    }
  }

  lemma GridRead(tz: ZoneTable, s: Situation, busy: map<Id, seq<Interval>>, inp: EngineInput,
                 start: int, from: int, until: int, k: nat)
    requires Prepared(s, busy, inp) && Valid(tz, inp)
    ensures OnGrid(tz, inp, start, from, until, k) <==> QuarterHour(tz, s, start, from, until, k)
  {
    FreeRead(tz, s, busy, inp);
    hide Free, OpenAt, Valid;
    assert inp.constraints.slotStepMinutes == 15;
  }

  /** At most three slots, ranked from 1, of the given length, on the grid. */
  lemma SlotsRead(tz: ZoneTable, s: Situation, slots: seq<Slot>, i: nat)
    requires BestOf(tz, s, slots) && i < |slots|
    ensures |slots| <= 3 && slots[i].rank == i + 1
    ensures slots[i].placement.end == slots[i].placement.start + s.req.durationMinutes * 60_000_000
    ensures exists from, until, k: nat :: QuarterHour(tz, s, slots[i].placement.start, from, until, k)
  {
    var busy, inp :| Prepared(s, busy, inp) && Valid(tz, inp) && IsResult(tz, inp, slots);
    RankingRead(tz, inp, slots);
    assert inp.constraints.topN == 3 && inp.constraints.durationMinutes == s.req.durationMinutes;
    hide Prepared, Valid, IsResult, QuarterHour, OnGrid, IsPlacement;
    var iv, k := SlotOnGrid(tz, inp, slots[i].placement);
    GridRead(tz, s, busy, inp, slots[i].placement.start, iv.start, iv.end, k);
  }

  /** If there are fewer than three, they are all that the grid has. */
  lemma NoneMissing(tz: ZoneTable, s: Situation, slots: seq<Slot>, start: int, from: int, until: int, k: nat)
    requires BestOf(tz, s, slots) && QuarterHour(tz, s, start, from, until, k)
    ensures |slots| == 3 || exists i :: 0 <= i < |slots| && slots[i].placement.start == start
  {
    var busy, inp :| Prepared(s, busy, inp) && Valid(tz, inp) && IsResult(tz, inp, slots);
    RankingRead(tz, inp, slots);
    assert inp.constraints.topN == 3;
    hide Prepared, Valid, IsResult, QuarterHour, OnGrid, IsPlacement, Ahead;
    GridRead(tz, s, busy, inp, start, from, until, k);
    var p := GridIsOffered(tz, inp, start, from, until, k);
  }

  /** Higher totals first, then earlier starts. */
  lemma OrderRead(tz: ZoneTable, s: Situation, slots: seq<Slot>, i: nat, j: nat)
    requires BestOf(tz, s, slots) && i < j < |slots|
    ensures Ahead(slots[i].placement, slots[j].placement)
  {
    var busy, inp :| Prepared(s, busy, inp) && Valid(tz, inp) && IsResult(tz, inp, slots);
    RankingRead(tz, inp, slots);
  }

  /** Proximity runs over fourteen days from now, and no other booking weighs on anybody. */
  lemma ScoresRead(tz: ZoneTable, s: Situation, slots: seq<Slot>, i: nat)
    requires BestOf(tz, s, slots) && i < |slots|
    ensures ProximityIs(slots[i].placement.breakdown.proximity, slots[i].placement.start - s.ref, 14)
    ensures slots[i].placement.breakdown.workload == 1.0
  {
    hide Prepared, Valid, IsResult, IsPlacement, ProximityIs, KnownZones, Panelists;
    var busy, inp :| Prepared(s, busy, inp) && Valid(tz, inp) && IsResult(tz, inp, slots);
    InputRead(s, busy, inp);
    PlacementOfSlot(tz, inp, slots, i);
    ProximityAtSlot(tz, inp, slots[i].placement);
    WorkloadIsOne(tz, inp, slots[i].placement);
  }

  lemma PlacementOfSlot(tz: ZoneTable, inp: EngineInput, slots: seq<Slot>, i: nat)
    requires Valid(tz, inp) && IsResult(tz, inp, slots) && i < |slots|
    ensures IsPlacement(tz, inp, slots[i].placement) && KnownZones(tz, inp.participants)
  {
    hide IsPlacement;
    ValidFacts(tz, inp);
    RankingRead(tz, inp, slots);
  }

  /** A total is 30, 20, 20, 15 and 15 percent of the factors. */
  lemma TotalRead(tz: ZoneTable, s: Situation, slots: seq<Slot>, i: nat)
    requires BestOf(tz, s, slots) && i < |slots|
    ensures var b := slots[i].placement.breakdown;
            slots[i].placement.total == 0.30 * b.fairness + 0.20 * b.comfort + 0.20 * b.proximity
                                        + 0.15 * b.workload + 0.15 * b.buffer
  {
    var busy, inp :| Prepared(s, busy, inp) && Valid(tz, inp) && IsResult(tz, inp, slots);
    InputRead(s, busy, inp);
    hide Prepared, Valid, IsResult, IsPlacement;
    RankingRead(tz, inp, slots);
    TotalAtSlot(tz, inp, slots[i].placement);
  }

  lemma InputRead(s: Situation, busy: map<Id, seq<Interval>>, inp: EngineInput)
    requires Prepared(s, busy, inp)
    ensures inp.weights == Weights(0.30, 0.20, 0.20, 0.15, 0.15)
    ensures inp.constraints.proximityHorizonDays == 14 && inp.referenceTime == s.ref && inp.existingBookings == map[]
    ensures inp.constraints.workingHours == WorkingHours(25_200, 79_200, 32_400, 64_800)
    ensures Panelists(inp.participants) != []
    ensures |inp.participants| == |s.panel| + 1 && inp.participants[0].timezone == s.avail.timezone
    ensures forall i :: 0 <= i < |s.panel| ==>
              inp.participants[i + 1].timezone == if s.panel[i].timezone == "" then "UTC" else s.panel[i].timezone
  {
    var others := PanelParticipants(s.panel, busy);
    assert inp.participants[1] == others[0] && !others[0].isCandidate;
    assert inp.participants[1] in Panelists(inp.participants);
  }

  lemma WorkloadIsOne(tz: ZoneTable, inp: EngineInput, p: Placement)
    requires IsPlacement(tz, inp, p) && inp.existingBookings == map[]
    requires KnownZones(tz, inp.participants) && Panelists(inp.participants) != []
    ensures p.breakdown.workload == 1.0
  {
    hide IsPlacement, IsMean, IsShare;
    var panel := Panelists(inp.participants);
    var share: Participant -> real := (q: Participant) => 1.0;
    forall q | q in inp.participants && !q.isCandidate
      ensures q.timezone in tz && IsShare(share(q), OthersThatDay(tz, q, p.start, inp.existingBookings))
    {
      FullShare();
    }
    WorkloadAtSlot(tz, inp, p, share);
    AllOnes(share, panel);
    MeanOfOnes(p.breakdown.workload, |panel|);
  }

  lemma FullShare()
    ensures IsShare(1.0, 0.0)
  {
  }

  lemma MeanOfOnes(mean: real, n: nat)
    requires n > 0 && IsMean(mean, n as real, n)
    ensures mean == 1.0
  {
    assert (mean - 1.0) * n as real == 0.0;
  }

  /** What a clock in a zone shows in the middle of a slot, in seconds since midnight. */
  function ClockIn(z: Zone, s: Situation, p: Placement): int {
    z.toLocal(p.start + s.req.durationMinutes * 30_000_000) % 86_400_000_000 / 1_000_000
  }

  /** Fairness and comfort are those of the worst-off of candidate and panel, each by the clock of their
      own zone, against work from seven to ten at night and a core from nine to six. */
  lemma WorstOffRead(tz: ZoneTable, s: Situation, slots: seq<Slot>, i: nat) returns (fair: seq<real>, easy: seq<real>)
    requires BestOf(tz, s, slots) && i < |slots|
    ensures |fair| == |easy| == |s.panel| + 1
    ensures WorstOf(slots[i].placement.breakdown.fairness, fair) && WorstOf(slots[i].placement.breakdown.comfort, easy)
    ensures s.avail.timezone in tz && Judged(tz[s.avail.timezone], s, slots[i].placement, fair[0], easy[0])
    ensures forall k :: 0 <= k < |s.panel| ==>
              var name := if s.panel[k].timezone == "" then "UTC" else s.panel[k].timezone;
              name in tz && Judged(tz[name], s, slots[i].placement, fair[k + 1], easy[k + 1])
  {
    var busy, inp :| Prepared(s, busy, inp) && Valid(tz, inp) && IsResult(tz, inp, slots);
    var p := slots[i].placement;
    InputRead(s, busy, inp);
    ValidFacts(tz, inp);
    RankingRead(tz, inp, slots);
    assert inp.constraints.durationMinutes == s.req.durationMinutes;
    hide Prepared, Valid, IsResult, IsPlacement, FairnessIs, ComfortIs, WorstOf, ClockAtMiddle, Judged;
    fair := FairnessAtSlot(tz, inp, p);
    easy := ComfortAtSlot(tz, inp, p);
    forall k | 0 <= k < |fair|
      ensures Judged(tz[inp.participants[k].timezone], s, p, fair[k], easy[k])
    {
      JudgedByClock(tz, inp, s, p, k, fair[k], easy[k]);
    }
  }

  lemma JudgedByClock(tz: ZoneTable, inp: EngineInput, s: Situation, p: Placement, k: nat, fair: real, easy: real)
    requires k < |inp.participants| && inp.participants[k].timezone in tz
    requires inp.constraints.durationMinutes == s.req.durationMinutes
    requires inp.constraints.workingHours == WorkingHours(25_200, 79_200, 32_400, 64_800)
    requires FairnessIs(fair, ClockAtMiddle(tz, inp, p, k), inp.constraints.workingHours)
    requires ComfortIs(easy, ClockAtMiddle(tz, inp, p, k), inp.constraints.workingHours)
    ensures Judged(tz[inp.participants[k].timezone], s, p, fair, easy)
  {
    hide FairnessIs, ComfortIs;
  }

  ghost predicate Judged(z: Zone, s: Situation, p: Placement, fair: real, easy: real) {
    && FairnessIs(fair, ClockIn(z, s, p), WorkingHours(25_200, 79_200, 32_400, 64_800))
    && ComfortIs(easy, ClockIn(z, s, p), WorkingHours(25_200, 79_200, 32_400, 64_800))
  }

  lemma {:induction false} AllOnes(share: Participant -> real, ps: seq<Participant>)
    requires forall q :: share(q) == 1.0
    ensures SumBy(share, ps) == |ps| as real
  {
    if ps != [] {
      AllOnes(share, ps[1..]);
    }
  }

  // --------------------------------------------------------------- a zone decides

  const WEST_COAST: ZoneTable :=
    map["UTC" := ShiftingZone(0, 0, 0), "America/Los_Angeles" := ShiftingZone(0, -28_800_000_000, -28_800_000_000)]

  /** The candidate's window is tomorrow from eight to ten UTC; the only panelist is in Los Angeles. */
  const TOO_EARLY: Situation := Situation(
    RequestRow(3, 2, 60, 0),
    Availability("UTC", [Interval(115_200_000_000, 122_400_000_000)]),
    [Panelist(1, "America/Los_Angeles")], true, map[], [], 0)

  lemma PanelistAsleep(start: int)
    ensures !CanHost(WEST_COAST, TOO_EARLY, start)
  {
    CanHostRead(WEST_COAST, TOO_EARLY, start);
    assert !OpenAt(WEST_COAST, TOO_EARLY, start) by {
      NotAtWork(start);
      assert !PanelistOpenAt(WEST_COAST, TOO_EARLY, TOO_EARLY.panel[0], start)
             || !(115_200_000_000 <= start < 122_400_000_000);
    }
  }

  lemma NotAtWork(t: int)
    ensures 115_200_000_000 <= t < 122_400_000_000 ==> !SevenToTen(WEST_COAST, TOO_EARLY, "America/Los_Angeles", t)
  {
    var z := WEST_COAST["America/Los_Angeles"];
    forall d ensures 115_200_000_000 <= t < 122_400_000_000 ==> !WorksOn(z, d, 25_200, 79_200, t) {
      assert d >= 1 || d <= 0;
    }
  }

  lemma TooEarlyIsInOrder()
    ensures WellFormed(WEST_COAST, TOO_EARLY, 0) && Connected(TOO_EARLY)
  {
  }

  /** There it is midnight to two: no common availability. */
  method NothingAtNight() returns (o: Outcome)
    ensures o.NoCommonAvailability?
  {
    TooEarlyIsInOrder();
    hide WellFormed, CanHost, BestOf, Connected;
    o := GenerateLocked(WEST_COAST, TOO_EARLY);
    assert TOO_EARLY.avail.windows[0].end > TOO_EARLY.ref;
    if o.Recommended? {
      PanelistAsleep(o.slots[0].placement.start);
    }
  }
}
