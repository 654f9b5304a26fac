/** The engine's answers in plain numbers: what makes an input acceptable, where placements are, what
    each factor of a placement's score is, and how placements are ranked. Minutes, days and weights
    are written out, and nothing is said through the functions the engine computes with. */
module EngineReading {
  import opened Lists
  import opened Intervals
  import opened SchedulingTypes
  import opened Scoring
  import opened EngineSpec
  import opened Engine
  import opened EngineTheorems

  // ------------------------------------------------------------------ the input

  /** Exactly which inputs are accepted. */
  lemma AcceptedInputs(tz: ZoneTable, inp: EngineInput)
    ensures Valid(tz, inp) <==>
              var c, ref, days := inp.constraints, inp.referenceTime, 86_400_000_000;
              && c.durationMinutes >= 1 && c.bufferMinutes >= 0 && c.slotStepMinutes >= 1
              && c.topN >= 1 && c.proximityHorizonDays >= 1
              && (exists i :: 0 <= i < |inp.participants| && IsOnlyCandidate(inp.participants, i))
              && |inp.participants| >= 2
              && (forall i :: 0 <= i < |inp.participants| ==> inp.participants[i].timezone in tz)
              && (forall i, j | 0 <= i < |inp.participants| && 0 <= j < |inp.participants[i].busy| ::
                    inp.participants[i].busy[j].start < inp.participants[i].busy[j].end)
              && |inp.windows| >= 1
              && (forall i :: 0 <= i < |inp.windows| ==>
                    ref <= inp.windows[i].start < inp.windows[i].end <= ref + c.horizonDays * days)
  {
    ConstraintFaults(tz, inp);
    ParticipantFaults(tz, inp);
    WindowFaults(tz, inp);
    var ps, ws := inp.participants, inp.windows;
    hide Fails;
    if Valid(tz, inp) {
      assert !Fails(tz, inp, BadDuration) && !Fails(tz, inp, BadBuffer) && !Fails(tz, inp, BadStep);
      assert !Fails(tz, inp, BadTopN) && !Fails(tz, inp, BadProximityHorizon);
      assert !Fails(tz, inp, UnknownTimezone) && !Fails(tz, inp, BadBusy) && !Fails(tz, inp, NoWindows);
      assert !Fails(tz, inp, EmptyWindow) && !Fails(tz, inp, PastWindow) && !Fails(tz, inp, BeyondHorizon);
      assert !Fails(tz, inp, CandidateCount) && !Fails(tz, inp, NoPanelist);
      assert forall i :: 0 <= i < |ps| ==> !Inverted(ps[i].busy);
    } else {
      var e :| Fails(tz, inp, e);
      if e == BadBusy {
        var i :| 0 <= i < |ps| && Inverted(ps[i].busy);
      } else if e == NoPanelist && |ps| >= 2 {
        assert ps[0].isCandidate && ps[1].isCandidate;
      }
    }
  }

  /** What each fault means: of the constraints, of the participants, of the windows. */
  lemma ConstraintFaults(tz: ZoneTable, inp: EngineInput)
    ensures var c := inp.constraints;
            && (Fails(tz, inp, BadDuration) <==> c.durationMinutes < 1)
            && (Fails(tz, inp, BadBuffer) <==> c.bufferMinutes < 0)
            && (Fails(tz, inp, BadStep) <==> c.slotStepMinutes < 1)
            && (Fails(tz, inp, BadTopN) <==> c.topN < 1)
            && (Fails(tz, inp, BadProximityHorizon) <==> c.proximityHorizonDays < 1)
  {
  }

  lemma ParticipantFaults(tz: ZoneTable, inp: EngineInput)
    ensures var ps := inp.participants;
            && (Fails(tz, inp, CandidateCount) <==> !exists i :: 0 <= i < |ps| && IsOnlyCandidate(ps, i))
            && (Fails(tz, inp, NoPanelist) <==> forall i :: 0 <= i < |ps| ==> ps[i].isCandidate)
            && (Fails(tz, inp, UnknownTimezone) <==> exists i :: 0 <= i < |ps| && ps[i].timezone !in tz)
            && (Fails(tz, inp, BadBusy) <==> exists i :: 0 <= i < |ps| && Inverted(ps[i].busy))
  {
    OnlyOneCandidate(inp.participants);
    var panel := Panelists(inp.participants);
    assert panel != [] ==> panel[0] in panel;
    assert forall i :: 0 <= i < |inp.participants| ==> inp.participants[i] in inp.participants;
  }

  /** Some interval ends when it starts, or before. */
  ghost predicate Inverted(ivs: seq<Interval>) {
    exists j :: 0 <= j < |ivs| && ivs[j].end <= ivs[j].start
  }

  lemma WindowFaults(tz: ZoneTable, inp: EngineInput)
    ensures var ws, ref := inp.windows, inp.referenceTime;
            && (Fails(tz, inp, NoWindows) <==> |ws| == 0)
            && (Fails(tz, inp, EmptyWindow) <==> Inverted(ws))
            && (Fails(tz, inp, PastWindow) <==> exists i :: 0 <= i < |ws| && ws[i].start < ref)
            && (Fails(tz, inp, BeyondHorizon) <==>
                  exists i :: 0 <= i < |ws| && ref + inp.constraints.horizonDays * 86_400_000_000 < ws[i].end)
  {
  }

  ghost predicate IsOnlyCandidate(ps: seq<Participant>, i: int) {
    0 <= i < |ps| && forall k :: 0 <= k < |ps| ==> (ps[k].isCandidate <==> k == i)
  }

  lemma {:induction false} NoCandidates(ps: seq<Participant>)
    ensures |Panelists(ps)| <= |ps|
    ensures |Panelists(ps)| == |ps| <==> forall k :: 0 <= k < |ps| ==> !ps[k].isCandidate
  {
    if ps != [] {
      NoCandidates(ps[1..]);
      assert forall k :: 0 < k < |ps| ==> ps[k] == ps[1..][k - 1];
      assert forall k :: 0 <= k < |ps| - 1 ==> ps[1..][k] == ps[k + 1];
    }
  }

  lemma {:induction false} OnlyOneCandidate(ps: seq<Participant>)
    ensures |ps| - |Panelists(ps)| == 1 <==> exists i :: 0 <= i < |ps| && IsOnlyCandidate(ps, i)
  {
    if ps != [] {
      var rest := ps[1..];
      NoCandidates(rest);
      OnlyOneCandidate(rest);
      assert forall k :: 0 < k < |ps| ==> ps[k] == rest[k - 1];
      assert forall k :: 0 <= k < |rest| ==> rest[k] == ps[k + 1];
      if ps[0].isCandidate {
        assert |Panelists(rest)| == |rest| <==> IsOnlyCandidate(ps, 0);
        assert forall i :: 0 < i < |ps| ==> !IsOnlyCandidate(ps, i);
      } else {
        assert forall i :: 0 < i < |ps| ==> (IsOnlyCandidate(ps, i) <==> IsOnlyCandidate(rest, i - 1));
        assert forall i :: 0 <= i < |rest| ==> (IsOnlyCandidate(rest, i) <==> IsOnlyCandidate(ps, i + 1));
        assert !IsOnlyCandidate(ps, 0);
      }
    }
  }

  /** The order in which faults are looked for; those in one row are looked for in one loop. */
  lemma ChecksInOrder()
    ensures Phase(BadDuration) < Phase(BadBuffer) < Phase(BadStep) < Phase(BadTopN) < Phase(BadProximityHorizon)
    ensures Phase(BadProximityHorizon) < Phase(CandidateCount) < Phase(NoPanelist) < Phase(UnknownTimezone)
    ensures Phase(UnknownTimezone) == Phase(BadBusy) < Phase(NoWindows) < Phase(EmptyWindow)
    ensures Phase(EmptyWindow) == Phase(PastWindow) == Phase(BeyondHorizon)
  {
  }

  // --------------------------------------------------------- where placements are

  /** Free at every instant from the one to the other, and not a moment longer on either side. */
  ghost predicate FreeExactly(tz: ZoneTable, inp: EngineInput, from: int, until: int) {
    && from < until && (forall t :: from <= t < until ==> Free(tz, inp, t))
    && !Free(tz, inp, from - 1) && !Free(tz, inp, until)
  }

  /** An instant free for all: in a window, in everybody's working day, outside all busy blocks. */
  lemma FreeInstants(tz: ZoneTable, inp: EngineInput, t: int)
    requires inp.windows != []
    ensures Free(tz, inp, t) <==>
              && (exists w :: 0 <= w < |inp.windows| && inp.windows[w].start <= t < inp.windows[w].end)
              && forall i :: 0 <= i < |inp.participants| ==>
                   var p := inp.participants[i];
                   && p.timezone in tz
                   && AtWorkBetween(tz[p.timezone], MinStart(inp.windows), MaxEnd(inp.windows),
                                    inp.constraints.workingHours.dayStart, inp.constraints.workingHours.dayEnd, t)
                   && (p.isCandidate
                       || forall b :: 0 <= b < |p.busy| ==> !(p.busy[b].start <= t < p.busy[b].end))
  {
    var ps := inp.participants;
    forall i | 0 <= i < |ps| && ps[i].timezone in tz
      ensures OnDuty(tz[ps[i].timezone], inp.constraints.workingHours, SpanOf(inp.windows), t) <==>
              AtWorkBetween(tz[ps[i].timezone], MinStart(inp.windows), MaxEnd(inp.windows),
                            inp.constraints.workingHours.dayStart, inp.constraints.workingHours.dayEnd, t)
    {
      DutyRead(tz[ps[i].timezone], inp.constraints.workingHours, SpanOf(inp.windows), t);
    }
    assert forall i :: 0 <= i < |ps| ==> ps[i] in ps;
  }

  /** On some local day from that of `first` to that of `last`, t is between the instants that the
      given seconds after local midnight denote. */
  ghost predicate AtWorkBetween(z: Zone, first: int, last: int, from: int, until: int, t: int) {
    exists d :: z.toLocal(first) / 86_400_000_000 <= d <= z.toLocal(last) / 86_400_000_000
                && WorksOn(z, d, from, until, t)
  }

  predicate WorksOn(z: Zone, d: int, from: int, until: int, t: int) {
    z.toUtc(d * 86_400_000_000 + from * 1_000_000) <= t < z.toUtc(d * 86_400_000_000 + until * 1_000_000)
  }

  lemma DutyRead(z: Zone, wh: WorkingHours, span: Interval, t: int)
    ensures OnDuty(z, wh, span, t) <==> AtWorkBetween(z, span.start, span.end, wh.dayStart, wh.dayEnd, t)
  {
    assert forall d :: InWorkday(z, wh, d, t) <==> WorksOn(z, d, wh.dayStart, wh.dayEnd, t);
  }

  /** A start is offered exactly if it is a whole number of steps after the first start of a maximal
      free stretch and leaves room for the interview and the buffer after it. */
  lemma StartsOffered(tz: ZoneTable, inp: EngineInput, start: int)
    requires Valid(tz, inp)
    ensures var c := inp.constraints;
            (exists p :: p in Offer(tz, inp) && p.start == start) <==>
              exists from, until, k: nat :: OnGrid(tz, inp, start, from, until, k)
  {
    AcceptedInputs(tz, inp);
    forall p | p in Offer(tz, inp) && p.start == start
      ensures exists from, until, k: nat :: OnGrid(tz, inp, start, from, until, k)
    {
      var iv, k := SlotOnGrid(tz, inp, p);
      assert OnGrid(tz, inp, start, iv.start, iv.end, k);
    }
    forall from, until, k: nat | OnGrid(tz, inp, start, from, until, k)
      ensures exists p :: p in Offer(tz, inp) && p.start == start
    {
      var p := GridIsOffered(tz, inp, start, from, until, k);
    }
  }

  ghost predicate OnGrid(tz: ZoneTable, inp: EngineInput, start: int, from: int, until: int, k: nat) {
    var c := inp.constraints;
    && FreeExactly(tz, inp, from, until)
    && start == from + c.bufferMinutes * 60_000_000 + k * (c.slotStepMinutes * 60_000_000)
    && start + c.durationMinutes * 60_000_000 + c.bufferMinutes * 60_000_000 <= until
  }

  /** The maximal free stretch a placement stands in, and its place on the grid there. */
  lemma SlotOnGrid(tz: ZoneTable, inp: EngineInput, p: Placement) returns (iv: Interval, k: nat)
    requires IsPlacement(tz, inp, p)
    ensures OnGrid(tz, inp, p.start, iv.start, iv.end, k)
    ensures p.end == p.start + inp.constraints.durationMinutes * 60_000_000
    ensures PlacedIn(tz, inp, iv, k, p)
  {
    hide Free;
    iv, k :| PlacedIn(tz, inp, iv, k, p);
    RunRead(tz, inp, iv);
    hide FreeExactly, IsRun, FreeSet, ScoreOf, WeightedTotal;
    GridRead(inp.constraints, iv, k);
  }

  lemma RunRead(tz: ZoneTable, inp: EngineInput, iv: Interval)
    ensures IsRun(FreeSet(tz, inp), iv) <==> FreeExactly(tz, inp, iv.start, iv.end)
  {
    hide Free;
    assert forall t :: t in FreeSet(tz, inp) <==> Free(tz, inp, t);
  }

  lemma GridRead(c: Constraints, iv: Interval, k: nat)
    ensures GridStart(c, iv, k) == iv.start + c.bufferMinutes * 60_000_000 + k * (c.slotStepMinutes * 60_000_000)
    ensures Buffer(c) == c.bufferMinutes * 60_000_000 && Duration(c) == c.durationMinutes * 60_000_000
  {
  }

  /** Where somebody is at work there is a working day to score by. */
  lemma WorkIsProper(tz: ZoneTable, inp: EngineInput, t: int)
    requires Valid(tz, inp) && Free(tz, inp, t)
    ensures Scorable(tz, inp)
  {
    AcceptedInputs(tz, inp);
    assert FreeFor(tz, inp.constraints.workingHours, SpanOf(inp.windows), inp.participants[0], t);
  }

  lemma GridIsOffered(tz: ZoneTable, inp: EngineInput, start: int, from: int, until: int, k: nat)
    returns (p: Placement)
    requires Valid(tz, inp) && OnGrid(tz, inp, start, from, until, k)
    ensures p in Offer(tz, inp) && p.start == start
  {
    assert Free(tz, inp, from);
    WorkIsProper(tz, inp, from);
    hide Free, Valid;
    var iv := Interval(from, until);
    RunRead(tz, inp, iv);
    GridRead(inp.constraints, iv, k);
    hide ScoreOf, WeightedTotal;
    p := PlacementAt(tz, inp, iv, start);
    assert PlacedIn(tz, inp, iv, k, p);
  }

  // ------------------------------------------------------------------- the factors

  /** What a participant's clock shows in the middle of the interview, in seconds since midnight. */
  function ClockAtMiddle(tz: ZoneTable, inp: EngineInput, p: Placement, i: nat): int
    requires i < |inp.participants| && inp.participants[i].timezone in tz
  {
    var middle := p.start + inp.constraints.durationMinutes * 30_000_000;
    tz[inp.participants[i].timezone].toLocal(middle) % 86_400_000_000 / 1_000_000
  }

  lemma ClockRead(tz: ZoneTable, inp: EngineInput, p: Placement, i: nat)
    requires KnownZones(tz, inp.participants) && i < |inp.participants|
    ensures LocalHours(tz, inp.participants, p.start + Duration(inp.constraints) / 2)[i]
         == Hours(ClockAtMiddle(tz, inp, p, i))
  {
    assert Duration(inp.constraints) / 2 == inp.constraints.durationMinutes * 30_000_000;
  }

  /** A placement's factors, each taken from the function that computes it. */
  lemma FactorsOf(tz: ZoneTable, inp: EngineInput, p: Placement) returns (iv: Interval, k: nat)
    requires IsPlacement(tz, inp, p)
    ensures OnGrid(tz, inp, p.start, iv.start, iv.end, k)
    ensures p.end == p.start + inp.constraints.durationMinutes * 60_000_000
    ensures Scorable(tz, inp) && KnownZones(tz, Panelists(inp.participants))
    ensures var hours := LocalHours(tz, inp.participants, p.start + Duration(inp.constraints) / 2);
            && p.breakdown.fairness == TimezoneFairness(hours, inp.constraints.workingHours)
            && p.breakdown.comfort == WorkingHoursComfort(hours, inp.constraints.workingHours)
    ensures p.breakdown.proximity
         == SchedulingProximity(p.start, inp.referenceTime, inp.constraints.proximityHorizonDays)
    ensures p.breakdown.workload == Balance(tz, Panelists(inp.participants), p.start, inp.existingBookings)
    ensures p.breakdown.buffer
         == BufferQuality(Minutes(p.start - iv.start), Minutes(iv.end - p.end), inp.constraints.bufferMinutes)
  {
    hide TimezoneFairness, WorkingHoursComfort, SchedulingProximity, Balance, BufferQuality, Minutes, WeightedTotal;
    hide OnGrid;
    KnownPanelists(tz, inp.participants);
    iv, k := SlotOnGrid(tz, inp, p);
  }

  /** 1 until the reference, in a straight line to 0 at the horizon. */
  ghost predicate ProximityIs(score: real, ahead: int, horizonDays: int) {
    var horizon := horizonDays * 86_400_000_000;
    && (ahead <= 0 ==> score == 1.0)
    && (ahead >= horizon ==> score == 0.0)
    && (0 <= ahead <= horizon ==> score * horizon as real == (horizon - ahead) as real)
  }

  lemma ProximityAtSlot(tz: ZoneTable, inp: EngineInput, p: Placement)
    requires IsPlacement(tz, inp, p)
    ensures ProximityIs(p.breakdown.proximity, p.start - inp.referenceTime, inp.constraints.proximityHorizonDays)
  {
    hide SchedulingProximity, TimezoneFairness, WorkingHoursComfort, Balance, BufferQuality, Minutes, IsPlacement;
    var iv, k := FactorsOf(tz, inp, p);
    ProximityFalls(p.start, inp.referenceTime, inp.constraints.proximityHorizonDays);
  }

  /** An earlier start never has less proximity. */
  lemma SoonerIsCloser(tz: ZoneTable, inp: EngineInput, p: Placement, q: Placement)
    requires IsPlacement(tz, inp, p) && IsPlacement(tz, inp, q) && p.start <= q.start
    ensures p.breakdown.proximity >= q.breakdown.proximity
  {
    hide ProximityIs, PlacementAt;
    ProximityAtSlot(tz, inp, p);
    ProximityAtSlot(tz, inp, q);
    FallingLine(p.start - inp.referenceTime, q.start - inp.referenceTime, p.breakdown.proximity,
                q.breakdown.proximity, inp.constraints.proximityHorizonDays);
  }

  /** Of two readings of a falling line, the later one is not the greater. */
  lemma FallingLine(a: int, b: int, x: real, y: real, horizonDays: int)
    requires horizonDays > 0 && a <= b && ProximityIs(x, a, horizonDays) && ProximityIs(y, b, horizonDays)
    ensures x >= y
  {
    var whole := (horizonDays * 86_400_000_000) as real;
    var d, rest := x - y, 1.0 - y;
    PositiveProduct(d, whole);
    PositiveProduct(x, whole);
    PositiveProduct(rest, whole);
    assert d * whole == x * whole - y * whole;
    assert rest * whole == whole - y * whole;
  }

  /** The least of these scores, one for each participant. */
  ghost predicate WorstOf(score: real, each: seq<real>) {
    (forall i :: 0 <= i < |each| ==> score <= each[i]) && exists i :: 0 <= i < |each| && score == each[i]
  }

  /** One participant's fairness: 1 in the middle of the working day, in a straight line to 0 at its
      edges. */
  ghost predicate FairnessIs(score: real, second: int, wh: WorkingHours) {
    var width, twice := wh.dayEnd - wh.dayStart, 2 * second - wh.dayStart - wh.dayEnd;
    var off := if twice >= 0 then twice else -twice;
    score * width as real == (if off <= width then width - off else 0) as real
  }

  /** Fairness is that of the worst-off participant. */
  lemma FairnessAtSlot(tz: ZoneTable, inp: EngineInput, p: Placement) returns (each: seq<real>)
    requires IsPlacement(tz, inp, p) && inp.participants != []
    requires inp.constraints.workingHours.dayStart < inp.constraints.workingHours.dayEnd
    ensures |each| == |inp.participants| && WorstOf(p.breakdown.fairness, each)
    ensures forall i :: 0 <= i < |each| ==>
              FairnessIs(each[i], ClockAtMiddle(tz, inp, p, i), inp.constraints.workingHours)
  {
    hide SchedulingProximity, TimezoneFairness, WorkingHoursComfort, Balance, BufferQuality, Minutes, IsPlacement;
    hide FairnessAt, OnGrid, FairnessIs, Hours, ClockAtMiddle;
    var iv, k := FactorsOf(tz, inp, p);
    var wh := inp.constraints.workingHours;
    var hours := LocalHours(tz, inp.participants, p.start + Duration(inp.constraints) / 2);
    each := FairnessOfAll(hours, wh);
    forall i | 0 <= i < |each| ensures FairnessIs(each[i], ClockAtMiddle(tz, inp, p, i), wh) {
      ClockRead(tz, inp, p, i);
      FairnessReads(ClockAtMiddle(tz, inp, p, i), wh);
    }
  }

  lemma FairnessOfAll(hours: seq<real>, wh: WorkingHours) returns (each: seq<real>)
    requires hours != [] && wh.dayStart != wh.dayEnd
    ensures |each| == |hours| && forall i :: 0 <= i < |each| ==> each[i] == FairnessAt(hours[i], wh)
    ensures WorstOf(TimezoneFairness(hours, wh), each)
  {
    hide FairnessAt;
    each := seq(|hours|, i requires 0 <= i < |hours| => FairnessAt(hours[i], wh));
    assert TimezoneFairness(hours, wh) == WorstOff(each);
    WorstOffIsLeast(each);
  }

  lemma FairnessReads(second: int, wh: WorkingHours)
    requires wh.dayStart < wh.dayEnd
    ensures FairnessIs(FairnessAt(Hours(second), wh), second, wh)
  {
    hide FairnessAt, Hours;
    FairnessFalls(second, wh);
  }

  /** One participant's comfort: 1 exactly in the core band, in a straight line to the day's edges. */
  ghost predicate ComfortIs(score: real, second: int, wh: WorkingHours) {
    && (score == 1.0 <==> wh.coreStart <= second <= wh.coreEnd)
    && (wh.dayStart <= second < wh.coreStart ==>
          score * (wh.coreStart - wh.dayStart) as real == (second - wh.dayStart) as real)
    && (wh.coreEnd < second <= wh.dayEnd ==>
          score * (wh.dayEnd - wh.coreEnd) as real == (wh.dayEnd - second) as real)
    && (second < wh.dayStart || second > wh.dayEnd ==> score == 0.0)
  }

  lemma ComfortAtSlot(tz: ZoneTable, inp: EngineInput, p: Placement) returns (each: seq<real>)
    requires IsPlacement(tz, inp, p) && inp.participants != []
    requires var wh := inp.constraints.workingHours; wh.dayStart <= wh.coreStart <= wh.coreEnd <= wh.dayEnd
    ensures |each| == |inp.participants| && WorstOf(p.breakdown.comfort, each)
    ensures forall i :: 0 <= i < |each| ==>
              ComfortIs(each[i], ClockAtMiddle(tz, inp, p, i), inp.constraints.workingHours)
  {
    hide SchedulingProximity, TimezoneFairness, WorkingHoursComfort, Balance, BufferQuality, Minutes, IsPlacement;
    hide ComfortAt, OnGrid, ComfortIs, Hours, ClockAtMiddle;
    var iv, k := FactorsOf(tz, inp, p);
    var wh := inp.constraints.workingHours;
    var hours := LocalHours(tz, inp.participants, p.start + Duration(inp.constraints) / 2);
    each := ComfortOfAll(hours, wh);
    forall i | 0 <= i < |each| ensures ComfortIs(each[i], ClockAtMiddle(tz, inp, p, i), wh) {
      ClockRead(tz, inp, p, i);
      ComfortReads(ClockAtMiddle(tz, inp, p, i), wh);
    }
  }

  lemma ComfortOfAll(hours: seq<real>, wh: WorkingHours) returns (each: seq<real>)
    requires hours != []
    ensures |each| == |hours| && forall i :: 0 <= i < |each| ==> each[i] == ComfortAt(hours[i], wh)
    ensures WorstOf(WorkingHoursComfort(hours, wh), each)
  {
    hide ComfortAt;
    each := seq(|hours|, i requires 0 <= i < |hours| => ComfortAt(hours[i], wh));
    assert WorkingHoursComfort(hours, wh) == WorstOff(each);
    WorstOffIsLeast(each);
  }

  lemma ComfortReads(second: int, wh: WorkingHours)
    requires wh.dayStart <= wh.coreStart <= wh.coreEnd <= wh.dayEnd
    ensures ComfortIs(ComfortAt(Hours(second), wh), second, wh)
  {
    hide ComfortAt, Hours;
    ComfortFalls(second, wh);
  }

  /** With `tighter` the smaller gap to the ends of the maximal free stretch: 0 at exactly the
      mandatory buffer, 1 from twice that, in between in a straight line; 1 without a buffer. */
  lemma BufferAtSlot(tz: ZoneTable, inp: EngineInput, p: Placement) returns (iv: Interval)
    requires IsPlacement(tz, inp, p)
    ensures FreeExactly(tz, inp, iv.start, iv.end) && iv.start <= p.start && p.end <= iv.end
    ensures var before, after := p.start - iv.start, iv.end - p.end;
            var tighter := if before <= after then before else after;
            var buffer := inp.constraints.bufferMinutes * 60_000_000;
            && buffer <= tighter
            && (buffer == 0 ==> p.breakdown.buffer == 1.0)
            && (buffer > 0 && tighter >= 2 * buffer ==> p.breakdown.buffer == 1.0)
            && (buffer > 0 && tighter <= 2 * buffer ==>
                  p.breakdown.buffer * buffer as real == (tighter - buffer) as real)
  {
    hide SchedulingProximity, TimezoneFairness, WorkingHoursComfort, Balance, BufferQuality, Minutes, IsPlacement;
    var k;
    iv, k := FactorsOf(tz, inp, p);
    BufferGrows(p.start - iv.start, iv.end - p.end, inp.constraints.bufferMinutes);
    MulOrder(0, k, inp.constraints.slotStepMinutes * 60_000_000);
  }

  /** Workload is the panel's mean of one over one more than a panelist's other interviews that day. */
  lemma WorkloadAtSlot(tz: ZoneTable, inp: EngineInput, p: Placement, share: Participant -> real)
    requires IsPlacement(tz, inp, p)
    requires forall q :: q in inp.participants && !q.isCandidate ==>
               q.timezone in tz && IsShare(share(q), OthersThatDay(tz, q, p.start, inp.existingBookings))
    ensures var panel := Panelists(inp.participants);
            panel != [] ==> IsMean(p.breakdown.workload, SumBy(share, panel), |panel|)
  {
    hide SchedulingProximity, TimezoneFairness, WorkingHoursComfort, Balance, BufferQuality, Minutes, IsPlacement;
    hide OthersThatDay, OnGrid, IsShare, IsMean;
    var iv, k := FactorsOf(tz, inp, p);
    var panel := Panelists(inp.participants);
    assert forall i :: 0 <= i < |panel| ==> panel[i] in panel;
    BalanceIsMean(tz, panel, p.start, inp.existingBookings, share);
  }

  /** The total is the sum of weight times factor. */
  lemma TotalAtSlot(tz: ZoneTable, inp: EngineInput, p: Placement)
    requires IsPlacement(tz, inp, p)
    ensures p.total == inp.weights.fairness * p.breakdown.fairness
                     + inp.weights.comfort * p.breakdown.comfort
                     + inp.weights.proximity * p.breakdown.proximity
                     + inp.weights.workload * p.breakdown.workload
                     + inp.weights.buffer * p.breakdown.buffer
  {
    hide ScoreOf;
  }

  // ------------------------------------------------------------------- the ranking

  /** Ranks count from 1; a higher total comes first, and of equal totals the earlier start; whatever
      is offered and not returned would come after all that is. */
  lemma RankingRead(tz: ZoneTable, inp: EngineInput, slots: seq<Slot>)
    requires IsResult(tz, inp, slots)
    ensures |slots| <= inp.constraints.topN
    ensures forall i :: 0 <= i < |slots| ==> slots[i].rank == i + 1 && slots[i].placement in Offer(tz, inp)
    ensures forall i, j :: 0 <= i < j < |slots| ==> Ahead(slots[i].placement, slots[j].placement)
    ensures forall q :: q in Offer(tz, inp) && (forall i :: 0 <= i < |slots| ==> slots[i].placement != q) ==>
              |slots| == inp.constraints.topN && forall i :: 0 <= i < |slots| ==> Ahead(slots[i].placement, q)
  {
    var ps := PlacementsOf(slots);
    assert forall i :: 0 <= i < |slots| ==> ps[i] == slots[i].placement;
    assert forall a, b :: Before(a, b) ==> Ahead(a, b);
    forall q | q in Offer(tz, inp) && (forall i :: 0 <= i < |slots| ==> slots[i].placement != q)
      ensures |slots| == inp.constraints.topN && forall i :: 0 <= i < |slots| ==> Ahead(slots[i].placement, q)
    {
      assert q !in ps;
    }
  }

  predicate Ahead(a: Placement, b: Placement) {
    b.total < a.total || (b.total == a.total && a.start < b.start)
  }
}
