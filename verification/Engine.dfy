/** The pipeline itself, step by step, proved against EngineSpec. */
module Engine {
  import opened Wrappers
  import opened Lists
  import opened Intervals
  import opened SchedulingTypes
  import opened Scoring
  import opened EngineSpec

  datatype EngineResult = Rejected(error: EngineError) | Ranked(slots: seq<Slot>)

  // -------------------------------------------------------------------- validation

  method Validate(tz: ZoneTable, inp: EngineInput) returns (err: Option<EngineError>)
    ensures err.Some? ==> Fails(tz, inp, err.value)
    ensures err.None? ==> Valid(tz, inp)
    ensures err.Some? ==> forall e :: Phase(e) < Phase(err.value) ==> !Fails(tz, inp, e)
  {
    var c := inp.constraints;
    if c.durationMinutes <= 0 { return Some(BadDuration); }
    if c.bufferMinutes < 0 { return Some(BadBuffer); }
    if c.slotStepMinutes <= 0 { return Some(BadStep); }
    if c.topN <= 0 { return Some(BadTopN); }
    if c.proximityHorizonDays <= 0 { return Some(BadProximityHorizon); }
    var horizonEnd := inp.referenceTime + c.horizonDays * DAY;
    var panelists := Panelists(inp.participants);
    if |inp.participants| - |panelists| != 1 { return Some(CandidateCount); }
    if panelists == [] { return Some(NoPanelist); }
    err := ValidateParticipants(tz, inp.participants);
    if err.Some? { return; }
    if inp.windows == [] { return Some(NoWindows); }
    err := ValidateWindows(inp.windows, inp.referenceTime, horizonEnd);
  }

  /** The loop over the participants. */
  method ValidateParticipants(tz: ZoneTable, ps: seq<Participant>) returns (err: Option<EngineError>)
    ensures err.None? <==> KnownZones(tz, ps) && forall i :: 0 <= i < |ps| ==> Proper(ps[i].busy)
    ensures err == Some(UnknownTimezone) ==> !KnownZones(tz, ps)
    ensures err == Some(BadBusy) ==> exists i :: 0 <= i < |ps| && !Proper(ps[i].busy)
    ensures err in {None, Some(UnknownTimezone), Some(BadBusy)}
  {
    for i := 0 to |ps|
      invariant forall k :: 0 <= k < i ==> ps[k].timezone in tz && Proper(ps[k].busy)
    {
      var p := ps[i];
      if p.timezone !in tz { return Some(UnknownTimezone); }
      for m := 0 to |p.busy|
        invariant forall k :: 0 <= k < m ==> p.busy[k].start < p.busy[k].end
      {
        if p.busy[m].end <= p.busy[m].start { return Some(BadBusy); }
      }
    }
    return None;
  }

  /** The loop over the windows. */
  method ValidateWindows(ws: seq<Interval>, reference: int, horizonEnd: int) returns (err: Option<EngineError>)
    ensures err.None? <==> forall i :: 0 <= i < |ws| ==> reference <= ws[i].start < ws[i].end <= horizonEnd
    ensures err == Some(EmptyWindow) ==> !Proper(ws)
    ensures err == Some(PastWindow) ==> exists i :: 0 <= i < |ws| && ws[i].start < reference
    ensures err == Some(BeyondHorizon) ==> exists i :: 0 <= i < |ws| && ws[i].end > horizonEnd
    ensures err in {None, Some(EmptyWindow), Some(PastWindow), Some(BeyondHorizon)}
  {
    for i := 0 to |ws|
      invariant forall k :: 0 <= k < i ==> reference <= ws[k].start < ws[k].end <= horizonEnd
    {
      var w := ws[i];
      if w.end <= w.start { return Some(EmptyWindow); }
      if w.start < reference { return Some(PastWindow); }
      if w.end > horizonEnd { return Some(BeyondHorizon); }
    }
    return None;
  }

  // ---------------------------------------------------------------- free intervals

  /** Some local day from `first` up to but not including `d` has t in its working day. */
  ghost predicate InDays(z: Zone, wh: WorkingHours, first: int, d: int, t: int) {
    exists day :: first <= day < d && InWorkday(z, wh, day, t)
  }

  ghost function DutySet(z: Zone, wh: WorkingHours, span: Interval): iset<int> {
    iset t | OnDuty(z, wh, span, t)
  }

  /** One interval per local day touched by `span`, merged. */
  method WorkingIntervals(z: Zone, span: Interval, wh: WorkingHours) returns (working: seq<Interval>)
    ensures Points(working) == DutySet(z, wh, span)
    ensures Separated(working)
  {
    var first, last := LocalDay(z, span.start), LocalDay(z, span.end);
    var d := first;
    var out: seq<Interval> := [];
    while d <= last
      invariant first <= d
      invariant d <= last + 1 || d == first
      invariant forall t :: Covers(out, t) <==> InDays(z, wh, first, d, t)
      decreases last + 1 - d
    {
      DaysAppend(z, wh, first, d, out);
      out := out + [Interval(DayStart(z, wh, d), DayEnd(z, wh, d))];
      d := d + 1;
    }
    working := Merge(out);
  }

  lemma DaysAppend(z: Zone, wh: WorkingHours, first: int, d: int, out: seq<Interval>)
    requires first <= d && forall t :: Covers(out, t) <==> InDays(z, wh, first, d, t)
    ensures forall t :: Covers(out + [Interval(DayStart(z, wh, d), DayEnd(z, wh, d))], t) <==>
                          InDays(z, wh, first, d + 1, t)
  {
    var day := Interval(DayStart(z, wh, d), DayEnd(z, wh, d));
    CoversAppend(out, day);
    forall t ensures Covers(out + [day], t) <==> InDays(z, wh, first, d + 1, t) {
      OneDayMore(z, wh, first, d, t);
      assert Covers(out + [day], t) <==> Covers(out, t) || InWorkday(z, wh, d, t);
    }
  }

  lemma OneDayMore(z: Zone, wh: WorkingHours, first: int, d: int, t: int)
    requires first <= d
    ensures InDays(z, wh, first, d + 1, t) <==> InDays(z, wh, first, d, t) || InWorkday(z, wh, d, t)
  {
  }

  /** The instants one participant can offer, before clipping to the span of the windows. */
  ghost function OfferedBy(tz: ZoneTable, inp: EngineInput, p: Participant): iset<int>
    requires p.timezone in tz && inp.windows != []
  {
    DutySet(tz[p.timezone], inp.constraints.workingHours, SpanOf(inp.windows))
    * (if p.isCandidate then Points(inp.windows) else (iset t | !Covers(p.busy, t)))
  }

  /** Offered by each of the first k participants. */
  ghost predicate OfferedByFirst(tz: ZoneTable, inp: EngineInput, k: nat, t: int)
    requires KnownZones(tz, inp.participants) && inp.windows != [] && k <= |inp.participants|
  {
    forall i :: 0 <= i < k ==> t in OfferedBy(tz, inp, inp.participants[i])
  }

  method ParticipantFree(tz: ZoneTable, inp: EngineInput, p: Participant, span: Interval, windows: seq<Interval>)
    returns (free: seq<Interval>)
    requires p.timezone in tz && inp.windows != [] && span == SpanOf(inp.windows)
    requires Points(windows) == Points(inp.windows)
    ensures Points(free) == OfferedBy(tz, inp, p) * Between(span.start, span.end)
  {
    var wh := inp.constraints.workingHours;
    var working := WorkingIntervals(tz[p.timezone], span, wh);
    if p.isCandidate {
      free := Intersect(working, windows);
    } else {
      free := Subtract(working, p.busy);
    }
    ghost var whole := Points(free);
    free := Clip(free, span.start, span.end);
    ghost var inSpan := Between(span.start, span.end);
    if p.isCandidate {
      assert whole * inSpan == (Points(working) * inSpan) * Points(windows);
    } else {
      assert whole * inSpan == (Points(working) * inSpan) - Points(p.busy);
      assert (iset t | !Covers(p.busy, t)) * inSpan == inSpan - Points(p.busy);
    }
    assert whole * inSpan == OfferedBy(tz, inp, p) * inSpan;
  }

  method FreeIntervals(tz: ZoneTable, inp: EngineInput) returns (common: seq<Interval>)
    requires KnownZones(tz, inp.participants)
    requires inp.windows != [] && |inp.participants| >= 2
    requires exists i :: 0 <= i < |inp.participants| && inp.participants[i].isCandidate
    ensures Canonical(common) && Points(common) == FreeSet(tz, inp)
  {
    hide OnDuty;
    var span := SpanOf(inp.windows);
    var mergedWindows := Merge(inp.windows);
    var ps := inp.participants;
    ghost var inSpan := Between(span.start, span.end);
    var perParticipant: seq<seq<Interval>> := [];
    for k := 0 to |ps|
      invariant |perParticipant| == k
      invariant forall i :: 0 <= i < k ==> Points(perParticipant[i]) == OfferedBy(tz, inp, ps[i]) * inSpan
    {
      var free := ParticipantFree(tz, inp, ps[k], span, mergedWindows);
      perParticipant := perParticipant + [free];
    }
    common := perParticipant[0];
    for k := 1 to |ps|
      invariant k > 1 ==> Canonical(common)
      invariant forall t :: t in Points(common) <==> t in inSpan && OfferedByFirst(tz, inp, k, t)
    {
      ghost var was := Points(common);
      common := Intersect(common, perParticipant[k]);
      assert Points(common) == was * (OfferedBy(tz, inp, ps[k]) * inSpan);
    }
    forall t ensures t in Points(common) <==> Free(tz, inp, t) {
      OfferedByAll(tz, inp, span, t);
    }
  }

  /** Being offered by everyone, candidate included, is being free: the span adds nothing. */
  lemma OfferedByAll(tz: ZoneTable, inp: EngineInput, span: Interval, t: int)
    requires KnownZones(tz, inp.participants) && inp.windows != []
    requires span == SpanOf(inp.windows)
    requires exists i :: 0 <= i < |inp.participants| && inp.participants[i].isCandidate
    ensures t in Between(span.start, span.end) && OfferedByFirst(tz, inp, |inp.participants|, t) <==> Free(tz, inp, t)
  {
    var ps := inp.participants;
    var c :| 0 <= c < |ps| && ps[c].isCandidate;
    if OfferedByFirst(tz, inp, |ps|, t) {
      assert t in OfferedBy(tz, inp, ps[c]);
      assert t in Points(inp.windows);
      forall p | p in ps ensures FreeFor(tz, inp.constraints.workingHours, span, p, t) {
        var i :| 0 <= i < |ps| && ps[i] == p;
        assert t in OfferedBy(tz, inp, ps[i]);
      }
    }
    if Free(tz, inp, t) {
      var w :| 0 <= w < |inp.windows| && inp.windows[w].start <= t < inp.windows[w].end;
      assert Within(t, span.start, span.end);
      forall i | 0 <= i < |ps| ensures t in OfferedBy(tz, inp, ps[i]) {
        assert ps[i] in ps;
      }
    }
  }

  // ------------------------------------------------------------- score, rank, top N

  method Score(tz: ZoneTable, inp: EngineInput, iv: Interval, start: int) returns (b: Breakdown, total: real)
    requires Scorable(tz, inp)
    ensures b == ScoreOf(tz, inp, iv, start) && total == WeightedTotal(b, inp.weights)
  {
    hide TimezoneFairness, WorkingHoursComfort, SchedulingProximity, Balance, BufferQuality;
    hide WeightedTotal, Minutes;
    var c := inp.constraints;
    var end := start + Duration(c);
    var hours := LocalHours(tz, inp.participants, start + Duration(c) / 2);
    var panelists := Panelists(inp.participants);
    KnownPanelists(tz, inp.participants);
    var gapBefore := Minutes(start - iv.start);
    var gapAfter := Minutes(iv.end - end);
    var workload := WorkloadBalance(tz, panelists, start, inp.existingBookings);
    b := Breakdown(
      TimezoneFairness(hours, c.workingHours),
      WorkingHoursComfort(hours, c.workingHours),
      SchedulingProximity(start, inp.referenceTime, c.proximityHorizonDays),
      workload,
      BufferQuality(gapBefore, gapAfter, c.bufferMinutes));
    total := WeightedTotal(b, inp.weights);
  }

  predicate NoWorse(a: Placement, b: Placement) {
    a.total > b.total || (a.total == b.total && a.start <= b.start)
  }

  /** Walks the grid of one free interval. */
  method PlaceIn(tz: ZoneTable, inp: EngineInput, iv: Interval) returns (found: seq<Placement>)
    requires Scorable(tz, inp)
    ensures found == PlacementsIn(tz, inp, iv)
  {
    hide ScoreOf, WeightedTotal;
    var c := inp.constraints;
    found := [];
    if iv.end - iv.start < Needed(c) {
      return;
    }
    var t := iv.start + Buffer(c);
    var latest := iv.end - Duration(c) - Buffer(c);
    GridCountFits(c, iv, 0);
    while t <= latest
      invariant t == GridStart(c, iv, |found|)
      invariant |found| <= GridCount(c, iv)
      invariant found == PlacementsIn(tz, inp, iv)[..|found|]
      decreases GridCount(c, iv) - |found|
    {
      GridCountFits(c, iv, |found|);
      var breakdown, total := Score(tz, inp, iv, t);
      found := found + [Placement(t, t + Duration(c), breakdown, total)];
      t := t + Step(c);
    }
    GridCountFits(c, iv, |found|);
  }

  /** A nonempty common list means somebody works at some instant, so the day is not empty. */
  lemma FreeMakesScorable(tz: ZoneTable, inp: EngineInput, common: seq<Interval>)
    requires Valid(tz, inp) && Canonical(common) && Points(common) == FreeSet(tz, inp) && common != []
    ensures Scorable(tz, inp)
  {
    ValidFacts(tz, inp);
    assert Covers(common, common[0].start);
    assert common[0].start in FreeSet(tz, inp);
    assert FreeFor(tz, inp.constraints.workingHours, SpanOf(inp.windows), inp.participants[0], common[0].start);
  }

  lemma ValidFacts(tz: ZoneTable, inp: EngineInput)
    requires Valid(tz, inp)
    ensures inp.constraints.durationMinutes > 0 && inp.constraints.bufferMinutes >= 0
    ensures inp.constraints.slotStepMinutes > 0 && inp.constraints.topN > 0
    ensures inp.constraints.proximityHorizonDays > 0
    ensures KnownZones(tz, inp.participants) && inp.windows != [] && |inp.participants| >= 2
    ensures exists i :: 0 <= i < |inp.participants| && inp.participants[i].isCandidate
  {
    assert !Fails(tz, inp, BadDuration) && !Fails(tz, inp, BadBuffer) && !Fails(tz, inp, BadStep);
    assert !Fails(tz, inp, BadTopN) && !Fails(tz, inp, BadProximityHorizon);
    assert !Fails(tz, inp, UnknownTimezone) && !Fails(tz, inp, NoWindows);
    assert !Fails(tz, inp, CandidateCount) && !Fails(tz, inp, NoPanelist);
    AllPanelists(inp.participants);
  }

  lemma {:induction false} AllPanelists(ps: seq<Participant>)
    ensures |Panelists(ps)| <= |ps|
    ensures (forall i :: 0 <= i < |ps| ==> !ps[i].isCandidate) ==> |Panelists(ps)| == |ps|
  {
    if ps != [] {
      AllPanelists(ps[1..]);
    }
  }

  /** The full pipeline. */
  method GenerateRecommendations(tz: ZoneTable, inp: EngineInput) returns (r: EngineResult)
    ensures r.Rejected? <==> !Valid(tz, inp)
    ensures r.Rejected? ==>
              Fails(tz, inp, r.error) && forall e :: Phase(e) < Phase(r.error) ==> !Fails(tz, inp, e)
    ensures r.Ranked? ==> IsResult(tz, inp, r.slots)
  {
    hide PlacementAt, ScoreOf;
    var err := Validate(tz, inp);
    if err.Some? {
      return Rejected(err.value);
    }
    ValidFacts(tz, inp);
    var common := FreeIntervals(tz, inp);
    if common != [] {
      FreeMakesScorable(tz, inp, common);
    }
    var raw: seq<Placement> := [];
    for k := 0 to |common|
      invariant raw == AllPlacements(tz, inp, common[..k])
    {
      var found := PlaceIn(tz, inp, common[k]);
      raw := raw + found;
      assert common[..k + 1][..k] == common[..k];
    }
    assert common[..|common|] == common;
    var ranked := Sort(NoWorse, raw);
    var n := if |ranked| <= inp.constraints.topN then |ranked| else inp.constraints.topN;
    var slots: seq<Slot> := [];
    for k := 0 to n
      invariant |slots| == k
      invariant forall i :: 0 <= i < k ==> slots[i] == Slot(i + 1, ranked[i])
    {
      slots := slots + [Slot(k + 1, ranked[k])];
    }
    RankingIsResult(tz, inp, common, ranked, slots);
    return Ranked(slots);
  }

  /** Sorting the enumeration and cutting it at topN gives the result the specification asks for. */
  lemma RankingIsResult(
    tz: ZoneTable, inp: EngineInput, common: seq<Interval>, ranked: seq<Placement>, slots: seq<Slot>)
    requires Canonical(common) && Points(common) == FreeSet(tz, inp)
    requires common != [] ==> Scorable(tz, inp)
    requires inp.constraints.topN > 0
    requires multiset(ranked) == multiset(AllPlacements(tz, inp, common)) && SortedBy(NoWorse, ranked)
    requires |slots| == (if |ranked| <= inp.constraints.topN then |ranked| else inp.constraints.topN)
    requires forall i :: 0 <= i < |slots| ==> slots[i] == Slot(i + 1, ranked[i])
    ensures IsResult(tz, inp, slots)
  {
    hide PlacementAt, ScoreOf;
    SameMultiset(ranked, AllPlacements(tz, inp, common));
    RankedStrictly(tz, inp, common, ranked);
    forall p ensures p in ranked <==> p in Offer(tz, inp) {
      if common != [] {
        EnumerationIsExact(tz, inp, common, p);
      } else {
        NothingFreeNothingPlaced(tz, inp, p);
      }
    }
    assert PlacementsOf(slots) == ranked[..|slots|];
    PrefixIsTop(Offer(tz, inp), inp.constraints.topN, ranked, |slots|);
  }

  lemma PrefixIsTop(offer: iset<Placement>, n: int, ranked: seq<Placement>, k: nat)
    requires Ordered(ranked) && forall p :: p in ranked <==> p in offer
    requires n >= 0 && k == (if |ranked| <= n then |ranked| else n)
    ensures IsTop(offer, n, ranked[..k])
  {
  }

  lemma NothingFreeNothingPlaced(tz: ZoneTable, inp: EngineInput, p: Placement)
    requires Points([]) == FreeSet(tz, inp)
    ensures !IsPlacement(tz, inp, p)
  {
    if IsPlacement(tz, inp, p) {
      var iv, k: nat :| PlacedIn(tz, inp, iv, k, p);
      RunHoldsItsStart(FreeSet(tz, inp), iv);
    }
  }

  /** Without two equal starts, a list sorted by score and start is sorted strictly. */
  lemma StrictlySorted(ranked: seq<Placement>, raw: seq<Placement>)
    requires multiset(ranked) == multiset(raw) && SortedBy(NoWorse, ranked)
    requires forall i, j :: 0 <= i < j < |raw| ==> raw[i].start < raw[j].start
    ensures Ordered(ranked)
  {
    SameMultiset(ranked, raw);
    NoDuplicatesMultiset(raw);
    NoDuplicatesMultiset(ranked);
    forall i, j | 0 <= i < j < |ranked| ensures Before(ranked[i], ranked[j]) {
      assert NoWorse(ranked[i], ranked[j]);
      assert ranked[i] in raw && ranked[j] in raw;
      var a :| 0 <= a < |raw| && raw[a] == ranked[i];
      var b :| 0 <= b < |raw| && raw[b] == ranked[j];
      assert raw[a] != raw[b];
    }
  }

  lemma RankedStrictly(tz: ZoneTable, inp: EngineInput, common: seq<Interval>, ranked: seq<Placement>)
    requires Canonical(common) && (common != [] ==> Scorable(tz, inp))
    requires multiset(ranked) == multiset(AllPlacements(tz, inp, common)) && SortedBy(NoWorse, ranked)
    ensures Ordered(ranked)
  {
    hide PlacementAt;
    if common != [] {
      StartsIncrease(tz, inp, common);
    }
    StrictlySorted(ranked, AllPlacements(tz, inp, common));
  }
}
