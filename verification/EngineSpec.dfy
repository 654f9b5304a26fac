/** What the engine promises, said without its pipeline: which instants are free, which
    placements there are, and which of them are returned, in what order. */
module EngineSpec {
  import opened Lists
  import opened Intervals
  import opened SchedulingTypes
  import opened Scoring

  datatype EngineError =
    | BadDuration | BadBuffer | BadStep | BadTopN | BadProximityHorizon
    | CandidateCount | NoPanelist
    | UnknownTimezone | BadBusy
    | NoWindows
    | EmptyWindow | PastWindow | BeyondHorizon

  /** The checks in the order they are made; those inside one loop share a place. */
  function Phase(e: EngineError): nat {
    match e
    case BadDuration => 0
    case BadBuffer => 1
    case BadStep => 2
    case BadTopN => 3
    case BadProximityHorizon => 4
    case CandidateCount => 5
    case NoPanelist => 6
    case UnknownTimezone | BadBusy => 7
    case NoWindows => 8
    case EmptyWindow | PastWindow | BeyondHorizon => 9
  }

  ghost predicate Fails(tz: ZoneTable, inp: EngineInput, e: EngineError) {
    var c, ps, ws := inp.constraints, inp.participants, inp.windows;
    match e
    case BadDuration => c.durationMinutes <= 0
    case BadBuffer => c.bufferMinutes < 0
    case BadStep => c.slotStepMinutes <= 0
    case BadTopN => c.topN <= 0
    case BadProximityHorizon => c.proximityHorizonDays <= 0
    case CandidateCount => |ps| - |Panelists(ps)| != 1
    case NoPanelist => Panelists(ps) == []
    case UnknownTimezone => !KnownZones(tz, ps)
    case BadBusy => exists i :: 0 <= i < |ps| && !Proper(ps[i].busy)
    case NoWindows => ws == []
    case EmptyWindow => !Proper(ws)
    case PastWindow => exists i :: 0 <= i < |ws| && ws[i].start < inp.referenceTime
    case BeyondHorizon => exists i :: 0 <= i < |ws| && ws[i].end > inp.referenceTime + c.horizonDays * DAY
  }

  ghost predicate Valid(tz: ZoneTable, inp: EngineInput) {
    forall e :: !Fails(tz, inp, e)
  }

  function MinStart(ws: seq<Interval>): (r: int)
    requires ws != []
    ensures forall i :: 0 <= i < |ws| ==> r <= ws[i].start
    ensures exists i :: 0 <= i < |ws| && ws[i].start == r
  {
    if |ws| == 1 then ws[0].start
    else
      var r := MinStart(ws[1..]);
      assert forall i :: 0 < i < |ws| ==> ws[i] == ws[1..][i - 1];
      assert forall i :: 0 <= i < |ws| - 1 ==> ws[1..][i] == ws[i + 1];
      if ws[0].start < r then ws[0].start else r
  }

  function MaxEnd(ws: seq<Interval>): (r: int)
    requires ws != []
    ensures forall i :: 0 <= i < |ws| ==> ws[i].end <= r
    ensures exists i :: 0 <= i < |ws| && ws[i].end == r
  {
    if |ws| == 1 then ws[0].end
    else
      var r := MaxEnd(ws[1..]);
      assert forall i :: 0 < i < |ws| ==> ws[i] == ws[1..][i - 1];
      assert forall i :: 0 <= i < |ws| - 1 ==> ws[1..][i] == ws[i + 1];
      if ws[0].end > r then ws[0].end else r
  }

  /** From the first window's start to the last one's end. */
  function SpanOf(ws: seq<Interval>): Interval
    requires ws != []
  {
    Interval(MinStart(ws), MaxEnd(ws))
  }

  function Duration(c: Constraints): int {
    c.durationMinutes * MINUTE
  }

  function Buffer(c: Constraints): int {
    c.bufferMinutes * MINUTE
  }

  function Step(c: Constraints): int {
    c.slotStepMinutes * MINUTE
  }

  /** A slot with its buffer on both sides. */
  function Needed(c: Constraints): int {
    Duration(c) + 2 * Buffer(c)
  }

  /** One participant's day at instant t: at work, and if a panelist, not busy. */
  ghost predicate FreeFor(tz: ZoneTable, wh: WorkingHours, span: Interval, p: Participant, t: int)
    requires p.timezone in tz
  {
    OnDuty(tz[p.timezone], wh, span, t) && (p.isCandidate || !Covers(p.busy, t))
  }

  ghost predicate Free(tz: ZoneTable, inp: EngineInput, t: int) {
    && KnownZones(tz, inp.participants)
    && inp.windows != [] && Covers(inp.windows, t)
    && forall p :: p in inp.participants ==> FreeFor(tz, inp.constraints.workingHours, SpanOf(inp.windows), p, t)
  }

  ghost function FreeSet(tz: ZoneTable, inp: EngineInput): iset<int> {
    iset t | Free(tz, inp, t)
  }

  // -------------------------------------------------------------------- placements

  datatype Placement = Placement(start: int, end: int, breakdown: Breakdown, total: real)

  datatype Slot = Slot(rank: int, placement: Placement)

  /** Every divisor met while scoring is nonzero, and the grid moves forward. */
  predicate Scorable(tz: ZoneTable, inp: EngineInput) {
    && KnownZones(tz, inp.participants)
    && inp.constraints.workingHours.dayStart != inp.constraints.workingHours.dayEnd
    && inp.constraints.proximityHorizonDays > 0
    && inp.constraints.slotStepMinutes > 0
    && inp.constraints.durationMinutes > 0
    && inp.constraints.bufferMinutes >= 0
  }

  function GridStart(c: Constraints, iv: Interval, k: nat): int {
    iv.start + Buffer(c) + k * Step(c)
  }

  function ScoreOf(tz: ZoneTable, inp: EngineInput, iv: Interval, start: int): Breakdown
    requires Scorable(tz, inp)
  {
    var c := inp.constraints;
    var hours := LocalHours(tz, inp.participants, start + Duration(c) / 2);
    KnownPanelists(tz, inp.participants);
    Breakdown(
      TimezoneFairness(hours, c.workingHours),
      WorkingHoursComfort(hours, c.workingHours),
      SchedulingProximity(start, inp.referenceTime, c.proximityHorizonDays),
      Balance(tz, Panelists(inp.participants), start, inp.existingBookings),
      BufferQuality(
        Minutes(start - iv.start),
        Minutes(iv.end - (start + Duration(c))),
        c.bufferMinutes))
  }

  function PlacementAt(tz: ZoneTable, inp: EngineInput, iv: Interval, start: int): Placement
    requires Scorable(tz, inp)
  {
    var b := ScoreOf(tz, inp, iv, start);
    Placement(start, start + Duration(inp.constraints), b, WeightedTotal(b, inp.weights))
  }

  /** `p` stands at the k-th grid point of the maximal free stretch `iv`, buffers included. */
  ghost predicate PlacedIn(tz: ZoneTable, inp: EngineInput, iv: Interval, k: nat, p: Placement)
    requires Scorable(tz, inp)
  {
    && IsRun(FreeSet(tz, inp), iv)
    && p.start == GridStart(inp.constraints, iv, k)
    && p.end + Buffer(inp.constraints) <= iv.end
    && p == PlacementAt(tz, inp, iv, p.start)
  }

  ghost predicate IsPlacement(tz: ZoneTable, inp: EngineInput, p: Placement) {
    Scorable(tz, inp) && exists iv, k: nat :: PlacedIn(tz, inp, iv, k, p)
  }

  predicate Before(a: Placement, b: Placement) {
    a.total > b.total || (a.total == b.total && a.start < b.start)
  }

  ghost function Offer(tz: ZoneTable, inp: EngineInput): iset<Placement> {
    iset p | IsPlacement(tz, inp, p)
  }

  ghost predicate Ordered(ps: seq<Placement>) {
    forall i, j :: 0 <= i < j < |ps| ==> Before(ps[i], ps[j])
  }

  /** The best n of what is on offer, best first; all of it, if there are fewer. */
  ghost predicate IsTop(offer: iset<Placement>, n: int, ps: seq<Placement>) {
    && |ps| <= n
    && (forall i :: 0 <= i < |ps| ==> ps[i] in offer)
    && Ordered(ps)
    && (forall p :: p in offer && p !in ps ==> |ps| == n && forall i :: 0 <= i < |ps| ==> Before(ps[i], p))
  }

  function PlacementsOf(slots: seq<Slot>): (ps: seq<Placement>) {
    seq(|slots|, i requires 0 <= i < |slots| => slots[i].placement)
  }

  /** The best topN placements by score descending, then start ascending, ranked from 1. */
  ghost predicate IsResult(tz: ZoneTable, inp: EngineInput, slots: seq<Slot>) {
    && (forall i :: 0 <= i < |slots| ==> slots[i].rank == i + 1)
    && IsTop(Offer(tz, inp), inp.constraints.topN, PlacementsOf(slots))
  }

  // ------------------------------------------------- what a canonical free list offers

  /** How many grid points of `iv` leave room for the slot and both buffers. */
  function GridCount(c: Constraints, iv: Interval): nat
    requires Step(c) > 0
  {
    var room := iv.end - iv.start - Needed(c);
    if room < 0 then 0 else room / Step(c) + 1
  }

  function PlacementCount(c: Constraints, ivs: seq<Interval>): nat
    requires Step(c) > 0
  {
    if ivs == [] then 0 else PlacementCount(c, ivs[..|ivs| - 1]) + GridCount(c, ivs[|ivs| - 1])
  }

  ghost function PlacementsIn(tz: ZoneTable, inp: EngineInput, iv: Interval): (ps: seq<Placement>)
    requires Scorable(tz, inp)
  {
    seq(GridCount(inp.constraints, iv), k requires 0 <= k =>
      PlacementAt(tz, inp, iv, GridStart(inp.constraints, iv, k)))
  }

  /** All placements of a list of free intervals, in generation order. */
  ghost function AllPlacements(tz: ZoneTable, inp: EngineInput, ivs: seq<Interval>): (ps: seq<Placement>)
    requires ivs != [] ==> Scorable(tz, inp)
  {
    if ivs == [] then []
    else AllPlacements(tz, inp, ivs[..|ivs| - 1]) + PlacementsIn(tz, inp, ivs[|ivs| - 1])
  }

  lemma MulOrder(a: int, b: int, s: int)
    requires s > 0
    ensures a <= b ==> a * s <= b * s
    ensures a < b ==> a * s + s <= b * s
  {
    if a < b {
      assert (b - a - 1) * s >= 0;
    }
  }

  /** The division in GridCount counts the grid points that fit. */
  lemma GridFits(room: int, s: int, k: nat)
    requires s > 0 && room >= 0
    ensures k < room / s + 1 <==> k * s <= room
  {
    var q := room / s;
    assert room == q * s + room % s;
    MulOrder(k, q, s);
    MulOrder(q, k, s);
  }

  lemma GridCountFits(c: Constraints, iv: Interval, k: nat)
    requires c.slotStepMinutes > 0 && c.durationMinutes > 0 && c.bufferMinutes >= 0
    ensures k < GridCount(c, iv) <==> GridStart(c, iv, k) + Duration(c) + Buffer(c) <= iv.end
  {
    var room := iv.end - iv.start - Needed(c);
    if room >= 0 {
      GridFits(room, Step(c), k);
    } else {
      MulOrder(0, k, Step(c));
    }
  }

  /** Up to generation order, the enumeration is exactly the set of placements. */
  lemma EnumerationIsExact(tz: ZoneTable, inp: EngineInput, ivs: seq<Interval>, p: Placement)
    requires Scorable(tz, inp) && Canonical(ivs) && Points(ivs) == FreeSet(tz, inp)
    ensures p in AllPlacements(tz, inp, ivs) <==> IsPlacement(tz, inp, p)
  {
    if p in AllPlacements(tz, inp, ivs) {
      var iv, k := PlacementComesFrom(tz, inp, ivs, p);
      CanonicalRuns(ivs, iv);
      GridCountFits(inp.constraints, iv, k);
      assert PlacedIn(tz, inp, iv, k, p);
    }
    if IsPlacement(tz, inp, p) {
      var iv, k: nat :| PlacedIn(tz, inp, iv, k, p);
      CanonicalRuns(ivs, iv);
      GridCountFits(inp.constraints, iv, k);
      GridPointEnumerated(tz, inp, ivs, iv, k);
    }
  }

  lemma {:induction false} PlacementComesFrom(tz: ZoneTable, inp: EngineInput, ivs: seq<Interval>, p: Placement)
    returns (iv: Interval, k: nat)
    requires Scorable(tz, inp) && p in AllPlacements(tz, inp, ivs)
    ensures iv in ivs && k < GridCount(inp.constraints, iv)
    ensures p == PlacementAt(tz, inp, iv, GridStart(inp.constraints, iv, k))
  {
    var n := |ivs| - 1;
    if p in PlacementsIn(tz, inp, ivs[n]) {
      iv := ivs[n];
      k :| 0 <= k < GridCount(inp.constraints, iv) && PlacementsIn(tz, inp, iv)[k] == p;
    } else {
      iv, k := PlacementComesFrom(tz, inp, ivs[..n], p);
    }
  }

  lemma {:induction false} GridPointEnumerated(
    tz: ZoneTable, inp: EngineInput, ivs: seq<Interval>, iv: Interval, k: nat)
    requires Scorable(tz, inp) && iv in ivs && k < GridCount(inp.constraints, iv)
    ensures PlacementAt(tz, inp, iv, GridStart(inp.constraints, iv, k)) in AllPlacements(tz, inp, ivs)
  {
    var n := |ivs| - 1;
    if ivs[n] == iv {
      assert PlacementsIn(tz, inp, iv)[k] == PlacementAt(tz, inp, iv, GridStart(inp.constraints, iv, k));
    } else {
      assert ivs == ivs[..n] + [ivs[n]];
      GridPointEnumerated(tz, inp, ivs[..n], iv, k);
    }
  }

  /** Generation order is start order: no two placements share a start. */
  lemma {:induction false} StartsIncrease(tz: ZoneTable, inp: EngineInput, ivs: seq<Interval>)
    requires Scorable(tz, inp) && Canonical(ivs)
    ensures var ps := AllPlacements(tz, inp, ivs);
            forall i, j :: 0 <= i < j < |ps| ==> ps[i].start < ps[j].start
    ensures |AllPlacements(tz, inp, ivs)| == PlacementCount(inp.constraints, ivs)
  {
    if ivs != [] {
      var n, c := |ivs| - 1, inp.constraints;
      var front, back := AllPlacements(tz, inp, ivs[..n]), PlacementsIn(tz, inp, ivs[n]);
      StartsIncrease(tz, inp, ivs[..n]);
      forall i, j | 0 <= i < j < |back| ensures back[i].start < back[j].start {
        MulOrder(i, j, Step(c));
      }
      forall i, j | 0 <= i < |front| && 0 <= j < |back| ensures front[i].start < back[j].start {
        var iv, k := PlacementComesFrom(tz, inp, ivs[..n], front[i]);
        GridCountFits(c, iv, k);
        MulOrder(0, j, Step(c));
        var m :| 0 <= m < n && ivs[m] == iv;
        assert iv.end < ivs[n].start;
      }
    }
  }
}
