/** What follows from the engine's specification alone, for every input. */
module EngineTheorems {
  import opened Lists
  import opened Intervals
  import opened SchedulingTypes
  import opened Scoring
  import opened EngineSpec

  // ------------------------------------------------------------ soundness of a slot

  /** The slot with both buffers, as a stretch of time. */
  ghost function Buffered(c: Constraints, start: int): iset<int> {
    Between(start - Buffer(c), start + Duration(c) + Buffer(c))
  }

  lemma PlacementIsFree(tz: ZoneTable, inp: EngineInput, p: Placement)
    requires IsPlacement(tz, inp, p)
    ensures p.end == p.start + Duration(inp.constraints)
    ensures Buffered(inp.constraints, p.start) <= FreeSet(tz, inp)
  {
  }

  /** In the working day of one of the local days the windows span. Where the zone's days come in
      order that is the participant's own local day, and where the clock is not changed during
      work, the clock shows working hours. */
  ghost predicate AtWork(z: Zone, wh: WorkingHours, ws: seq<Interval>, t: int) {
    && ws != [] && OnDuty(z, wh, SpanOf(ws), t)
    && (OrderlyDays(z, wh) ==> InWorkday(z, wh, LocalDay(z, t), t))
    && (Consistent(z, wh) ==> InWorkingHours(z, wh, t))
  }

  lemma WorkTold(z: Zone, wh: WorkingHours, ws: seq<Interval>, t: int)
    requires ws != [] && Covers(ws, t)
    ensures AtWork(z, wh, ws, t) <==> OnDuty(z, wh, SpanOf(ws), t)
  {
  }

  /** Every returned slot, buffers included, is inside the candidate's windows, inside
      everybody's working hours and outside every panelist's busy blocks. */
  lemma SlotSound(tz: ZoneTable, inp: EngineInput, slots: seq<Slot>, i: nat, t: int)
    requires IsResult(tz, inp, slots) && i < |slots|
    requires slots[i].placement.start - Buffer(inp.constraints) <= t < slots[i].placement.end + Buffer(inp.constraints)
    ensures slots[i].placement.end == slots[i].placement.start + Duration(inp.constraints)
    ensures Covers(inp.windows, t)
    ensures forall p :: p in inp.participants ==>
              && p.timezone in tz
              && AtWork(tz[p.timezone], inp.constraints.workingHours, inp.windows, t)
              && (p.isCandidate || !Covers(p.busy, t))
  {
    assert PlacementsOf(slots)[i] in Offer(tz, inp);
    PlacementIsFree(tz, inp, slots[i].placement);
    assert Within(t, slots[i].placement.start - Buffer(inp.constraints),
                  slots[i].placement.end + Buffer(inp.constraints));
    assert t in FreeSet(tz, inp);
    forall p | p in inp.participants
      ensures p.timezone in tz && FreeFor(tz, inp.constraints.workingHours, SpanOf(inp.windows), p, t)
      ensures AtWork(tz[p.timezone], inp.constraints.workingHours, inp.windows, t)
    {
      var k :| 0 <= k < |inp.participants| && inp.participants[k] == p;
      WorkTold(tz[p.timezone], inp.constraints.workingHours, inp.windows, t);
    }
  }

  // -------------------------------------------------------------- exact feasibility

  /** Any stretch of a bounded set of instants extends to a maximal one. */
  lemma RunAround(s: iset<int>, lo: int, hi: int, a: int, b: int) returns (iv: Interval)
    requires a < b && Between(a, b) <= s
    requires forall t :: t in s ==> lo <= t < hi
    ensures IsRun(s, iv) && iv.start <= a && b <= iv.end
  {
    assert Within(a, a, b) && Within(b - 1, a, b);
    assert a in s && b - 1 in s && forall t :: a <= t < b ==> Within(t, a, b);
    var x, y := a, b;
    while x - 1 in s
      invariant lo <= x <= a && forall t :: x <= t < b ==> t in s
      decreases x - lo
    {
      x := x - 1;
    }
    while y in s
      invariant b <= y <= hi && forall t :: x <= t < y ==> t in s
      decreases hi - y
    {
      y := y + 1;
    }
    iv := Interval(x, y);
  }

  lemma WindowsBound(ws: seq<Interval>) returns (lo: int, hi: int)
    ensures forall t :: Covers(ws, t) ==> lo <= t < hi
  {
    lo, hi := 0, 0;
    for k := 0 to |ws|
      invariant forall i :: 0 <= i < k ==> lo <= ws[i].start && ws[i].end <= hi
    {
      lo := if ws[k].start < lo then ws[k].start else lo;
      hi := if ws[k].end > hi then ws[k].end else hi;
    }
  }

  ghost predicate Fits(tz: ZoneTable, inp: EngineInput, start: int) {
    Buffered(inp.constraints, start) <= FreeSet(tz, inp)
  }

  lemma FittingStartGivesPlacement(tz: ZoneTable, inp: EngineInput, start: int) returns (p: Placement)
    requires Valid(tz, inp) && Fits(tz, inp, start)
    ensures p in Offer(tz, inp)
  {
    assert !Fails(tz, inp, BadDuration) && !Fails(tz, inp, BadBuffer) && !Fails(tz, inp, BadStep);
    assert !Fails(tz, inp, BadProximityHorizon) && !Fails(tz, inp, NoPanelist);
    var c := inp.constraints;
    var lo, hi := WindowsBound(inp.windows);
    assert Within(start, start - Buffer(c), start + Duration(c) + Buffer(c));
    assert start in FreeSet(tz, inp);
    assert Free(tz, inp, start);
    assert FreeFor(tz, c.workingHours, SpanOf(inp.windows), inp.participants[0], start);
    var iv := RunAround(FreeSet(tz, inp), lo, hi, start - Buffer(c), start + Duration(c) + Buffer(c));
    p := PlacementAt(tz, inp, iv, GridStart(c, iv, 0));
    assert PlacedIn(tz, inp, iv, 0, p);
  }

  /** No slot is returned exactly when no instant at all, on the grid or off it, can host the
      interview with its buffers. */
  lemma FeasibilityExact(tz: ZoneTable, inp: EngineInput, slots: seq<Slot>)
    requires Valid(tz, inp) && IsResult(tz, inp, slots)
    ensures slots == [] <==> forall start :: !Fits(tz, inp, start)
  {
    if slots != [] {
      assert PlacementsOf(slots)[0] in Offer(tz, inp);
      PlacementIsFree(tz, inp, slots[0].placement);
      assert Fits(tz, inp, slots[0].placement.start);
    } else {
      assert !Fails(tz, inp, BadTopN);
      forall start ensures !Fits(tz, inp, start) {
        if Fits(tz, inp, start) {
          var p := FittingStartGivesPlacement(tz, inp, start);
        }
      }
    }
  }

  // --------------------------------------------------------------- counting exactly

  lemma {:induction false} SetOfList<T>(xs: seq<T>)
    requires NoDuplicates(xs)
    ensures |set x | x in xs| == |xs|
  {
    if xs != [] {
      SetOfList(xs[1..]);
      assert (set x | x in xs) == {xs[0]} + (set x | x in xs[1..]);
    }
  }

  lemma FewerElements<T>(a: seq<T>, b: seq<T>)
    requires NoDuplicates(a) && NoDuplicates(b) && forall x :: x in a ==> x in b
    ensures |a| <= |b|
  {
    SetOfList(a);
    SetOfList(b);
    SubsetSmaller(set x | x in a, set x | x in b);
  }

  lemma {:induction false} SubsetSmaller<T>(a: set<T>, b: set<T>)
    requires a <= b
    ensures |a| <= |b|
  {
    if a != {} {
      var x :| x in a;
      SubsetSmaller(a - {x}, b - {x});
    }
  }

  lemma TopCount(offer: iset<Placement>, n: int, ps: seq<Placement>, all: seq<Placement>)
    requires IsTop(offer, n, ps) && NoDuplicates(all) && forall p :: p in all <==> p in offer
    ensures |ps| == if |all| <= n then |all| else n
  {
    assert NoDuplicates(ps) by {
      assert forall i, j :: 0 <= i < j < |ps| ==> Before(ps[i], ps[j]);
    }
    FewerElements(ps, all);
    if |ps| < n {
      FewerElements(all, ps);
    }
  }

  /** The result holds min(topN, total) slots, where every maximal free stretch of length L
      contributes floor((L - duration - 2*buffer) / step) + 1 placements if that is not negative. */
  lemma ResultCount(tz: ZoneTable, inp: EngineInput, slots: seq<Slot>, ivs: seq<Interval>)
    requires Scorable(tz, inp) && IsResult(tz, inp, slots)
    requires Canonical(ivs) && Points(ivs) == FreeSet(tz, inp)
    ensures |slots| == (var total := PlacementCount(inp.constraints, ivs);
                        if total <= inp.constraints.topN then total else inp.constraints.topN)
  {
    var all := AllPlacements(tz, inp, ivs);
    StartsIncrease(tz, inp, ivs);
    forall p ensures p in all <==> p in Offer(tz, inp) {
      EnumerationIsExact(tz, inp, ivs, p);
    }
    TopCount(Offer(tz, inp), inp.constraints.topN, PlacementsOf(slots), all);
  }

  // ---------------------------------------------------------------- one result only

  lemma NotAmongEarlier(ps: seq<Placement>, k: nat)
    requires Ordered(ps) && k < |ps|
    ensures ps[k] !in ps[..k]
  {
  }

  lemma SameNext(offer: iset<Placement>, n: int, xs: seq<Placement>, ys: seq<Placement>, i: nat)
    requires IsTop(offer, n, xs) && IsTop(offer, n, ys)
    requires i < |xs| && i < |ys| && xs[..i] == ys[..i]
    ensures xs[i] == ys[i]
  {
  }

  /** The two tops agree up to position k. */
  lemma {:induction false} SamePrefix(offer: iset<Placement>, n: int, xs: seq<Placement>, ys: seq<Placement>, k: nat)
    requires IsTop(offer, n, xs) && IsTop(offer, n, ys)
    requires k <= |xs| && k <= |ys|
    ensures xs[..k] == ys[..k]
  {
    if k > 0 {
      var i := k - 1;
      SamePrefix(offer, n, xs, ys, i);
      SameNext(offer, n, xs, ys, i);
      assert xs[..k] == xs[..i] + [xs[i]] && ys[..k] == ys[..i] + [ys[i]];
    }
  }

  lemma NotLonger(offer: iset<Placement>, n: int, xs: seq<Placement>, ys: seq<Placement>)
    requires IsTop(offer, n, xs) && IsTop(offer, n, ys)
    ensures |ys| <= |xs|
  {
    if |xs| < |ys| {
      SamePrefix(offer, n, xs, ys, |xs|);
      NotAmongEarlier(ys, |xs|);
    }
  }

  /** At most one list is the top n of an offer. */
  lemma TopUnique(offer: iset<Placement>, n: int, xs: seq<Placement>, ys: seq<Placement>)
    requires IsTop(offer, n, xs) && IsTop(offer, n, ys)
    ensures xs == ys
  {
    NotLonger(offer, n, xs, ys);
    NotLonger(offer, n, ys, xs);
    SamePrefix(offer, n, xs, ys, |xs|);
    assert xs[..|xs|] == xs && ys[..|xs|] == ys;
  }

  /** The specification leaves no choice: ranks, scores and order are all determined. */
  lemma ResultUnique(tz: ZoneTable, a: EngineInput, b: EngineInput, xs: seq<Slot>, ys: seq<Slot>)
    requires Offer(tz, a) == Offer(tz, b) && a.constraints.topN == b.constraints.topN
    requires IsResult(tz, a, xs) && IsResult(tz, b, ys)
    ensures xs == ys
  {
    TopUnique(Offer(tz, a), a.constraints.topN, PlacementsOf(xs), PlacementsOf(ys));
    forall i | 0 <= i < |xs| ensures xs[i] == ys[i] {
      assert PlacementsOf(xs)[i] == PlacementsOf(ys)[i];
    }
  }

  // -------------------------------------------------------------- order independence

  /** The same request: participants listed in another order, windows reordered, repeated or
      split into nonempty parts without changing their union. */
  ghost predicate Rearranged(a: EngineInput, b: EngineInput) {
    && multiset(a.participants) == multiset(b.participants)
    && Points(a.windows) == Points(b.windows) && Proper(a.windows) && Proper(b.windows)
    && a.referenceTime == b.referenceTime && a.constraints == b.constraints
    && a.existingBookings == b.existingBookings && a.weights == b.weights
  }

  /** Every window of `a` starts and ends within the union of those of `b`. */
  lemma WindowWithin(a: seq<Interval>, b: seq<Interval>, i: nat)
    requires Points(a) == Points(b) && Proper(a) && i < |a|
    ensures b != [] && MinStart(b) <= a[i].start && a[i].end <= MaxEnd(b)
  {
    var w := a[i];
    assert Covers(a, w.start) && Covers(a, w.end - 1);
    assert w.start in Points(b) && w.end - 1 in Points(b);
  }

  lemma SpanWithin(a: seq<Interval>, b: seq<Interval>)
    requires Points(a) == Points(b) && Proper(a) && a != []
    ensures b != [] && MinStart(b) <= MinStart(a) && MaxEnd(a) <= MaxEnd(b)
  {
    var i :| 0 <= i < |a| && a[i].start == MinStart(a);
    var j :| 0 <= j < |a| && a[j].end == MaxEnd(a);
    WindowWithin(a, b, i);
    WindowWithin(a, b, j);
  }

  lemma SameSpan(a: seq<Interval>, b: seq<Interval>)
    requires Points(a) == Points(b) && Proper(a) && Proper(b)
    ensures a == [] <==> b == []
    ensures a != [] ==> SpanOf(a) == SpanOf(b)
  {
    if a != [] { SpanWithin(a, b); }
    if b != [] { SpanWithin(b, a); }
  }

  lemma SamePanelSize(a: seq<Participant>, b: seq<Participant>)
    requires multiset(a) == multiset(b)
    ensures |a| == |b| && |Panelists(a)| == |Panelists(b)|
  {
    SameMultiset(a, b);
    PanelSize(a);
    PanelSize(b);
    SumByPermuted(Seat(), a, b);
  }

  lemma WindowFaultToo(a: seq<Interval>, b: seq<Interval>, lo: int, hi: int)
    requires Points(a) == Points(b) && Proper(a) && Proper(b)
    ensures (exists i :: 0 <= i < |a| && a[i].start < lo) ==> exists i :: 0 <= i < |b| && b[i].start < lo
    ensures (exists i :: 0 <= i < |a| && a[i].end > hi) ==> exists i :: 0 <= i < |b| && b[i].end > hi
  {
    SameSpan(a, b);
  }

  lemma ParticipantFaultToo(tz: ZoneTable, a: seq<Participant>, b: seq<Participant>)
    requires multiset(a) == multiset(b)
    ensures KnownZones(tz, b) ==> KnownZones(tz, a)
    ensures (exists i :: 0 <= i < |a| && !Proper(a[i].busy)) ==> exists i :: 0 <= i < |b| && !Proper(b[i].busy)
  {
    SameMultiset(a, b);
    forall i | 0 <= i < |a| ensures exists j :: 0 <= j < |b| && b[j] == a[i] {
      assert a[i] in b;
    }
  }

  /** The panel is as large, and each check on participants or windows comes out the same. */
  lemma SameFaults(tz: ZoneTable, a: EngineInput, b: EngineInput, e: EngineError)
    requires Rearranged(a, b) && Fails(tz, a, e)
    ensures Fails(tz, b, e)
  {
    SamePanelSize(a.participants, b.participants);
    ParticipantFaultToo(tz, a.participants, b.participants);
    SameSpan(a.windows, b.windows);
    WindowFaultToo(a.windows, b.windows, a.referenceTime, a.referenceTime + a.constraints.horizonDays * DAY);
  }

  lemma SameFreeSet(tz: ZoneTable, a: EngineInput, b: EngineInput)
    requires Rearranged(a, b)
    ensures KnownZones(tz, a.participants) <==> KnownZones(tz, b.participants)
    ensures FreeSet(tz, a) == FreeSet(tz, b)
  {
    SameMultiset(a.participants, b.participants);
    assert KnownZones(tz, a.participants) <==> forall p :: p in a.participants ==> p.timezone in tz;
    assert KnownZones(tz, b.participants) <==> forall p :: p in b.participants ==> p.timezone in tz;
    SameSpan(a.windows, b.windows);
    forall t ensures Free(tz, a, t) <==> Free(tz, b, t) {
      assert Covers(a.windows, t) <==> t in Points(a.windows);
      assert Covers(b.windows, t) <==> t in Points(b.windows);
    }
  }

  lemma SameHours(tz: ZoneTable, a: seq<Participant>, b: seq<Participant>, t: int, h: real)
    requires KnownZones(tz, a) && KnownZones(tz, b) && multiset(a) == multiset(b)
    requires h in LocalHours(tz, a, t)
    ensures h in LocalHours(tz, b, t)
  {
    SameMultiset(a, b);
    var i :| 0 <= i < |a| && LocalHours(tz, a, t)[i] == h;
    assert a[i] in b;
    var j :| 0 <= j < |b| && b[j] == a[i];
    assert LocalHours(tz, b, t)[j] == h;
  }

  /** The worst-off participant is the same however the hours are listed. */
  lemma SameWorstOff(xs: seq<real>, ys: seq<real>, wh: WorkingHours)
    requires wh.dayStart != wh.dayEnd && forall h :: h in xs <==> h in ys
    ensures TimezoneFairness(xs, wh) == TimezoneFairness(ys, wh)
    ensures WorkingHoursComfort(xs, wh) == WorkingHoursComfort(ys, wh)
  {
    var fx := seq(|xs|, i requires 0 <= i < |xs| => FairnessAt(xs[i], wh));
    var fy := seq(|ys|, i requires 0 <= i < |ys| => FairnessAt(ys[i], wh));
    var cx := seq(|xs|, i requires 0 <= i < |xs| => ComfortAt(xs[i], wh));
    var cy := seq(|ys|, i requires 0 <= i < |ys| => ComfortAt(ys[i], wh));
    forall v ensures v in fx <==> v in fy {
      SameImage(xs, ys, fx, fy, h => if wh.dayStart != wh.dayEnd then FairnessAt(h, wh) else 0.0, v);
      SameImage(ys, xs, fy, fx, h => if wh.dayStart != wh.dayEnd then FairnessAt(h, wh) else 0.0, v);
    }
    forall v ensures v in cx <==> v in cy {
      SameImage(xs, ys, cx, cy, h => ComfortAt(h, wh), v);
      SameImage(ys, xs, cy, cx, h => ComfortAt(h, wh), v);
    }
    WorstOffSameElements(fx, fy);
    WorstOffSameElements(cx, cy);
  }

  lemma SameImage(xs: seq<real>, ys: seq<real>, fx: seq<real>, fy: seq<real>, f: real -> real, v: real)
    requires |fx| == |xs| && |fy| == |ys|
    requires forall i :: 0 <= i < |xs| ==> fx[i] == f(xs[i])
    requires forall i :: 0 <= i < |ys| ==> fy[i] == f(ys[i])
    requires forall h :: h in xs ==> h in ys
    ensures v in fx ==> v in fy
  {
    if v in fx {
      var i :| 0 <= i < |fx| && fx[i] == v;
      var h := xs[i];
      assert h in xs && h in ys;
      var j :| 0 <= j < |ys| && ys[j] == h;
      assert fy[j] == v;
    }
  }

  lemma SamePlacementAt(tz: ZoneTable, a: EngineInput, b: EngineInput, iv: Interval, start: int)
    requires Rearranged(a, b) && Scorable(tz, a) && Scorable(tz, b)
    ensures PlacementAt(tz, a, iv, start) == PlacementAt(tz, b, iv, start)
  {
    hide TimezoneFairness, WorkingHoursComfort, SchedulingProximity, Balance, BufferQuality;
    hide WeightedTotal, Minutes, LocalHours;
    var mid := start + Duration(a.constraints) / 2;
    var xs, ys := LocalHours(tz, a.participants, mid), LocalHours(tz, b.participants, mid);
    forall h ensures h in xs <==> h in ys {
      if h in xs { SameHours(tz, a.participants, b.participants, mid, h); }
      if h in ys { SameHours(tz, b.participants, a.participants, mid, h); }
    }
    SameWorstOff(xs, ys, a.constraints.workingHours);
    BalancePermuted(tz, a.participants, b.participants, start, a.existingBookings);
  }

  lemma RearrangedOffer(tz: ZoneTable, a: EngineInput, b: EngineInput, p: Placement)
    requires Rearranged(a, b) && IsPlacement(tz, a, p)
    ensures IsPlacement(tz, b, p)
  {
    SameFreeSet(tz, a, b);
    var iv, k: nat :| PlacedIn(tz, a, iv, k, p);
    SamePlacementAt(tz, a, b, iv, p.start);
    assert PlacedIn(tz, b, iv, k, p);
  }

  /** Rearranging the participants or the windows changes nothing in the answer: neither whether
      the input is accepted nor the slots, ranks and scores included. */
  lemma OrderIndependent(tz: ZoneTable, a: EngineInput, b: EngineInput, xs: seq<Slot>, ys: seq<Slot>)
    requires Rearranged(a, b) && IsResult(tz, a, xs) && IsResult(tz, b, ys)
    ensures Valid(tz, a) <==> Valid(tz, b)
    ensures xs == ys
  {
    forall e ensures Fails(tz, a, e) <==> Fails(tz, b, e) {
      if Fails(tz, a, e) { SameFaults(tz, a, b, e); }
      if Fails(tz, b, e) { SameFaults(tz, b, a, e); }
    }
    forall p ensures p in Offer(tz, a) <==> p in Offer(tz, b) {
      if IsPlacement(tz, a, p) { RearrangedOffer(tz, a, b, p); }
      if IsPlacement(tz, b, p) { RearrangedOffer(tz, b, a, p); }
    }
    ResultUnique(tz, a, b, xs, ys);
  }

  // ----------------------------------------------------------------- scores in range

  lemma MidpointAtWork(tz: ZoneTable, inp: EngineInput, p: Placement, i: nat)
    requires IsPlacement(tz, inp, p) && i < |inp.participants|
    ensures AtWork(tz[inp.participants[i].timezone], inp.constraints.workingHours, inp.windows,
                   p.start + Duration(inp.constraints) / 2)
  {
    hide PlacementAt;
    var c := inp.constraints;
    PlacementIsFree(tz, inp, p);
    var mid := p.start + Duration(c) / 2;
    assert Within(mid, p.start - Buffer(c), p.start + Duration(c) + Buffer(c));
    assert mid in FreeSet(tz, inp);
    assert FreeFor(tz, c.workingHours, SpanOf(inp.windows), inp.participants[i], mid);
    WorkTold(tz[inp.participants[i].timezone], c.workingHours, inp.windows, mid);
  }

  /** Exactly when the safety nets of the scoring are not needed: for every placement the engine
      scores and every participant, when their clock at the midpoint reads a time of the working
      day. Being in the working day is one thing, what the clock then reads another. */
  lemma SafetyNetsAtSlot(tz: ZoneTable, inp: EngineInput, p: Placement, i: nat)
    requires IsPlacement(tz, inp, p) && i < |inp.participants|
    requires inp.constraints.workingHours.dayStart < inp.constraints.workingHours.dayEnd
    ensures var second := LocalSecond(tz[inp.participants[i].timezone], p.start + Duration(inp.constraints) / 2);
            var wh := inp.constraints.workingHours;
            SafetyNetsIdle(Hours(second), wh) <==> wh.dayStart <= second <= wh.dayEnd
  {
    hide PlacementAt, SafetyNetsIdle;
    var second := LocalSecond(tz[inp.participants[i].timezone], p.start + Duration(inp.constraints) / 2);
    SafetyNetsExact(second, inp.constraints.workingHours);
  }

  /** A clock that is not changed during work reads such a time at every midpoint. */
  lemma SafetyNetsUnused(tz: ZoneTable, inp: EngineInput, p: Placement, i: nat)
    requires IsPlacement(tz, inp, p) && i < |inp.participants|
    requires Consistent(tz[inp.participants[i].timezone], inp.constraints.workingHours)
    ensures var mid := p.start + Duration(inp.constraints) / 2;
            SafetyNetsIdle(Hours(LocalSecond(tz[inp.participants[i].timezone], mid)), inp.constraints.workingHours)
  {
    hide PlacementAt, SafetyNetsIdle;
    MidpointAtWork(tz, inp, p, i);
    SafetyNetsAtSlot(tz, inp, p, i);
  }

  /** America/Nuuk on a spring day up to 2022: three hours behind UTC, and at ten in the evening the
      clock moves on to eleven. */
  const NUUK_SPRING: Zone := ShiftingZone(90_000_000_000, -10_800_000_000, -7_200_000_000)

  /** One half-hour interview, in a window that starts at the change, with work until half past ten. */
  function ChangeInput(): EngineInput {
    var wh := WorkingHours(25_200, 81_000, 32_400, 64_800);
    EngineInput(
      0,
      [Participant("c", "America/Nuuk", true, []), Participant("p", "America/Nuuk", false, [])],
      [Interval(90_000_000_000, 91_800_000_000)],
      Constraints(30, 0, 21, 14, 15, 3, wh),
      map[],
      Weights(0.30, 0.20, 0.20, 0.15, 0.15))
  }

  /** The whole window is free for both. */
  lemma ChangeFree(tz: ZoneTable, t: int)
    requires tz == map["America/Nuuk" := NUUK_SPRING] && 90_000_000_000 <= t < 91_800_000_000
    ensures Free(tz, ChangeInput(), t)
  {
    var inp := ChangeInput();
    assert inp.windows[0].start <= t < inp.windows[0].end;
    assert LocalDay(NUUK_SPRING, 90_000_000_000) == 0 && LocalDay(NUUK_SPRING, 91_800_000_000) == 0;
    assert InWorkday(NUUK_SPRING, inp.constraints.workingHours, 0, t);
    assert OnDuty(NUUK_SPRING, inp.constraints.workingHours, SpanOf(inp.windows), t);
  }

  /** The nets can be needed: half past ten falls into the hour that is skipped, and in the middle of
      a slot the engine offers this clock reads a quarter past eleven. */
  lemma SafetyNetsNeeded(tz: ZoneTable) returns (p: Placement)
    requires tz == map["America/Nuuk" := NUUK_SPRING]
    ensures Valid(tz, ChangeInput()) && IsPlacement(tz, ChangeInput(), p)
    ensures var mid := p.start + Duration(ChangeInput().constraints) / 2;
            && LocalSecond(NUUK_SPRING, mid) == 83_700
            && !SafetyNetsIdle(Hours(83_700), ChangeInput().constraints.workingHours)
  {
    hide Valid, IsPlacement, SafetyNetsIdle;
    p := ChangePlacement(tz);
    SafetyNetsExact(83_700, ChangeInput().constraints.workingHours);
  }

  lemma ChangePlacement(tz: ZoneTable) returns (p: Placement)
    requires tz == map["America/Nuuk" := NUUK_SPRING]
    ensures Valid(tz, ChangeInput()) && IsPlacement(tz, ChangeInput(), p) && p.start == 90_000_000_000
  {
    hide PlacementAt, Valid, ShiftingZone, OnDuty;
    var inp := ChangeInput();
    ChangeInputValid(tz);
    forall t | t in Buffered(inp.constraints, 90_000_000_000) ensures t in FreeSet(tz, inp) {
      ChangeFree(tz, t);
    }
    p := FittingStartGivesPlacement(tz, inp, 90_000_000_000);
    assert IsPlacement(tz, inp, p);
    PlacementIsFree(tz, inp, p);
    OnlyInWindow(tz, p.start);
    OnlyInWindow(tz, p.end - 1);
  }

  lemma OnlyInWindow(tz: ZoneTable, t: int)
    ensures t in FreeSet(tz, ChangeInput()) ==> 90_000_000_000 <= t < 91_800_000_000
  {
  }

  lemma ChangeInputValid(tz: ZoneTable)
    requires tz == map["America/Nuuk" := NUUK_SPRING]
    ensures Valid(tz, ChangeInput())
  {
  }

  lemma FactorsInRange(tz: ZoneTable, inp: EngineInput, iv: Interval, start: int)
    requires Scorable(tz, inp)
    ensures BreakdownInRange(ScoreOf(tz, inp, iv, start))
  {
    hide Balance, Minutes, Days, LocalHours, TimezoneFairness, WorkingHoursComfort;
    KnownPanelists(tz, inp.participants);
    var mid := start + Duration(inp.constraints) / 2;
    ClampedInRange(LocalHours(tz, inp.participants, mid), inp.constraints.workingHours);
    BalanceInRange(tz, Panelists(inp.participants), start, inp.existingBookings);
  }

  /** With non-negative weights that sum to one, every factor and every total is in [0, 1]. */
  lemma ScoresInRange(tz: ZoneTable, inp: EngineInput, slots: seq<Slot>, n: nat)
    requires IsResult(tz, inp, slots) && n < |slots| && WeightsNormalised(inp.weights)
    ensures BreakdownInRange(slots[n].placement.breakdown) && UnitInterval(slots[n].placement.total)
  {
    hide ScoreOf, WeightedTotal;
    var p := slots[n].placement;
    assert PlacementsOf(slots)[n] in Offer(tz, inp);
    var iv, k: nat :| PlacedIn(tz, inp, iv, k, p);
    FactorsInRange(tz, inp, iv, p.start);
    TotalInRange(p.breakdown, inp.weights);
  }
}
