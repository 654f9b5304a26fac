/** The layer between the stored data and the engine: windows are clipped to now, other confirmed
    interviews become busy blocks, and the engine's answer becomes recommended slots. */
module SchedulingService {
  import opened Intervals
  import opened SchedulingTypes
  import opened Scoring
  import opened EngineSpec
  import opened Engine
  import opened EngineTheorems

  const HORIZON_DAYS := 21

  /** 7:00 to 22:00 local, with core hours 9:00 to 18:00. */
  const AVAILABILITY_WINDOW := WorkingHours(25_200, 79_200, 32_400, 64_800)

  const WEIGHTS := Weights(0.30, 0.20, 0.20, 0.15, 0.15)

  type Id = nat

  datatype Panelist = Panelist(id: Id, timezone: string)

  datatype RequestRow = RequestRow(id: Id, candidateId: Id, durationMinutes: int, bufferMinutes: int)

  datatype Availability = Availability(timezone: string, windows: seq<Interval>)

  /** A participant's share in a CONFIRMED event of some request. */
  datatype Commitment = Commitment(user: Id, request: Id, span: Interval)

  datatype Outcome =
    | NotReady
    | AllWindowsExpired
    | CalendarNotConnected
    | EngineRefused(error: EngineError)
    | NoCommonAvailability
    | Recommended(slots: seq<Slot>)

  // ------------------------------------------------------------------- windows

  /** What a candidate may submit at instant `now`. */
  predicate AcceptedAt(w: Interval, now: int) {
    now < w.start < w.end <= now + HORIZON_DAYS * DAY
  }

  function Later(a: int, b: int): int {
    if a >= b then a else b
  }

  /** Windows that have passed are dropped; one in progress starts at `ref`. */
  function ClipWindows(ws: seq<Interval>, ref: int): (r: seq<Interval>) {
    if ws == [] then []
    else (if ws[0].end > ref then [Interval(Later(ws[0].start, ref), ws[0].end)] else []) + ClipWindows(ws[1..], ref)
  }

  /** Clipping keeps exactly the instants that are not yet past. */
  lemma {:induction false} ClipKeepsTheFuture(ws: seq<Interval>, ref: int, t: int)
    ensures Covers(ClipWindows(ws, ref), t) <==> Covers(ws, t) && t >= ref
  {
    if ws != [] {
      ClipKeepsTheFuture(ws[1..], ref, t);
      var rest := ClipWindows(ws[1..], ref);
      assert ws == [ws[0]] + ws[1..];
      CoversPrepend(ws[0], ws[1..], t);
      if ws[0].end > ref {
        CoversPrepend(Interval(Later(ws[0].start, ref), ws[0].end), rest, t);
      } else {
        assert ClipWindows(ws, ref) == rest;
      }
    }
  }

  lemma CoversPrepend(iv: Interval, ivs: seq<Interval>, t: int)
    ensures Covers([iv] + ivs, t) <==> iv.start <= t < iv.end || Covers(ivs, t)
  {
    if Covers(ivs, t) {
      var i :| 0 <= i < |ivs| && ivs[i].start <= t < ivs[i].end;
      assert ([iv] + ivs)[i + 1] == ivs[i];
    }
    assert ([iv] + ivs)[0] == iv;
  }

  /** With a clock that does not go back, clipped windows pass all of the engine's window checks. */
  lemma {:induction false} ClippedWindowsPass(ws: seq<Interval>, submitted: int, ref: int)
    requires submitted <= ref && forall i :: 0 <= i < |ws| ==> AcceptedAt(ws[i], submitted)
    ensures forall w :: w in ClipWindows(ws, ref) ==> ref <= w.start < w.end <= ref + HORIZON_DAYS * DAY
  {
    if ws != [] {
      ClippedWindowsPass(ws[1..], submitted, ref);
    }
  }

  // --------------------------------------------------------------- commitments

  /** The fetch shared by the scheduler and the booking guard: other requests' CONFIRMED events
      of these users that overlap [lo, hi). */
  function ConfirmedFor(rows: seq<Commitment>, users: seq<Id>, exclude: Id, lo: int, hi: int): (r: seq<Commitment>)
    ensures forall c :: c in r <==>
              c in rows && c.user in users && c.request != exclude && c.span.start < hi && lo < c.span.end
  {
    if rows == [] then []
    else
      var c := rows[0];
      (if c.user in users && c.request != exclude && c.span.start < hi && lo < c.span.end then [c] else [])
      + ConfirmedFor(rows[1..], users, exclude, lo, hi)
  }

  function Ids(panel: seq<Panelist>): seq<Id> {
    seq(|panel|, i requires 0 <= i < |panel| => panel[i].id)
  }

  function BusyOf(busy: map<Id, seq<Interval>>, id: Id): seq<Interval> {
    if id in busy then busy[id] else []
  }

  ghost predicate CommittedTo(internal: seq<Commitment>, id: Id, iv: Interval) {
    exists c :: c in internal && c.user == id && c.span == iv
  }

  /** A block counts against a user when their calendar shows it or another interview holds it. */
  ghost predicate BusyIs(
    busy: map<Id, seq<Interval>>, ids: seq<Id>, simulated: bool,
    calendars: map<Id, seq<Interval>>, internal: seq<Commitment>)
  {
    forall id, iv :: iv in BusyOf(busy, id) <==>
      (!simulated && id in ids && iv in BusyOf(calendars, id)) || CommittedTo(internal, id, iv)
  }

  /** Each panelist's free/busy blocks, with the internal commitments appended. */
  method BusyByUser(panel: seq<Panelist>, simulated: bool, calendars: map<Id, seq<Interval>>, internal: seq<Commitment>)
    returns (busy: map<Id, seq<Interval>>)
    requires simulated || forall i :: 0 <= i < |panel| ==> panel[i].id in calendars
    ensures BusyIs(busy, Ids(panel), simulated, calendars, internal)
  {
    busy := map[];
    for i := 0 to |panel|
      invariant BusyIs(busy, Ids(panel)[..i], simulated, calendars, [])
    {
      assert Ids(panel)[..i + 1] == Ids(panel)[..i] + [panel[i].id];
      busy := busy[panel[i].id := if simulated then [] else calendars[panel[i].id]];
    }
    assert Ids(panel)[..|panel|] == Ids(panel) && internal[..0] == [];
    for k := 0 to |internal|
      invariant BusyIs(busy, Ids(panel), simulated, calendars, internal[..k])
    {
      var c := internal[k];
      ghost var was := busy;
      busy := busy[c.user := BusyOf(busy, c.user) + [c.span]];
      BusyGrows(was, busy, Ids(panel), simulated, calendars, internal, k);
    }
    assert internal[..|internal|] == internal;
  }

  lemma BusyGrows(
    was: map<Id, seq<Interval>>, busy: map<Id, seq<Interval>>, ids: seq<Id>, simulated: bool,
    calendars: map<Id, seq<Interval>>, internal: seq<Commitment>, k: nat)
    requires k < |internal| && BusyIs(was, ids, simulated, calendars, internal[..k])
    requires busy == was[internal[k].user := BusyOf(was, internal[k].user) + [internal[k].span]]
    ensures BusyIs(busy, ids, simulated, calendars, internal[..k + 1])
  {
    var c := internal[k];
    assert internal[..k + 1] == internal[..k] + [c];
    forall id, iv
      ensures CommittedTo(internal[..k + 1], id, iv) <==>
                CommittedTo(internal[..k], id, iv) || (id == c.user && iv == c.span)
      ensures iv in BusyOf(busy, id) <==> iv in BusyOf(was, id) || (id == c.user && iv == c.span)
    {
      if CommittedTo(internal[..k], id, iv) {
        var e :| e in internal[..k] && e.user == id && e.span == iv;
        assert e in internal[..k + 1];
      }
      assert c in internal[..k + 1];
    }
  }

  // ------------------------------------------------------------------ generation

  /** The engine is given ids as text. */
  function Text(id: Id): string {
    (if id < 10 then "" else Text(id / 10)) + ["0123456789"[id % 10]]
  }

  /** A user without a time zone is taken to be on UTC. */
  function ZoneOf(p: Panelist): string {
    if p.timezone == "" then "UTC" else p.timezone
  }

  function PanelParticipants(panel: seq<Panelist>, busy: map<Id, seq<Interval>>): (ps: seq<Participant>)
    ensures |ps| == |panel|
    ensures forall i :: 0 <= i < |ps| ==>
              ps[i] == Participant(Text(panel[i].id), ZoneOf(panel[i]), false, BusyOf(busy, panel[i].id))
  {
    if panel == [] then []
    else
      [Participant(Text(panel[0].id), ZoneOf(panel[0]), false, BusyOf(busy, panel[0].id))]
      + PanelParticipants(panel[1..], busy)
  }

  function InputFor(
    req: RequestRow, timezone: string, panel: seq<Panelist>, busy: map<Id, seq<Interval>>,
    windows: seq<Interval>, ref: int): EngineInput
  {
    EngineInput(
      ref,
      [Participant(Text(req.candidateId), timezone, true, [])] + PanelParticipants(panel, busy),
      windows,
      Constraints(req.durationMinutes, req.bufferMinutes, HORIZON_DAYS, 14, 15, 3, AVAILABILITY_WINDOW),
      map[],
      WEIGHTS)
  }

  /** Everything stored that a generation reads, and the clock. */
  datatype Situation = Situation(
    req: RequestRow, avail: Availability, panel: seq<Panelist>, simulated: bool,
    calendars: map<Id, seq<Interval>>, commitments: seq<Commitment>, ref: int)

  /** In the working day of one of the local days that the windows still ahead span. */
  ghost predicate Works(tz: ZoneTable, s: Situation, zone: string, t: int) {
    var windows := ClipWindows(s.avail.windows, s.ref);
    zone in tz && windows != [] && OnDuty(tz[zone], AVAILABILITY_WINDOW, SpanOf(windows), t)
  }

  /** Some other request's CONFIRMED event holds this user at instant t. */
  ghost predicate HeldElsewhere(s: Situation, user: Id, t: int) {
    exists c :: c in s.commitments && c.user == user && c.request != s.req.id && c.span.start <= t < c.span.end
  }

  ghost predicate PanelistFree(tz: ZoneTable, s: Situation, p: Panelist, t: int) {
    && Works(tz, s, ZoneOf(p), t)
    && (s.simulated || !Covers(BusyOf(s.calendars, p.id), t))
    && !HeldElsewhere(s, p.id, t)
  }

  /** At instant t the interview could be going on, judged from the stored rows alone. */
  ghost predicate Suits(tz: ZoneTable, s: Situation, t: int) {
    && Covers(s.avail.windows, t) && t >= s.ref
    && Works(tz, s, s.avail.timezone, t)
    && forall p :: p in s.panel ==> PanelistFree(tz, s, p, t)
  }

  /** The interview can start at `start`, buffers included. */
  ghost predicate CanHost(tz: ZoneTable, s: Situation, start: int) {
    var buffer, duration := s.req.bufferMinutes * MINUTE, s.req.durationMinutes * MINUTE;
    forall t :: start - buffer <= t < start + duration + buffer ==> Suits(tz, s, t)
  }

  /** Rows as the rest of the system writes them. */
  ghost predicate WellFormed(tz: ZoneTable, s: Situation, submitted: int) {
    && s.req.durationMinutes > 0 && s.req.bufferMinutes >= 0
    && s.avail.timezone in tz
    && (forall i :: 0 <= i < |s.panel| ==> ZoneOf(s.panel[i]) in tz)
    && (forall i :: 0 <= i < |s.avail.windows| ==> AcceptedAt(s.avail.windows[i], submitted))
    && (forall id :: id in s.calendars ==> Proper(s.calendars[id]))
    && (forall c :: c in s.commitments ==> c.span.start < c.span.end)
  }

  predicate Connected(s: Situation) {
    s.simulated || forall i :: 0 <= i < |s.panel| ==> s.panel[i].id in s.calendars
  }

  /** What other interviews hold of this panel, as the booking guard would see it. */
  function Clashes(s: Situation, span: Interval): seq<Commitment> {
    ConfirmedFor(s.commitments, Ids(s.panel), s.req.id, span.start, span.end)
  }

  /** `inp` is what the engine is given, with `busy` gathered as above. */
  ghost predicate Prepared(s: Situation, busy: map<Id, seq<Interval>>, inp: EngineInput) {
    var windows := ClipWindows(s.avail.windows, s.ref);
    && s.panel != [] && windows != []
    && inp == InputFor(s.req, s.avail.timezone, s.panel, busy, windows, s.ref)
    && BusyIs(busy, Ids(s.panel), s.simulated, s.calendars,
              Clashes(s, Interval(MinStart(windows), MaxEnd(windows))))
  }

  /** The slots are the engine's best for what was gathered. */
  ghost predicate BestOf(tz: ZoneTable, s: Situation, slots: seq<Slot>) {
    exists busy, inp :: Prepared(s, busy, inp) && Valid(tz, inp) && IsResult(tz, inp, slots)
  }

  method GenerateLocked(tz: ZoneTable, s: Situation) returns (o: Outcome)
    ensures o.NotReady? <==> s.avail.windows == [] || s.panel == []
    ensures o.AllWindowsExpired? <==>
              !o.NotReady? && forall i :: 0 <= i < |s.avail.windows| ==> s.avail.windows[i].end <= s.ref
    ensures o.CalendarNotConnected? <==> !o.NotReady? && !o.AllWindowsExpired? && !Connected(s)
    ensures o.EngineRefused? ==> forall submitted :: submitted <= s.ref ==> !WellFormed(tz, s, submitted)
    ensures o.NoCommonAvailability? ==> forall start :: !CanHost(tz, s, start)
    ensures o.Recommended? ==> 0 < |o.slots| <= 3
    ensures o.Recommended? ==> forall i :: 0 <= i < |o.slots| ==>
              var p := o.slots[i].placement;
              && p.end == p.start + s.req.durationMinutes * MINUTE
              && CanHost(tz, s, p.start)
              && Clashes(s, Interval(p.start, p.end)) == []
    ensures o.Recommended? ==> BestOf(tz, s, o.slots)
  {
    if s.avail.windows == [] || s.panel == [] {
      return NotReady;
    }
    var windows := ClipWindows(s.avail.windows, s.ref);
    NothingLeft(s.avail.windows, s.ref);
    if windows == [] {
      return AllWindowsExpired;
    }
    var timeMin, timeMax := MinStart(windows), MaxEnd(windows);
    if !Connected(s) {
      return CalendarNotConnected;
    }
    var internal := Clashes(s, Interval(timeMin, timeMax));
    var busy := BusyByUser(s.panel, s.simulated, s.calendars, internal);
    var inp := InputFor(s.req, s.avail.timezone, s.panel, busy, windows, s.ref);
    var result := GenerateRecommendations(tz, inp);
    if result.Rejected? {
      forall submitted | submitted <= s.ref ensures !WellFormed(tz, s, submitted) {
        if WellFormed(tz, s, submitted) {
          NeverRefused(tz, s, submitted, busy, inp, result.error);
        }
      }
      return EngineRefused(result.error);
    }
    HostsWhatFits(tz, s, busy, inp);
    FeasibilityExact(tz, inp, result.slots);
    if result.slots == [] {
      return NoCommonAvailability;
    }
    forall i | 0 <= i < |result.slots|
      ensures var p := result.slots[i].placement;
              && p.end == p.start + s.req.durationMinutes * MINUTE
              && CanHost(tz, s, p.start)
              && Clashes(s, Interval(p.start, p.end)) == []
    {
      SlotHostable(tz, s, busy, inp, result.slots, i);
    }
    assert Prepared(s, busy, inp) && Valid(tz, inp) && IsResult(tz, inp, result.slots);
    return Recommended(result.slots);
  }

  lemma {:induction false} NothingLeft(ws: seq<Interval>, ref: int)
    ensures ClipWindows(ws, ref) == [] <==> forall i :: 0 <= i < |ws| ==> ws[i].end <= ref
  {
    if ws != [] {
      NothingLeft(ws[1..], ref);
      assert forall i :: 0 < i < |ws| ==> ws[i] == ws[1..][i - 1];
      assert forall i :: 0 <= i < |ws| - 1 ==> ws[1..][i] == ws[i + 1];
    }
  }

  /** The service never hands the engine an input it rejects. */
  lemma NeverRefused(
    tz: ZoneTable, s: Situation, submitted: int, busy: map<Id, seq<Interval>>, inp: EngineInput, e: EngineError)
    requires WellFormed(tz, s, submitted) && submitted <= s.ref
    requires Prepared(s, busy, inp)
    ensures !Fails(tz, inp, e)
  {
    var others := PanelParticipants(s.panel, busy);
    ClippedWindowsPass(s.avail.windows, submitted, s.ref);
    assert forall i :: 0 <= i < |inp.windows| ==> inp.windows[i] in inp.windows;
    forall i | 0 <= i < |others| ensures others[i].timezone in tz && Proper(others[i].busy) {
      BusyProper(tz, s, submitted, busy, inp, s.panel[i].id);
    }
    SoundParticipants(tz, inp.participants, others);
    hide Prepared, WellFormed;
    NoFault(tz, inp, e);
  }

  lemma NoFault(tz: ZoneTable, inp: EngineInput, e: EngineError)
    requires var c := inp.constraints;
             && c.durationMinutes > 0 && c.bufferMinutes >= 0 && c.slotStepMinutes > 0
             && c.topN > 0 && c.proximityHorizonDays > 0
    requires |inp.participants| - |Panelists(inp.participants)| == 1 && Panelists(inp.participants) != []
    requires KnownZones(tz, inp.participants)
    requires forall i :: 0 <= i < |inp.participants| ==> Proper(inp.participants[i].busy)
    requires inp.windows != []
    requires forall i :: 0 <= i < |inp.windows| ==>
               inp.referenceTime <= inp.windows[i].start < inp.windows[i].end
               <= inp.referenceTime + inp.constraints.horizonDays * DAY
    ensures !Fails(tz, inp, e)
  {
  }

  lemma SoundParticipants(tz: ZoneTable, ps: seq<Participant>, others: seq<Participant>)
    requires others != [] && |ps| > 0 && ps == [ps[0]] + others
    requires ps[0].isCandidate && ps[0].timezone in tz && ps[0].busy == []
    requires forall i :: 0 <= i < |others| ==>
               !others[i].isCandidate && others[i].timezone in tz && Proper(others[i].busy)
    ensures |ps| - |Panelists(ps)| == 1 && Panelists(ps) != []
    ensures KnownZones(tz, ps) && forall i :: 0 <= i < |ps| ==> Proper(ps[i].busy)
  {
    AllPanelists(others);
    assert ps[1..] == others;
    assert forall i :: 0 < i < |ps| ==> ps[i] == others[i - 1];
  }

  lemma BusyProper(
    tz: ZoneTable, s: Situation, submitted: int, busy: map<Id, seq<Interval>>, inp: EngineInput, id: Id)
    requires WellFormed(tz, s, submitted) && Prepared(s, busy, inp)
    ensures Proper(BusyOf(busy, id))
  {
    var blocks := BusyOf(busy, id);
    forall i | 0 <= i < |blocks| ensures blocks[i].start < blocks[i].end {
      assert blocks[i] in blocks;
    }
  }

  /** A panelist's blocks at an instant of the windows: fetching only what overlaps the windows
      loses nothing there. */
  lemma BusyAt(s: Situation, busy: map<Id, seq<Interval>>, inp: EngineInput, p: Panelist, t: int)
    requires Prepared(s, busy, inp) && p in s.panel && Covers(inp.windows, t)
    ensures Covers(BusyOf(busy, p.id), t) <==>
              (!s.simulated && Covers(BusyOf(s.calendars, p.id), t)) || HeldElsewhere(s, p.id, t)
  {
    var shown := BusyOf(s.calendars, p.id);
    var k :| 0 <= k < |s.panel| && s.panel[k] == p;
    assert Ids(s.panel)[k] == p.id;
    HeldIsFetched(s, busy, inp, p, t);
    if !s.simulated && Covers(shown, t) {
      var i :| 0 <= i < |shown| && shown[i].start <= t < shown[i].end;
      CoversMember(BusyOf(busy, p.id), shown[i], t);
    }
    if Covers(BusyOf(busy, p.id), t) {
      BusyComesFrom(s, busy, inp, p, t);
    }
  }

  lemma HeldIsFetched(s: Situation, busy: map<Id, seq<Interval>>, inp: EngineInput, p: Panelist, t: int)
    requires Prepared(s, busy, inp) && Covers(inp.windows, t) && p.id in Ids(s.panel)
    ensures HeldElsewhere(s, p.id, t) ==> Covers(BusyOf(busy, p.id), t)
  {
    if HeldElsewhere(s, p.id, t) {
      var c :| c in s.commitments && c.user == p.id && c.request != s.req.id && c.span.start <= t < c.span.end;
      var w :| 0 <= w < |inp.windows| && inp.windows[w].start <= t < inp.windows[w].end;
      assert c in Clashes(s, Interval(MinStart(inp.windows), MaxEnd(inp.windows)));
      CoversMember(BusyOf(busy, p.id), c.span, t);
    }
  }

  lemma BusyComesFrom(s: Situation, busy: map<Id, seq<Interval>>, inp: EngineInput, p: Panelist, t: int)
    requires Prepared(s, busy, inp) && Covers(BusyOf(busy, p.id), t)
    ensures (!s.simulated && Covers(BusyOf(s.calendars, p.id), t)) || HeldElsewhere(s, p.id, t)
  {
    var blocks := BusyOf(busy, p.id);
    var fetched := Clashes(s, Interval(MinStart(inp.windows), MaxEnd(inp.windows)));
    var i :| 0 <= i < |blocks| && blocks[i].start <= t < blocks[i].end;
    assert blocks[i] in blocks;
    if CommittedTo(fetched, p.id, blocks[i]) {
      assert HeldElsewhere(s, p.id, t);
    } else {
      CoversMember(BusyOf(s.calendars, p.id), blocks[i], t);
    }
  }

  lemma CoversMember(ivs: seq<Interval>, iv: Interval, t: int)
    requires iv in ivs && iv.start <= t < iv.end
    ensures Covers(ivs, t)
  {
  }

  /** A participant as the engine sees them, over the windows still ahead. */
  ghost predicate FreeThen(tz: ZoneTable, s: Situation, p: Participant, t: int) {
    var windows := ClipWindows(s.avail.windows, s.ref);
    p.timezone in tz && windows != [] && FreeFor(tz, AVAILABILITY_WINDOW, SpanOf(windows), p, t)
  }

  lemma PanelistAgrees(tz: ZoneTable, s: Situation, busy: map<Id, seq<Interval>>, inp: EngineInput, i: nat, t: int)
    requires Prepared(s, busy, inp) && KnownZones(tz, inp.participants)
    requires i < |s.panel| && Covers(inp.windows, t)
    ensures FreeThen(tz, s, inp.participants[i + 1], t) <==> PanelistFree(tz, s, s.panel[i], t)
  {
    var p := inp.participants[i + 1];
    assert p == Participant(Text(s.panel[i].id), ZoneOf(s.panel[i]), false, BusyOf(busy, s.panel[i].id));
    BusyAt(s, busy, inp, s.panel[i], t);
  }

  /** The engine's free instants are those the stored rows suit. */
  lemma FreeIsSuitable(tz: ZoneTable, s: Situation, busy: map<Id, seq<Interval>>, inp: EngineInput, t: int)
    requires Prepared(s, busy, inp) && KnownZones(tz, inp.participants)
    ensures Free(tz, inp, t) <==> Suits(tz, s, t)
  {
    ClipKeepsTheFuture(s.avail.windows, s.ref, t);
    if Covers(inp.windows, t) {
      var ps := inp.participants;
      forall i | 0 <= i < |s.panel|
        ensures FreeThen(tz, s, ps[i + 1], t) <==> PanelistFree(tz, s, s.panel[i], t)
      {
        PanelistAgrees(tz, s, busy, inp, i, t);
      }
      EachSeat(tz, s, ps, t);
    }
  }

  lemma EachSeat(tz: ZoneTable, s: Situation, ps: seq<Participant>, t: int)
    requires |ps| == |s.panel| + 1 && ps[0].isCandidate && ps[0].timezone == s.avail.timezone && KnownZones(tz, ps)
    requires forall i :: 0 <= i < |s.panel| ==>
               (FreeThen(tz, s, ps[i + 1], t) <==> PanelistFree(tz, s, s.panel[i], t))
    ensures (forall p :: p in ps ==> FreeThen(tz, s, p, t)) <==>
              Works(tz, s, s.avail.timezone, t) && forall p :: p in s.panel ==> PanelistFree(tz, s, p, t)
  {
    assert FreeThen(tz, s, ps[0], t) <==> Works(tz, s, s.avail.timezone, t);
    if forall p :: p in ps ==> FreeThen(tz, s, p, t) {
      forall p | p in s.panel ensures PanelistFree(tz, s, p, t) {
        var i :| 0 <= i < |s.panel| && s.panel[i] == p;
        assert ps[i + 1] in ps;
      }
    }
    if Works(tz, s, s.avail.timezone, t) && forall p :: p in s.panel ==> PanelistFree(tz, s, p, t) {
      forall p | p in ps ensures FreeThen(tz, s, p, t) {
        var k :| 0 <= k < |ps| && ps[k] == p;
        if k > 0 {
          var i := k - 1;
          assert s.panel[i] in s.panel && ps[i + 1] == p;
        }
      }
    }
  }

  lemma HostsWhatFits(tz: ZoneTable, s: Situation, busy: map<Id, seq<Interval>>, inp: EngineInput)
    requires Prepared(s, busy, inp) && Valid(tz, inp)
    ensures forall start :: CanHost(tz, s, start) <==> Fits(tz, inp, start)
  {
    ValidFacts(tz, inp);
    forall t ensures t in FreeSet(tz, inp) <==> Suits(tz, s, t) {
      FreeIsSuitable(tz, s, busy, inp, t);
    }
    forall start ensures CanHost(tz, s, start) <==> Fits(tz, inp, start) {
      var buffer, duration := s.req.bufferMinutes * MINUTE, s.req.durationMinutes * MINUTE;
      var lo, hi := start - buffer, start + duration + buffer;
      assert Buffered(inp.constraints, start) == Between(lo, hi);
      assert forall t :: lo <= t < hi <==> Within(t, lo, hi);
      assert forall t :: t in Between(lo, hi) <==> Within(t, lo, hi);
    }
  }

  /** Recommendation agrees with booking: no other interview of the panel overlaps the slot. */
  lemma SlotHostable(
    tz: ZoneTable, s: Situation, busy: map<Id, seq<Interval>>, inp: EngineInput, slots: seq<Slot>, i: nat)
    requires Prepared(s, busy, inp) && Valid(tz, inp) && IsResult(tz, inp, slots) && i < |slots|
    ensures var p := slots[i].placement;
            && p.end == p.start + s.req.durationMinutes * MINUTE
            && CanHost(tz, s, p.start)
            && Clashes(s, Interval(p.start, p.end)) == []
  {
    hide PlacementAt;
    var p := slots[i].placement;
    ValidFacts(tz, inp);
    HostsWhatFits(tz, s, busy, inp);
    assert PlacementsOf(slots)[i] in Offer(tz, inp);
    PlacementIsFree(tz, inp, p);
    assert Fits(tz, inp, p.start);
    NoClash(tz, s, busy, inp, Interval(p.start, p.end));
  }

  lemma NoClash(tz: ZoneTable, s: Situation, busy: map<Id, seq<Interval>>, inp: EngineInput, span: Interval)
    requires Prepared(s, busy, inp) && Valid(tz, inp)
    requires span.start < span.end && forall t :: span.start <= t < span.end ==> Suits(tz, s, t)
    ensures Clashes(s, span) == []
  {
    var found := Clashes(s, span);
    if found != [] {
      assert found[0] in found;
      var k := ClashSeen(tz, s, busy, inp, span, found[0]);
      var t := Later(span.start, found[0].span.start);
      assert HeldElsewhere(s, s.panel[k].id, t);
      assert !Suits(tz, s, t) by {
        assert !PanelistFree(tz, s, s.panel[k], t);
      }
    }
  }

  // ------------------------------------------------- the booking guard on a recommendation

  /** What the booking guard finds for a slot: it asks about the candidate too, whose other
      interviews the scheduler never looked at. */
  function GuardFinds(s: Situation, span: Interval): seq<Commitment> {
    ConfirmedFor(s.commitments, Ids(s.panel) + [s.req.candidateId], s.req.id, span.start, span.end)
  }

  function SpanAt(slots: seq<Slot>, i: nat): Interval
    requires i < |slots|
  {
    Interval(slots[i].placement.start, slots[i].placement.end)
  }

  lemma RecommendedSuits(tz: ZoneTable, s: Situation, slots: seq<Slot>, i: nat)
    requires BestOf(tz, s, slots) && i < |slots|
    ensures var span := SpanAt(slots, i);
            && span.start < span.end && Clashes(s, span) == []
            && forall t :: span.start <= t < span.end ==> Suits(tz, s, t)
  {
    var busy, inp :| Prepared(s, busy, inp) && Valid(tz, inp) && IsResult(tz, inp, slots);
    ValidFacts(tz, inp);
    SlotHostable(tz, s, busy, inp, slots, i);
  }

  /** A recommended slot passes the booking guard exactly when no other interview holds the
      candidate at any instant of it. */
  lemma GuardForSlot(tz: ZoneTable, s: Situation, slots: seq<Slot>, i: nat)
    requires BestOf(tz, s, slots) && i < |slots|
    requires forall c :: c in s.commitments ==> c.span.start < c.span.end
    ensures var span := SpanAt(slots, i);
            GuardFinds(s, span) == [] <==>
              forall t :: span.start <= t < span.end ==> !HeldElsewhere(s, s.req.candidateId, t)
  {
    var span := SpanAt(slots, i);
    RecommendedSuits(tz, s, slots, i);
    var found := GuardFinds(s, span);
    if found != [] {
      var c := found[0];
      assert c in found && c !in Clashes(s, span);
      var t := Later(span.start, c.span.start);
      assert HeldElsewhere(s, s.req.candidateId, t);
    }
    forall t | span.start <= t < span.end && HeldElsewhere(s, s.req.candidateId, t) ensures found != [] {
      HeldIsFound(s, span, t);
    }
  }

  lemma HeldIsFound(s: Situation, span: Interval, t: int)
    requires span.start <= t < span.end && HeldElsewhere(s, s.req.candidateId, t)
    ensures GuardFinds(s, span) != []
  {
  }

  /** If another interview holds the candidate throughout the windows still ahead, the guard refuses
      every slot that is recommended. */
  lemma HeldCandidateRefused(tz: ZoneTable, s: Situation, slots: seq<Slot>, i: nat)
    requires BestOf(tz, s, slots) && i < |slots|
    requires forall t :: Covers(s.avail.windows, t) && t >= s.ref ==> HeldElsewhere(s, s.req.candidateId, t)
    ensures GuardFinds(s, SpanAt(slots, i)) != []
  {
    RecommendedSuits(tz, s, slots, i);
    assert Suits(tz, s, slots[i].placement.start);
    HeldIsFound(s, SpanAt(slots, i), slots[i].placement.start);
  }

  const UTC_ONLY: ZoneTable := map["UTC" := ShiftingZone(0, 0, 0)]

  /** A candidate with a window from noon to two, all of whose day another interview holds. */
  const TAKEN: Situation := Situation(
    RequestRow(3, 2, 60, 0),
    Availability("UTC", [Interval(43_200_000_000, 50_400_000_000)]),
    [Panelist(1, "")], true, map[], [Commitment(2, 7, Interval(0, 86_400_000_000))], 0)

  lemma TakenCanHost()
    ensures CanHost(UTC_ONLY, TAKEN, 43_200_000_000)
  {
    forall t | 43_200_000_000 <= t < 46_800_000_000 ensures Suits(UTC_ONLY, TAKEN, t) {
      assert TAKEN.avail.windows[0].start <= t < TAKEN.avail.windows[0].end;
      assert ClipWindows(TAKEN.avail.windows, 0) == TAKEN.avail.windows;
      assert InWorkday(UTC_ONLY["UTC"], AVAILABILITY_WINDOW, 0, t);
    }
  }

  lemma TakenWellFormed()
    ensures WellFormed(UTC_ONLY, TAKEN, 0) && Connected(TAKEN)
    ensures forall t :: HeldElsewhere(TAKEN, 2, t) <==> 0 <= t < 86_400_000_000
  {
  }

  /** Slots are recommended, and booking refuses every one of them. */
  method RecommendedInVain() returns (o: Outcome)
    ensures o.Recommended? && o.slots != []
    ensures forall i :: 0 <= i < |o.slots| ==> GuardFinds(TAKEN, SpanAt(o.slots, i)) != []
  {
    TakenCanHost();
    TakenWellFormed();
    o := GenerateLocked(UTC_ONLY, TAKEN);
    assert TAKEN.avail.windows[0].end > TAKEN.ref;
    assert !o.NoCommonAvailability? && !o.EngineRefused?;
    forall i | 0 <= i < |o.slots| ensures GuardFinds(TAKEN, SpanAt(o.slots, i)) != [] {
      HeldCandidateRefused(UTC_ONLY, TAKEN, o.slots, i);
    }
  }

  /** What clashes with a stretch inside the windows was fetched, so the engine checked it. */
  lemma ClashSeen(
    tz: ZoneTable, s: Situation, busy: map<Id, seq<Interval>>, inp: EngineInput, span: Interval, c: Commitment)
    returns (k: nat)
    requires Prepared(s, busy, inp) && Valid(tz, inp)
    requires Suits(tz, s, span.start) && Suits(tz, s, span.end - 1)
    requires c in Clashes(s, span)
    ensures c.span.start < c.span.end
    ensures k < |s.panel| && s.panel[k].id == c.user
  {
    ClipKeepsTheFuture(s.avail.windows, s.ref, span.start);
    ClipKeepsTheFuture(s.avail.windows, s.ref, span.end - 1);
    var fetched := Clashes(s, Interval(MinStart(inp.windows), MaxEnd(inp.windows)));
    assert c in fetched && CommittedTo(fetched, c.user, c.span);
    k :| 0 <= k < |s.panel| && Ids(s.panel)[k] == c.user;
    assert !Fails(tz, inp, BadBusy);
    var blocks := inp.participants[k + 1].busy;
    assert c.span in blocks && Proper(blocks);
  }
}
