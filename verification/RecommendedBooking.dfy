/** From a recommendation to a booking: the scheduler and the booking guard ask the same question of
    the same rows, so a recommended slot can be booked unless the candidate is held elsewhere. */
module RecommendedBooking {
  import opened Wrappers
  import opened Intervals
  import opened SchedulingTypes
  import opened EngineSpec
  import B = BookingMachine
  import opened BookingHistories
  import opened SchedulingService
  import opened InterviewSystem

  /** `c` is somebody's share in the CONFIRMED row `e`. */
  predicate ShareOf(db: B.Db, e: B.Event, c: Commitment) {
    && e.confirmed && e.request in db.requests && c.user in B.People(db.requests[e.request])
    && c.request == e.request && c.span == e.slot
  }

  /** The join of CONFIRMED rows with their participants. */
  ghost predicate Reflects(cs: seq<Commitment>, db: B.Db) {
    forall c :: c in cs <==> exists i :: 0 <= i < |db.events| && ShareOf(db, db.events[i], c)
  }

  /** The situation is read from these tables, for request r. */
  ghost predicate About(s: Situation, db: B.Db, r: Id) {
    && r in db.requests && s.req.id == r && s.req.candidateId == db.requests[r].candidate
    && (forall u :: u in Ids(s.panel) <==> u in db.requests[r].panel)
    && Reflects(s.commitments, db)
  }

  lemma ClashIsShared(db: B.Db, people: set<Id>, r: Id, slot: Interval, e: B.Event) returns (c: Commitment)
    requires B.Clashes(db, people, r, slot, e)
    ensures ShareOf(db, e, c) && c.user in people && c.request != r
    ensures c.span.start < slot.end && slot.start < c.span.end
  {
    var u :| u in B.People(db.requests[e.request]) * people;
    c := Commitment(u, e.request, e.slot);
  }

  /** The guard of the booking machine is the query the scheduler uses, for everybody involved. */
  lemma GuardIsQuery(db: B.Db, cs: seq<Commitment>, users: seq<Id>, t: B.Target)
    requires Reflects(cs, db) && B.ValidTarget(db, t) && t.request in db.requests
    requires forall u :: u in users <==> u in B.People(db.requests[t.request])
    ensures var slot := db.runs[t.run].slots[t.slot];
            B.SomeClash(db, t) <==> ConfirmedFor(cs, users, t.request, slot.start, slot.end) != []
  {
    var slot := db.runs[t.run].slots[t.slot];
    var people := B.People(db.requests[t.request]);
    var found := ConfirmedFor(cs, users, t.request, slot.start, slot.end);
    if B.SomeClash(db, t) {
      var i :| 0 <= i < |db.events| && B.Clashes(db, people, t.request, slot, db.events[i]);
      var c := ClashIsShared(db, people, t.request, slot, db.events[i]);
      assert c in cs && c in found;
    }
    if found != [] {
      var c := found[0];
      assert c in found && c in cs;
      var i :| 0 <= i < |db.events| && ShareOf(db, db.events[i], c);
      assert c.user in B.People(db.requests[db.events[i].request]) * people;
      assert B.Clashes(db, people, t.request, slot, db.events[i]);
    }
  }

  function Spans(slots: seq<Slot>): (r: seq<Interval>)
    ensures |r| == |slots| && forall i :: 0 <= i < |slots| ==> r[i] == SpanAt(slots, i)
  {
    seq(|slots|, i requires 0 <= i < |slots| => SpanAt(slots, i))
  }

  /** What an outcome of the scheduler makes of the request: slots, FAILED, or an exception. */
  function GenerationOf(o: Outcome): Generation {
    match o
    case Recommended(slots) => Generated(Spans(slots))
    case AllWindowsExpired => Generated([])
    case NoCommonAvailability => Generated([])
    case _ => Raised
  }

  /** The tables after a generation that found these slots. */
  function Offered(db: B.Db, r: Id, slots: seq<Slot>): B.Db
    requires r in db.requests
  {
    db.(runs := db.runs + [B.RunRow(r, Spans(slots))],
        requests := db.requests[r := db.requests[r].(status := B.Recommended)])
  }

  /** No other interview holds the candidate at any instant of the slot. */
  ghost predicate CandidateFree(s: Situation, span: Interval) {
    forall t :: span.start <= t < span.end ==> !HeldElsewhere(s, s.req.candidateId, t)
  }

  lemma OfferedClash(db: B.Db, r: Id, slots: seq<Slot>, i: nat)
    requires r in db.requests && i < |slots|
    ensures var t := B.Target(r, |db.runs|, i);
            && B.ValidTarget(Offered(db, r, slots), t) && OnOffer(Offered(db, r, slots), t)
            && Offered(db, r, slots).runs[t.run].slots[t.slot] == SpanAt(slots, i)
            && (B.ConfirmedEvent(Offered(db, r, slots), r) == B.ConfirmedEvent(db, r))
  {
  }

  lemma SharesUnmoved(cs: seq<Commitment>, db: B.Db, r: Id, slots: seq<Slot>)
    requires r in db.requests && Reflects(cs, db)
    ensures Reflects(cs, Offered(db, r, slots))
  {
  }

  /** A slot that has just been recommended is bookable exactly when the request has no CONFIRMED
      event and no other interview holds the candidate meanwhile. */
  lemma RecommendedIsBookable(tz: ZoneTable, s: Situation, db: B.Db, r: Id, slots: seq<Slot>, i: nat)
    requires About(s, db, r) && BestOf(tz, s, slots) && i < |slots|
    requires forall c :: c in s.commitments ==> c.span.start < c.span.end
    ensures Bookable(Offered(db, r, slots), B.Target(r, |db.runs|, i)) <==>
            B.ConfirmedEvent(db, r).None? && CandidateFree(s, SpanAt(slots, i))
  {
    var db' := Offered(db, r, slots);
    OfferedClash(db, r, slots, i);
    SharesUnmoved(s.commitments, db, r, slots);
    GuardForSlot(tz, s, slots, i);
    GuardIsQuery(db', s.commitments, Ids(s.panel) + [s.req.candidateId], B.Target(r, |db.runs|, i));
  }

  /** A whole call of `generate`: a READY request is judged and the result committed; for any other
      nothing changes, a RECOMMENDED one keeping the run it has. */
  method Recommend(service: Service, tz: ZoneTable, s: Situation) returns (o: Option<Outcome>)
    requires service.Valid()
    modifies service
    ensures service.Valid() && service.events == old(service.events)
    ensures o.None? <==> !B.HasStatus(old(service.Tables()), s.req.id, B.Ready)
    ensures o.None? ==> service.Tables() == old(service.Tables())
    ensures o.Some? && o.value.Recommended? ==>
              && o.value.slots != [] && BestOf(tz, s, o.value.slots)
              && service.Tables() == Offered(old(service.Tables()), s.req.id, o.value.slots)
    ensures o.Some? && o.value.Recommended? ==>
              && |service.runs| == |old(service.runs)| + 1
              && var run := service.runs[|old(service.runs)|];
                 && run.request == s.req.id && |run.slots| == |o.value.slots|
                 && forall i :: 0 <= i < |run.slots| ==>
                      && run.slots[i].start == o.value.slots[i].placement.start
                      && run.slots[i].end == run.slots[i].start + s.req.durationMinutes * 60_000_000
    ensures o.Some? && (o.value.AllWindowsExpired? || o.value.NoCommonAvailability?) ==>
              B.HasStatus(service.Tables(), s.req.id, B.Failed) && service.runs == old(service.runs)
    ensures o.Some? && (o.value.NotReady? || o.value.CalendarNotConnected? || o.value.EngineRefused?) ==>
              service.Tables() == old(service.Tables())
  {
    if s.req.id !in service.requests || service.requests[s.req.id].status != B.Ready {
      service.Generate(s.req.id, Raised);
      return None;
    }
    var judged := GenerateLocked(tz, s);
    service.Generate(s.req.id, GenerationOf(judged));
    o := Some(judged);
  }

  /** From recommendation to booking: with lock, calendar and database cooperating, the i-th slot is
      booked exactly when the candidate is free of other interviews and the request of its own. */
  method RecommendAndBook(service: Service, tz: ZoneTable, s: Situation, i: nat, env: BookEnv)
    returns (o: Option<Outcome>, out: BookOutcome)
    requires service.Valid()
    requires About(s, service.Tables(), s.req.id) && forall c :: c in s.commitments ==> c.span.start < c.span.end
    modifies service
    ensures service.Valid()
    ensures o.Some? && o.value.Recommended? && i < |o.value.slots| ==>
              (out.BookedEvent? <==>
                && env.lockFree && env.create != Unavailable && env.persists
                && B.ConfirmedEvent(old(service.Tables()), s.req.id).None?
                && CandidateFree(s, SpanAt(o.value.slots, i)))
    ensures o.Some? && o.value.Recommended? && i < |o.value.slots| && out.BookedEvent? ==>
              && out.row.request == s.req.id && out.row.confirmed
              && out.row.slot.start == o.value.slots[i].placement.start
              && out.row.slot.end == out.row.slot.start + s.req.durationMinutes * 60_000_000
  {
    hide InCall, B.Run, Bookable, CandidateFree, BestOf, B.ConfirmedAmong;
    ghost var before := service.Tables();
    o := Recommend(service, tz, s);
    var run := if |service.runs| > 0 then |service.runs| - 1 else 0;
    if o.Some? && o.value.Recommended? && i < |o.value.slots| {
      RecommendedIsBookable(tz, s, before, s.req.id, o.value.slots, i);
    }
    out := service.Book(B.Target(s.req.id, run, i), env);
  }
}
