/** The services as the source writes them: calls that run one after the other and update tables
    in place. Every call is shown to be a stretch of a serial run of the booking machine, so
    everything proved of serial runs holds of the tables after any sequence of calls. */
module InterviewSystem {
  import opened Wrappers
  import opened Intervals
  import opened BookingMachine
  import opened BookingSafety
  import opened BookingConservation
  import opened BookingHistories
  import opened BookingHosts

  /** What the outside world does to one call of `book`. */
  datatype CalendarCreate = Created | Simulated | Unavailable

  datatype BookEnv = BookEnv(lockFree: bool, create: CalendarCreate, persists: bool, deletes: bool, records: bool)

  /** How a generation ends: with the engine's slots, perhaps none, or in an exception, be it a
      calendar that is not connected, an input the engine refuses or a commit that fails. */
  datatype Generation = Generated(slots: seq<Interval>) | Raised

  /** The same for a lifecycle call and the recommendation that may follow it. */
  datatype LifeEnv = LifeEnv(lockFree: bool, deletes: bool, commits: bool, retriggers: bool, generation: Generation)

  datatype BookOutcome =
    | SlotNotFound | SlotNoLongerAvailable | CalendarFailed | PersistenceFailed | BookedEvent(row: Event)

  datatype LifeOutcome = Refused | RolledBack | Done(status: Status)

  /** Where a generation leaves a READY request, and the runs. */
  function StatusWith(g: Generation): Status {
    match g
    case Raised => Ready
    case Generated(slots) => if slots != [] then Recommended else Failed
  }

  function WithRun(runs: seq<RunRow>, r: Id, g: Generation): seq<RunRow> {
    if g.Generated? && g.slots != [] then runs + [RunRow(r, g.slots)] else runs
  }

  /** The same after a lifecycle call that moved the request to `s`. */
  function StatusAfter(s: Status, env: LifeEnv): Status {
    if s == Rescheduling && env.retriggers then StatusWith(env.generation) else s
  }

  function RunsAfter(runs: seq<RunRow>, r: Id, s: Status, env: LifeEnv): seq<RunRow> {
    if s == Rescheduling && env.retriggers then WithRun(runs, r, env.generation) else runs
  }

  lemma {:induction false} SerialAppend(w: World, h: seq<Action>, pid: Id, m: Move)
    requires SerialRun(w, h) && Alone(Run(w, h), pid)
    ensures SerialRun(w, h + [Action(pid, m)])
    ensures Run(w, h + [Action(pid, m)]) == Step(Run(w, h), pid, m)
    decreases |h|
  {
    var a := Action(pid, m);
    if h == [] {
      assert [] + [a] == [a];
      assert Run(w, [a]) == Run(Step(w, pid, m), []);
      assert SerialRun(Step(w, pid, m), []);
    } else {
      assert (h + [a])[1..] == h[1..] + [a];
      SerialAppend(Step(w, h[0].pid, h[0].move), h[1..], pid, m);
    }
  }

  /** Everything `book` checks: the slot exists and is on offer, the request has no CONFIRMED row,
      and nobody involved is CONFIRMED elsewhere at that time. */
  ghost predicate Bookable(db: Db, t: Target) {
    ValidTarget(db, t) && OnOffer(db, t) && ConfirmedEvent(db, t.request).None? && !SomeClash(db, t)
  }

  /** The same, written out. */
  lemma BookableRead(db: Db, t: Target)
    ensures Bookable(db, t) <==>
              && t.run < |db.runs| && db.runs[t.run].request == t.request && t.slot < |db.runs[t.run].slots|
              && (forall k :: t.run < k < |db.runs| ==> db.runs[k].request != t.request)
              && t.request in db.requests && db.requests[t.request].status == Recommended
              && (forall i :: 0 <= i < |db.events| && db.events[i].confirmed ==> db.events[i].request != t.request)
              && (forall i, u: Id | 0 <= i < |db.events| ::
                    db.events[i].confirmed && TakesPart(db, db.events[i].request, u) && TakesPart(db, t.request, u)
                    ==> Apart(db.events[i].slot, db.runs[t.run].slots[t.slot]))
  {
    if t.request in db.requests && ValidTarget(db, t) && OnOffer(db, t) {
      GuardRead(db, t);
    }
  }

  /** One ends before the other begins, or as it begins. */
  predicate Apart(a: Interval, b: Interval) {
    a.end <= b.start || b.end <= a.start
  }

  /** As the candidate or on the panel. */
  predicate TakesPart(db: Db, r: Id, u: Id) {
    r in db.requests && (u == db.requests[r].candidate || u in db.requests[r].panel)
  }

  lemma GuardRead(db: Db, t: Target)
    requires t.request in db.requests && ValidTarget(db, t)
    ensures !SomeClash(db, t) <==>
              forall i, u: Id | 0 <= i < |db.events| ::
                db.events[i].confirmed && db.events[i].request != t.request
                && TakesPart(db, db.events[i].request, u) && TakesPart(db, t.request, u)
                ==> Apart(db.events[i].slot, db.runs[t.run].slots[t.slot])
  {
    forall i | 0 <= i < |db.events|
      ensures Clashes(db, People(db.requests[t.request]), t.request, db.runs[t.run].slots[t.slot], db.events[i]) <==>
                && db.events[i].confirmed && db.events[i].request != t.request
                && (exists u :: TakesPart(db, db.events[i].request, u) && TakesPart(db, t.request, u))
                && !Apart(db.events[i].slot, db.runs[t.run].slots[t.slot])
    {
      ClashRead(db, t, db.events[i]);
    }
    if SomeClash(db, t) {
      var i :| 0 <= i < |db.events|
               && Clashes(db, People(db.requests[t.request]), t.request, db.runs[t.run].slots[t.slot], db.events[i]);
      var u :| TakesPart(db, db.events[i].request, u) && TakesPart(db, t.request, u);
      assert !Apart(db.events[i].slot, db.runs[t.run].slots[t.slot]);
    }
  }

  lemma ClashRead(db: Db, t: Target, e: Event)
    requires t.request in db.requests && ValidTarget(db, t)
    ensures Clashes(db, People(db.requests[t.request]), t.request, db.runs[t.run].slots[t.slot], e) <==>
              && e.confirmed && e.request != t.request
              && (exists u :: TakesPart(db, e.request, u) && TakesPart(db, t.request, u))
              && !Apart(e.slot, db.runs[t.run].slots[t.slot])
  {
    if e.request in db.requests {
      var shared := People(db.requests[e.request]) * People(db.requests[t.request]);
      assert forall u :: u in shared <==> TakesPart(db, e.request, u) && TakesPart(db, t.request, u);
      if shared != {} {
        var u :| u in shared;
      }
    }
  }

  /** In every serial history, nobody is in two CONFIRMED interviews at one instant. */
  lemma NobodyTwice(actions: seq<Action>, i: nat, j: nat, u: Id, t: int)
    requires SerialRun(Init(), actions)
    requires var db := Run(Init(), actions).db;
             && i < j < |db.events| && db.events[i].confirmed && db.events[j].confirmed
             && db.events[i].slot.start <= t < db.events[i].slot.end
             && TakesPart(db, db.events[i].request, u) && TakesPart(db, db.events[j].request, u)
    ensures var db := Run(Init(), actions).db; !(db.events[j].slot.start <= t < db.events[j].slot.end)
  {
    var db := Run(Init(), actions).db;
    SerialHistorySafe(actions);
    RunKeepsSound(Init(), actions);
    assert !Collide(db, db.events[i], db.events[j]);
    assert u in People(db.requests[db.events[i].request]) * People(db.requests[db.events[j].request]);
  }

  /** A call in progress: a serial history in which process 0 has come to `p`. */
  ghost predicate InCall(h: seq<Action>, p: Proc) {
    && SerialRun(Init(), h)
    && Alone(Run(Init(), h), 0)
    && ProcOf(Run(Init(), h), 0) == p
  }

  /** One more move of the caller. */
  lemma Advance(h: seq<Action>, p: Proc, m: Move) returns (longer: seq<Action>)
    requires InCall(h, p)
    ensures ProcOf(Run(Init(), h), 0) == p
    ensures Run(Init(), longer) == Step(Run(Init(), h), 0, m)
    ensures InCall(longer, ProcOf(Run(Init(), longer), 0))
  {
    longer := h + [Action(0, m)];
    SerialAppend(Init(), h, 0, m);
    OthersUntouched(Run(Init(), h), 0, m);
  }

  /** What every serial history keeps. */
  lemma InCallFacts(h: seq<Action>, p: Proc)
    requires InCall(h, p)
    ensures var w := Run(Init(), h); Sound(w) && Orderly(w) && HostsKnown(w)
  {
    RunKeepsSound(Init(), h);
    RunKeepsOrderly(Init(), h);
    SerialIsSettled(Init(), h);
    SettledHostsKnown(Init(), h);
  }

  /** Cancelling the request's CONFIRMED row, if it has one, leaves it without. */
  lemma CancelRowWithdraws(h: seq<Action>, r: Id)
    ensures var db := Run(Init(), h).db;
            RowsWithdrawn(db.events, CancelRow(db, ConfirmedEvent(db, r), true).events, r, true)
  {
    RunKeepsSound(Init(), h);
  }

  /** Request r lost its CONFIRMED row if `lost`; every other row is as it was. */
  ghost predicate RowsWithdrawn(a: seq<Event>, b: seq<Event>, r: Id, lost: bool) {
    && |b| == |a|
    && forall i :: 0 <= i < |a| ==>
         b[i] == if lost && a[i].request == r then a[i].(confirmed := false) else a[i]
  }

  lemma StepOfCommit(w: World, p: Proc, m: Move)
    requires p.LifeDeleted? && ProcOf(w, 0) == p && !m.Start?
    ensures Step(w, 0, m) == LifeCommit(w, 0, p, m)
  {
  }

  /** The calendar without the event of this id, wherever it is. */
  ghost function WithoutId(calendar: set<Hosted>, c: Id): set<Hosted> {
    set e | e in calendar && e.id != c
  }

  class Service {
    var requests: map<Id, Request>
    var runs: seq<RunRow>
    var events: seq<Event>
    var openTasks: set<Id>
    var calendar: set<Hosted>
    var nextCalendarId: Id
    var lastResortLog: set<Id>
    ghost var history: seq<Action>

    ghost function Tables(): Db
      reads this
    {
      Db(requests, runs, events, openTasks)
    }

    ghost predicate Shows(w: World)
      reads this
    {
      && w.db == Tables() && w.calendar == calendar && w.nextCalendarId == nextCalendarId
      && w.lastResortLog == lastResortLog
    }

    /** The tables are those the history leads to, and the call in progress has come to `p`. */
    ghost predicate At(p: Proc)
      reads this
    {
      InCall(history, p) && Shows(Run(Init(), history))
    }

    /** Between calls. */
    ghost predicate Valid()
      reads this
    {
      At(Idle)
    }

    constructor ()
      ensures Valid() && requests == map[] && events == [] && calendar == {}
    {
      requests, runs, events, openTasks := map[], [], [], {};
      calendar, nextCalendarId, lastResortLog := {}, 0, {};
      history := [];
    }

    /** Every whole-history theorem, about the tables of a service after any calls. */
    lemma ValidMeansSafe()
      requires Valid()
      ensures NoDoubleBooking(Tables()) && RunsBookedOnce(Tables())
      ensures OneConfirmedEach(Tables()) && BookedIsBacked(Tables())
      ensures forall e :: e in calendar ==>
                || e.id in openTasks || e.id in lastResortLog
                || exists i :: 0 <= i < |events| && events[i].confirmed && events[i].calendarId == Some(e.id)
    {
      SerialHistorySafe(history);
      RunKeepsSound(Init(), history);
      forall e | e in calendar
        ensures || e.id in openTasks || e.id in lastResortLog
                || exists i :: 0 <= i < |events| && events[i].confirmed && events[i].calendarId == Some(e.id)
      {
        SerialNoOrphan(history, e);
      }
    }

    /** Books a recommended slot. Success is exactly one new CONFIRMED row; any failure leaves
        requests, runs and rows alone, and a calendar event it could not undo is recorded. */
    method Book(t: Target, env: BookEnv) returns (out: BookOutcome)
      requires Valid()
      modifies this
      ensures Valid() && runs == old(runs)
      ensures out.BookedEvent? <==>
                env.lockFree && Bookable(old(Tables()), t) && env.create != Unavailable && env.persists
      ensures out.SlotNotFound? <==> !ValidTarget(old(Tables()), t)
      ensures out.SlotNoLongerAvailable? <==> !out.SlotNotFound? && !(env.lockFree && Bookable(old(Tables()), t))
      ensures out.CalendarFailed? <==>
                env.lockFree && Bookable(old(Tables()), t) && env.create == Unavailable
      ensures out.BookedEvent? ==>
                && events == old(events) + [out.row]
                && out.row == Event(t.request, t.run, runs[t.run].slots[t.slot], out.row.calendarId, true)
                && requests == old(requests)[t.request := old(requests)[t.request].(status := Booked)]
      ensures !out.BookedEvent? ==>
                && requests == old(requests) && events == old(events)
                && (forall e :: e in calendar && e !in old(calendar) ==> e.id in openTasks || e.id in lastResortLog)
      ensures old(calendar) <= calendar
      ensures out.BookedEvent? ==>
                && out.row.calendarId == (if env.create == Created then Some(old(nextCalendarId)) else None)
                && calendar == old(calendar) + (if env.create == Created
                                                then {HostedFor(old(Tables()), t, old(nextCalendarId))} else {})
    {
      hide InCall, Run;
      var refusal := Admit(t, env.lockFree);
      if refusal.Some? {
        return refusal.value;
      }
      var held := CreateCalendarEvent(t, env);
      if env.create == Unavailable {
        return CalendarFailed;
      }
      out := Persist(t, held, env);
    }

    /** Where a booking's event is created: on the calendar of the panel's organiser. */
    static ghost function HostedFor(db: Db, t: Target, id: Id): Hosted {
      var host := if t.request in db.requests then Organiser(db.requests[t.request].panel) else None;
      Hosted(id, if host.Some? then host.value else 0)
    }

    /** Everything before the calendar is touched. */
    method Admit(t: Target, lockFree: bool) returns (refusal: Option<BookOutcome>)
      requires Valid()
      modifies this`history
      ensures refusal.None? <==> lockFree && Bookable(Tables(), t)
      ensures refusal.Some? ==>
                refusal.value == if ValidTarget(Tables(), t) then SlotNoLongerAvailable else SlotNotFound
      ensures At(if refusal.None? then BookCleared(t, Organiser(requests[t.request].panel)) else Idle)
    {
      hide InCall, Run;
      refusal := LookUpSlot(t);
      if refusal.None? {
        var clear := CheckUnderLock(t, lockFree);
        if !clear {
          refusal := Some(SlotNoLongerAvailable);
        }
      }
    }

    /** The checks before the lock. */
    method LookUpSlot(t: Target) returns (refusal: Option<BookOutcome>)
      requires Valid()
      modifies this`history
      ensures refusal.None? <==> ValidTarget(Tables(), t) && OnOffer(Tables(), t)
      ensures refusal.Some? ==>
                refusal.value == if ValidTarget(Tables(), t) then SlotNoLongerAvailable else SlotNotFound
      ensures At(if refusal.None? then BookWaiting(t) else Idle)
    {
      hide InCall, Run;
      hide BookStep, LifeStep, PlainStep;
      history := Advance(history, Idle, Start(Call.Book(t)));
      if t.run >= |runs| || runs[t.run].request != t.request || t.slot >= |runs[t.run].slots| {
        return Some(SlotNotFound);
      }
      if LatestRun(Db(requests, runs, events, openTasks), t.request) != Some(t.run) {
        return Some(SlotNoLongerAvailable);
      }
      if t.request !in requests || requests[t.request].status != Recommended {
        return Some(SlotNoLongerAvailable);
      }
      return None;
    }

    /** Steps 1 to 3: the lock, the re-validation under it, and the clash guard. */
    method CheckUnderLock(t: Target, lockFree: bool) returns (clear: bool)
      requires At(BookWaiting(t)) && ValidTarget(Tables(), t) && OnOffer(Tables(), t)
      modifies this`history
      ensures clear <==> lockFree && Bookable(Tables(), t)
      ensures At(if clear then BookCleared(t, Organiser(requests[t.request].panel)) else Idle)
    {
      hide InCall, Run;
      hide StartCall, LifeStep, PlainStep, BookCreate, BookPersist;
      history := Advance(history, BookWaiting(t), if lockFree then Go else Fail);
      if !lockFree {
        return false;
      }
      if ConfirmedEvent(Db(requests, runs, events, openTasks), t.request).Some? {
        return false;
      }
      history := Advance(history, BookValidated(t), Go);
      return !SomeClash(Db(requests, runs, events, openTasks), t);
    }

    lemma NextIdUnused(p: Proc)
      requires At(p)
      ensures forall e :: e in calendar ==> e.id < nextCalendarId
    {
      RunKeepsSound(Init(), history);
    }

    /** Every request has a panelist to host its event. */
    lemma SomebodyHosts(p: Proc)
      requires At(p)
      ensures forall r :: r in requests ==> Organiser(requests[r].panel).Some?
    {
      RunKeepsOrderly(Init(), history);
    }

    /** Step 4: the calendar event, outside any database transaction. */
    method CreateCalendarEvent(t: Target, env: BookEnv) returns (held: Option<Hosted>)
      requires t.request in requests && At(BookCleared(t, Organiser(requests[t.request].panel)))
      modifies this`calendar, this`nextCalendarId, this`history
      ensures At(if env.create == Unavailable then Idle else BookHolding(t, held))
      ensures held == if env.create == Created then Some(HostedFor(Tables(), t, old(nextCalendarId))) else None
      ensures held.Some? ==> held.value !in old(calendar)
      ensures calendar == (if held.Some? then old(calendar) + {held.value} else old(calendar))
    {
      var host := Organiser(requests[t.request].panel);
      NextIdUnused(BookCleared(t, host));
      SomebodyHosts(BookCleared(t, host));
      hide InCall, Run;
      hide StartCall, LifeStep, PlainStep, BookValidate, BookClear, BookPersist;
      history := Advance(history, BookCleared(t, host),
        match env.create case Created => Go case Simulated => Simulate case Unavailable => Fail);
      held := None;
      if env.create == Created {
        held := Some(Hosted(nextCalendarId, host.value));
        calendar := calendar + {held.value};
        nextCalendarId := nextCalendarId + 1;
      }
    }

    /** Steps 6 and 7: the database transaction, or its rollback and the compensation. */
    method Persist(t: Target, held: Option<Hosted>, env: BookEnv) returns (out: BookOutcome)
      requires At(BookHolding(t, held)) && Bookable(Tables(), t)
      modifies this
      ensures Valid() && runs == old(runs)
      ensures out == (if env.persists
                      then BookedEvent(Event(t.request, t.run, old(runs)[t.run].slots[t.slot], IdOf(held), true))
                      else PersistenceFailed)
      ensures env.persists ==>
                && events == old(events) + [out.row]
                && requests == old(requests)[t.request := old(requests)[t.request].(status := Booked)]
                && calendar == old(calendar)
      ensures !env.persists ==>
                && requests == old(requests) && events == old(events)
                && calendar == (if held.Some? && env.deletes then old(calendar) - {held.value} else old(calendar))
                && (forall e :: e in calendar && held == Some(e) ==> e.id in openTasks || e.id in lastResortLog)
    {
      hide InCall, Run;
      hide StartCall, LifeStep, PlainStep, BookValidate, BookClear, BookCreate;
      history := Advance(history, BookHolding(t, held), if env.persists then Go else Fail);
      if env.persists {
        out := BookedEvent(Event(t.request, t.run, runs[t.run].slots[t.slot], IdOf(held), true));
        events := events + [out.row];
        requests := requests[t.request := requests[t.request].(status := Booked)];
      } else {
        if held.Some? {
          UndoCalendarEvent(held.value, env);
        }
        out := PersistenceFailed;
      }
    }

    /** The compensating delete, and what is done when it fails too. */
    method UndoCalendarEvent(e: Hosted, env: BookEnv)
      requires At(BookCompensating(e))
      modifies this`calendar, this`openTasks, this`lastResortLog, this`history
      ensures Valid()
      ensures calendar == if env.deletes then old(calendar) - {e} else old(calendar)
      ensures openTasks == if !env.deletes && env.records then old(openTasks) + {e.id} else old(openTasks)
      ensures lastResortLog == if !env.deletes && !env.records then old(lastResortLog) + {e.id} else old(lastResortLog)
    {
      hide InCall, Run;
      hide StartCall, LifeStep, PlainStep;
      history := Advance(history, BookCompensating(e), if env.deletes then Go else Fail);
      if env.deletes {
        calendar := calendar - {e};
      } else {
        history := Advance(history, BookUndeleted(e), if env.records then Go else Fail);
        if env.records {
          openTasks := openTasks + {e.id};
        } else {
          lastResortLog := lastResortLog + {e.id};
        }
      }
    }

    // ------------------------------------------------------------------- lifecycle

    /** A panelist declines. A booked interview is cancelled and rescheduled; any other request,
        finished ones included, becomes READY. */
    method Decline(r: Id, actor: Id, env: LifeEnv) returns (out: LifeOutcome)
      requires Valid()
      modifies this
      ensures Valid()
      ensures out.Refused? <==> old(r !in requests || actor !in requests[r].panel) || !env.lockFree
      ensures out.Done? ==> out.status == if old(requests[r].status) == Booked then Rescheduling else Ready
      ensures out.Done? ==> Withdrawn(old(Tables()), Tables(), r, old(requests[r].status) == Booked, out.status, env)
      ensures out.Done? && old(requests[r].status) == Booked ==> Followed(old(runs), Tables(), r, env)
      ensures out.Done? && old(requests[r].status) != Booked ==> HasStatus(Tables(), r, Ready) && runs == old(runs)
      ensures !out.Refused? ==>
                EventSettled(old(Tables()), old(calendar), Tables(), calendar,
                             if old(requests[r].status) == Booked then ConfirmedEvent(old(Tables()), r) else None, env)
      ensures !out.Done? ==> Tables() == old(Tables())
    {
      hide InCall, Run;
      hide BookStep, LifeStep, PlainStep;
      history := Advance(history, Idle, Start(Lifecycle(Kind.Decline, r, actor)));
      if r !in requests || actor !in requests[r].panel {
        return Refused;
      }
      var loaded := requests[r].status;
      out := Locked(Kind.Decline, r, loaded, env);
    }

    /** Only a booked interview can be rescheduled. */
    method Reschedule(r: Id, actor: Id, env: LifeEnv) returns (out: LifeOutcome)
      requires Valid()
      modifies this
      ensures Valid()
      ensures out.Refused? <==> !HasStatus(old(Tables()), r, Booked) || !env.lockFree
      ensures !out.Refused? ==>
                EventSettled(old(Tables()), old(calendar), Tables(), calendar, ConfirmedEvent(old(Tables()), r), env)
      ensures out.Done? ==> out.status == Rescheduling && Withdrawn(old(Tables()), Tables(), r, true, Rescheduling, env)
      ensures out.Done? ==> Followed(old(runs), Tables(), r, env)
      ensures !out.Done? ==> Tables() == old(Tables())
    {
      hide InCall, Run;
      hide BookStep, LifeStep, PlainStep;
      history := Advance(history, Idle, Start(Lifecycle(Kind.Reschedule, r, actor)));
      if r !in requests || requests[r].status != Booked {
        return Refused;
      }
      out := Locked(Kind.Reschedule, r, Booked, env);
    }

    /** Anything not yet finished can be cancelled. */
    method Cancel(r: Id, actor: Id, env: LifeEnv) returns (out: LifeOutcome)
      requires Valid()
      modifies this
      ensures Valid()
      ensures out.Refused? <==> old(r !in requests || requests[r].status in {Cancelled, Completed}) || !env.lockFree
      ensures !out.Refused? ==>
                EventSettled(old(Tables()), old(calendar), Tables(), calendar, ConfirmedEvent(old(Tables()), r), env)
      ensures out.Done? ==> out.status == Cancelled && Withdrawn(old(Tables()), Tables(), r, true, Cancelled, env)
      ensures out.Done? ==> HasStatus(Tables(), r, Cancelled) && runs == old(runs)
      ensures !out.Done? ==> Tables() == old(Tables())
    {
      hide InCall, Run;
      hide BookStep, LifeStep, PlainStep;
      history := Advance(history, Idle, Start(Lifecycle(Kind.Cancel, r, actor)));
      if r !in requests || requests[r].status in TERMINAL {
        return Refused;
      }
      var loaded := requests[r].status;
      out := Locked(Kind.Cancel, r, loaded, env);
    }

    /** The cancelled row's calendar event, if it has one: gone, or else covered by a task once the
        cancellation has committed. */
    static ghost predicate EventSettled(
      a: Db, calendar: set<Hosted>, b: Db, calendar': set<Hosted>, event: Option<nat>, env: LifeEnv)
    {
      var c := if event.Some? && event.value < |a.events| then a.events[event.value].calendarId else None;
      && calendar' == (if env.deletes && c.Some? then WithoutId(calendar, c.value) else calendar)
      && b.openTasks == (if env.commits && !env.deletes && c.Some? then a.openTasks + {c.value} else a.openTasks)
    }

    /** Request r lost its CONFIRMED row if `lost` and went to status `s`, then on to whatever the
        recommendation that follows made of it; every other row and request is untouched. */
    static ghost predicate Withdrawn(a: Db, b: Db, r: Id, lost: bool, s: Status, env: LifeEnv) {
      && RowsWithdrawn(a.events, b.events, r, lost)
      && r in a.requests && b.requests == a.requests[r := a.requests[r].(status := StatusAfter(s, env))]
      && b.runs == RunsAfter(a.runs, r, s, env)
    }

    /** How the recommendation that follows a withdrawn booking leaves the request and the runs: not
        begun, it stays RESCHEDULING; raised, READY; without slots, FAILED; with slots, RECOMMENDED. */
    static ghost predicate Followed(runs: seq<RunRow>, db: Db, r: Id, env: LifeEnv) {
      if !env.retriggers then HasStatus(db, r, Rescheduling) && db.runs == runs
      else if env.generation.Raised? then HasStatus(db, r, Ready) && db.runs == runs
      else if env.generation.slots == [] then HasStatus(db, r, Failed) && db.runs == runs
      else HasStatus(db, r, Recommended) && db.runs == runs + [RunRow(r, env.generation.slots)]
    }

    /** Which row a call of this kind withdraws. */
    static function ToWithdraw(db: Db, kind: Kind, r: Id, loaded: Status): Option<nat> {
      if kind.Decline? && loaded != Booked then None else ConfirmedEvent(db, r)
    }

    /** What the three calls do under the lock, and after it. */
    method Locked(kind: Kind, r: Id, loaded: Status, env: LifeEnv) returns (out: LifeOutcome)
      requires HasStatus(Tables(), r, loaded) && At(LifeLoaded(kind, r, loaded, Organiser(requests[r].panel)))
      requires (kind.Reschedule? ==> loaded == Booked) && (kind.Cancel? ==> loaded !in TERMINAL)
      modifies this
      ensures Valid()
      ensures out == if !env.lockFree then Refused
                     else if env.commits then Done(NewStatus(kind, loaded)) else RolledBack
      ensures out.Done? ==>
                Withdrawn(old(Tables()), Tables(), r, !(kind.Decline? && loaded != Booked),
                          NewStatus(kind, loaded), env)
      ensures !out.Refused? ==>
                EventSettled(old(Tables()), old(calendar), Tables(), calendar,
                             ToWithdraw(old(Tables()), kind, r, loaded), env)
      ensures !out.Done? ==> Tables() == old(Tables())
    {
      hide InCall, Run;
      hide StartCall, BookStep, PlainStep, LifeDelete, LifeCommit, ConfirmedAmong;
      var host := Organiser(requests[r].panel);
      history := Advance(history, LifeLoaded(kind, r, loaded, host), if env.lockFree then Go else Fail);
      if !env.lockFree {
        return Refused;
      }
      out := Withdraw(kind, r, loaded, env);
    }

    /** The calendar event, one transaction, and for a withdrawn booking a new recommendation. */
    method Withdraw(kind: Kind, r: Id, loaded: Status, env: LifeEnv) returns (out: LifeOutcome)
      requires HasStatus(Tables(), r, loaded)
      requires At(LifeFetched(kind, r, loaded, Organiser(requests[r].panel), ToWithdraw(Tables(), kind, r, loaded)))
      modifies this
      ensures Valid()
      ensures out == if env.commits then Done(NewStatus(kind, loaded)) else RolledBack
      ensures out.Done? ==>
                Withdrawn(old(Tables()), Tables(), r, !(kind.Decline? && loaded != Booked),
                          NewStatus(kind, loaded), env)
      ensures EventSettled(old(Tables()), old(calendar), Tables(), calendar,
                           ToWithdraw(old(Tables()), kind, r, loaded), env)
      ensures !out.Done? ==> Tables() == old(Tables())
    {
      hide InCall, Run, Step, ConfirmedAmong;
      var event := ToWithdraw(Db(requests, runs, events, openTasks), kind, r, loaded);
      var deleted := DeleteCalendarEvent(kind, r, loaded, event, env.deletes);
      CommitCancellation(kind, r, loaded, Organiser(requests[r].panel), event, deleted, env.commits);
      if !env.commits {
        return RolledBack;
      }
      if NewStatus(kind, loaded) == Rescheduling {
        Retrigger(r, env);
      }
      out := Done(NewStatus(kind, loaded));
    }

    /** The row's event is on the calendar of the organiser the call addresses. */
    lemma EventIsThere(p: Proc)
      requires At(p) && p.LifeFetched?
      ensures forall e :: e in calendar && CalendarIdOf(Tables(), p.event) == Some(e.id) ==> p.host == Some(e.host)
    {
      InCallFacts(history, p);
      KnownIsAddressed(Run(Init(), history), 0, Go);
    }

    /** The delete goes to the organiser's calendar, and the event is there. */
    method DeleteCalendarEvent(kind: Kind, r: Id, loaded: Status, event: Option<nat>, deletes: bool)
      returns (deleted: bool)
      requires r in requests && At(LifeFetched(kind, r, loaded, Organiser(requests[r].panel), event))
      modifies this`calendar, this`history
      ensures At(LifeDeleted(kind, r, loaded, Organiser(requests[r].panel), event, deleted))
      ensures deleted <==> deletes || CalendarIdOf(Tables(), event).None?
      ensures calendar == if deletes && CalendarIdOf(Tables(), event).Some?
                          then WithoutId(old(calendar), CalendarIdOf(Tables(), event).value) else old(calendar)
    {
      var host := Organiser(requests[r].panel);
      SomebodyHosts(LifeFetched(kind, r, loaded, host, event));
      EventIsThere(LifeFetched(kind, r, loaded, host, event));
      hide InCall, Run;
      hide StartCall, BookStep, PlainStep, LifeFetch, LifeCommit;
      history := Advance(history, LifeFetched(kind, r, loaded, host, event), if deletes then Go else Fail);
      var calendarId := CalendarIdOf(Db(requests, runs, events, openTasks), event);
      deleted := deletes || calendarId.None?;
      if deleted && calendarId.Some? {
        calendar := calendar - {Hosted(calendarId.value, host.value)};
      }
    }

    /** One transaction: the row, a task if the delete failed, and the new status. */
    method CommitCancellation(
      kind: Kind, r: Id, loaded: Status, host: Option<Id>, event: Option<nat>, deleted: bool, commits: bool)
      requires At(LifeDeleted(kind, r, loaded, host, event, deleted)) && HasStatus(Tables(), r, loaded)
      requires event == ToWithdraw(Tables(), kind, r, loaded)
      modifies this`requests, this`events, this`openTasks, this`history
      ensures At(if commits && NewStatus(kind, loaded) == Rescheduling then Retriggering(r) else Idle)
      ensures !commits ==> requests == old(requests) && events == old(events) && openTasks == old(openTasks)
      ensures commits ==>
                && RowsWithdrawn(old(events), events, r, !(kind.Decline? && loaded != Booked))
                && openTasks == (if !deleted && CalendarIdOf(old(Tables()), event).Some?
                                 then old(openTasks) + {CalendarIdOf(old(Tables()), event).value} else old(openTasks))
                && requests == old(requests)[r := old(requests)[r].(status := NewStatus(kind, loaded))]
    {
      hide InCall, Run, Step, ConfirmedAmong;
      var p, m := LifeDeleted(kind, r, loaded, host, event, deleted), if commits then Go else Fail;
      history := Advance(history, p, m);
      StepOfCommit(Run(Init(), old(history)), p, m);
      if !commits {
        return;
      }
      CancelRowWithdraws(old(history), r);
      if event.Some? {
        var e := events[event.value];
        events := events[event.value := e.(confirmed := false)];
        if !deleted && e.calendarId.Some? {
          openTasks := openTasks + {e.calendarId.value};
        }
      }
      var s := NewStatus(kind, loaded);
      if loaded != s {
        requests := requests[r := requests[r].(status := s)];
      }
    }

    /** READY, committed on its own, then a recommendation whose failure is swallowed. */
    method Retrigger(r: Id, env: LifeEnv)
      requires At(Retriggering(r)) && HasStatus(Tables(), r, Rescheduling)
      modifies this`requests, this`runs, this`history
      ensures Valid() && runs == RunsAfter(old(runs), r, Rescheduling, env)
      ensures requests == old(requests)[r := old(requests)[r].(status := StatusAfter(Rescheduling, env))]
    {
      hide InCall, Run;
      hide StartCall, BookStep, LifeStep;
      history := Advance(history, Retriggering(r), if env.retriggers then Go else Fail);
      if env.retriggers {
        requests := requests[r := requests[r].(status := Ready)];
        GenerateLocked(r, env.generation);
      }
    }

    // -------------------------------------------------------------- recommendation

    /** Only a READY request is generated for. Slots make a run and RECOMMENDED, none of them means
        FAILED, an exception leaves everything as it is. */
    method GenerateLocked(r: Id, g: Generation)
      requires At(GenWaiting(r)) && r in requests
      modifies this`requests, this`runs, this`history
      ensures Valid()
      ensures HasStatus(old(Tables()), r, Ready) ==>
                && runs == WithRun(old(runs), r, g)
                && requests == old(requests)[r := old(requests)[r].(status := StatusWith(g))]
      ensures !HasStatus(old(Tables()), r, Ready) ==> Tables() == old(Tables())
    {
      hide InCall, Run;
      hide StartCall, BookStep, LifeStep;
      history := Advance(history, GenWaiting(r), Go);
      if requests[r].status != Ready {
        return;
      }
      CommitGeneration(r, g);
    }

    /** The run and RECOMMENDED, or FAILED, or nothing. */
    method CommitGeneration(r: Id, g: Generation)
      requires At(GenReady(r)) && HasStatus(Tables(), r, Ready)
      modifies this`requests, this`runs, this`history
      ensures Valid()
      ensures runs == WithRun(old(runs), r, g)
      ensures requests == old(requests)[r := old(requests)[r].(status := StatusWith(g))]
    {
      hide InCall, Run;
      hide StartCall, BookStep, LifeStep, GenCheck;
      history := Advance(history, GenReady(r), match g
        case Raised => Abort
        case Generated(slots) => if slots != [] then Recommend(slots) else Fail);
      if g.Generated? {
        if g.slots != [] {
          runs := runs + [RunRow(r, g.slots)];
          requests := requests[r := requests[r].(status := Recommended)];
        } else {
          requests := requests[r := requests[r].(status := Failed)];
        }
      }
    }

    /** Recommends for a READY request; a RECOMMENDED one keeps the run it has. */
    method Generate(r: Id, g: Generation)
      requires Valid()
      modifies this`requests, this`runs, this`history
      ensures Valid()
      ensures HasStatus(old(Tables()), r, Ready) ==>
                && runs == WithRun(old(runs), r, g)
                && requests == old(requests)[r := old(requests)[r].(status := StatusWith(g))]
      ensures !HasStatus(old(Tables()), r, Ready) ==> requests == old(requests) && runs == old(runs)
      ensures HasStatus(old(Tables()), r, Ready) ==>
                && (g.Raised? ==> HasStatus(Tables(), r, Ready) && runs == old(runs))
                && (g == Generated([]) ==> HasStatus(Tables(), r, Failed) && runs == old(runs))
                && (g.Generated? && g.slots != [] ==>
                      HasStatus(Tables(), r, Recommended) && runs == old(runs) + [RunRow(r, g.slots)])
    {
      hide InCall, Run;
      hide BookStep, LifeStep, PlainStep;
      history := Advance(history, Idle, Start(Call.Generate(r)));
      if r !in requests {
        return;
      }
      if requests[r].status == Recommended && LatestRun(Db(requests, runs, events, openTasks), r).Some? {
        return;
      }
      GenerateLocked(r, g);
    }

    // ------------------------------------------------------------ the request itself

    /** Without an external panelist the creating admin is the panel. */
    method CreateRequest(r: Id, candidate: Id, panel: set<Id>, creator: Id)
      requires Valid() && r !in requests
      modifies this`requests, this`history
      ensures Valid()
      ensures requests ==
              old(requests)[r := Request(AwaitingAvailability, candidate, if panel == {} then {creator} else panel)]
    {
      hide InCall, Run;
      hide BookStep, LifeStep, PlainStep;
      history := Advance(history, Idle, Start(Call.CreateRequest(r, candidate, panel, creator)));
      requests := requests[r := Request(AwaitingAvailability, candidate, EffectivePanel(panel, creator))];
    }

    method SubmitAvailability(r: Id) returns (accepted: bool)
      requires Valid()
      modifies this`requests, this`history
      ensures Valid()
      ensures accepted <==> HasStatus(old(Tables()), r, AwaitingAvailability)
      ensures requests == if accepted then old(requests)[r := old(requests)[r].(status := Ready)] else old(requests)
    {
      hide InCall, Run;
      hide BookStep, LifeStep;
      history := Advance(history, Idle, Start(Call.SubmitAvailability(r)));
      accepted := r in requests && requests[r].status == AwaitingAvailability;
      if accepted {
        history := Advance(history, Submitting(r), Go);
        requests := requests[r := requests[r].(status := Ready)];
      }
    }

    /** Participants can change only while the request is editable, and some panelist stays. */
    method UpdatePanel(r: Id, panel: set<Id>) returns (accepted: bool)
      requires Valid()
      modifies this`requests, this`history
      ensures Valid()
      ensures accepted <==>
                r in old(requests) && old(requests)[r].status in {Draft, AwaitingAvailability} && panel != {}
      ensures requests == if accepted then old(requests)[r := old(requests)[r].(panel := panel)] else old(requests)
    {
      hide InCall, Run;
      hide BookStep, LifeStep;
      history := Advance(history, Idle, Start(Call.UpdatePanel(r, panel)));
      accepted := r in requests && requests[r].status in EDITABLE && panel != {};
      if accepted {
        history := Advance(history, Updating(r, panel), Go);
        requests := requests[r := requests[r].(panel := panel)];
      }
    }

    method RecordOutcome(r: Id) returns (accepted: bool)
      requires Valid()
      modifies this`requests, this`history
      ensures Valid()
      ensures accepted <==> r in old(requests) && old(requests)[r].status in {Booked, Completed}
      ensures requests == if accepted then old(requests)[r := old(requests)[r].(status := Completed)] else old(requests)
    {
      hide InCall, Run;
      hide BookStep, LifeStep;
      history := Advance(history, Idle, Start(Call.RecordOutcome(r)));
      accepted := r in requests && requests[r].status in {Booked, Completed};
      if accepted {
        history := Advance(history, Recording(r, requests[r].status), Go);
        requests := requests[r := requests[r].(status := Completed)];
      }
    }
  }
}
