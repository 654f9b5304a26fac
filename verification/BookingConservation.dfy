/** Which calendar events somebody still answers for. A compensating delete goes to the calendar the
    event was created on, but a lifecycle delete goes to the organiser of the panel its session has
    read, and an event that is not there counts as deleted. Cancelling through the wrong organiser
    loses the event; nothing else does. */
module BookingConservation {
  import opened Wrappers
  import opened Intervals
  import opened BookingMachine
  import opened BookingSafety

  ghost predicate InFlight(w: World, c: Id) {
    exists pid :: pid in w.procs && IdOf(HeldBy(w.procs[pid])) == Some(c)
  }

  ghost predicate OnConfirmedRow(w: World, c: Id) {
    exists i :: 0 <= i < |w.db.events| && w.db.events[i].confirmed && w.db.events[i].calendarId == Some(c)
  }

  ghost predicate Recorded(w: World, c: Id) {
    c in w.db.openTasks || c in w.lastResortLog
  }

  /** Held by a booking in flight, stored on a CONFIRMED row, covered by an OPEN task, or in the
      last-resort log. */
  ghost predicate Accounted(w: World, c: Id) {
    InFlight(w, c) || OnConfirmedRow(w, c) || Recorded(w, c)
  }

  /** No calendar event is silently orphaned. */
  ghost predicate NoOrphans(w: World) {
    forall e :: e in w.calendar ==> Accounted(w, e.id)
  }

  /** A cancellation commits after a delete that missed: the organiser it was sent to does not host
      the row's event, which is still there and which nobody has recorded. */
  ghost predicate Loses(w: World, pid: Id, m: Move) {
    var p := ProcOf(w, pid);
    && p.LifeDeleted? && m.Go? && p.deleted
    && exists e :: e in w.calendar && CalendarIdOf(w.db, p.event) == Some(e.id)
                   && p.host != Some(e.host) && !Recorded(w, e.id)
  }

  // ---------------------------------------------------------------- step by step

  /** A process moves on: whatever it held is accounted for afterwards, no row is cancelled. */
  lemma StillAccounted(w: World, w': World, pid: Id, p: Proc)
    requires NoOrphans(w) && w'.procs == w.procs[pid := p]
    requires forall e :: e in w'.calendar ==> e in w.calendar || HeldBy(p) == Some(e)
    requires w.db.openTasks <= w'.db.openTasks && w.lastResortLog <= w'.lastResortLog
    requires forall c :: OnConfirmedRow(w, c) ==> OnConfirmedRow(w', c)
    requires forall e :: e in w'.calendar && IdOf(HeldBy(ProcOf(w, pid))) == Some(e.id) ==>
               IdOf(HeldBy(p)) == Some(e.id) || OnConfirmedRow(w', e.id) || Recorded(w', e.id)
    ensures NoOrphans(w')
  {
    forall e | e in w'.calendar ensures Accounted(w', e.id) {
      if HeldBy(p) == Some(e) {
        assert w'.procs[pid] == p;
      } else if InFlight(w, e.id) {
        var q :| q in w.procs && IdOf(HeldBy(w.procs[q])) == Some(e.id);
        assert w'.procs[if q == pid then pid else q] == if q == pid then p else w.procs[q];
      }
    }
  }

  lemma SameRows(w: World, w': World)
    requires w'.db.events == w.db.events
    ensures forall c :: OnConfirmedRow(w, c) ==> OnConfirmedRow(w', c)
  {
  }

  /** A booking's calendar event on its way in or out. */
  lemma CalendarStepAccounts(w: World, pid: Id, m: Move)
    requires Sound(w) && NoOrphans(w) && !m.Start?
    requires var p := ProcOf(w, pid); p.BookCleared? || p.BookCompensating? || p.BookUndeleted?
    ensures NoOrphans(Step(w, pid, m))
  {
    hide LifeStep, PlainStep, StartCall, BookValidate, BookClear, BookPersist;
    hide ConfirmedAmong, LatestAmong, SomeClash, Organiser;
    assert ProcSound(w, w.procs[pid]);
    hide Sound, NoOrphans;
    var w' := Step(w, pid, m);
    SameRows(w, w');
    StillAccounted(w, w', pid, w'.procs[pid]);
  }

  /** Steps that touch neither rows nor calendar, or only delete. */
  lemma PlainStepAccounts(w: World, pid: Id, m: Move)
    requires NoOrphans(w) && !m.Start?
    requires Quiet(ProcOf(w, pid)) || ProcOf(w, pid).LifeLoaded? || ProcOf(w, pid).LifeFetched?
    ensures NoOrphans(Step(w, pid, m))
  {
    hide StartCall;
    hide StartCall, BookCreate, BookPersist, Compensate, RecordOrphan, LifeCommit, ConfirmedAmong;
    hide LatestAmong, SomeClash, Organiser;
    hide NoOrphans;
    var w' := Step(w, pid, m);
    SameRows(w, w');
    StillAccounted(w, w', pid, w'.procs[pid]);
  }

  lemma StartAccounts(w: World, pid: Id, call: Call)
    requires NoOrphans(w) && ProcOf(w, pid).Idle?
    ensures NoOrphans(StartCall(w, pid, call))
  {
    var w' := StartCall(w, pid, call);
    SameRows(w, w');
    if w'.procs != w.procs {
      StillAccounted(w, w', pid, w'.procs[pid]);
    } else {
      forall e | e in w'.calendar ensures Accounted(w', e.id) {
        assert Accounted(w, e.id) && (InFlight(w, e.id) ==> InFlight(w', e.id));
      }
    }
  }

  lemma PersistAccounts(w: World, pid: Id, t: Target, held: Option<Hosted>, m: Move)
    requires Sound(w) && NoOrphans(w) && ProcOf(w, pid) == BookHolding(t, held)
    ensures NoOrphans(BookPersist(w, pid, t, held, m))
  {
    var w' := BookPersist(w, pid, t, held, m);
    var n := |w.db.events|;
    forall c: Id | OnConfirmedRow(w, c) ensures OnConfirmedRow(w', c) {
      var i :| 0 <= i < n && w.db.events[i].confirmed && w.db.events[i].calendarId == Some(c);
      assert w'.db.events[i] == w.db.events[i];
    }
    if w'.db != w.db && held.Some? {
      assert w'.db.events[n].confirmed && w'.db.events[n].calendarId == Some(held.value.id);
    }
    StillAccounted(w, w', pid, w'.procs[pid]);
  }

  /** An event stored on a row is in nobody's hands. */
  lemma StoredNotHeld(w: World, event: Option<nat>, c: Id)
    requires Sound(w) && CalendarIdOf(w.db, event) == Some(c)
    ensures !InFlight(w, c)
  {
  }

  /** After the commit, the cancelled row's event is accounted for only if it is recorded. */
  lemma CancelledRowAccounted(w: World, pid: Id, p: Proc, e: Hosted)
    requires Sound(w) && NoOrphans(w) && p.LifeDeleted? && ProcOf(w, pid) == p && e in w.calendar
    ensures var w' := LifeCommit(w, pid, p, Go);
            Accounted(w', e.id) <==> CalendarIdOf(w.db, p.event) != Some(e.id) || Recorded(w', e.id)
  {
    var w' := LifeCommit(w, pid, p, Go);
    assert ProcSound(w, w.procs[pid]) && Accounted(w, e.id);
    if CalendarIdOf(w.db, p.event) == Some(e.id) {
      StoredNotHeld(w, p.event, e.id);
      assert InFlight(w', e.id) ==> InFlight(w, e.id);
    } else {
      if InFlight(w, e.id) {
        var q :| q in w.procs && IdOf(HeldBy(w.procs[q])) == Some(e.id);
        assert w'.procs[q] == w.procs[q];
      }
      if OnConfirmedRow(w, e.id) {
        var i :| 0 <= i < |w.db.events| && w.db.events[i].confirmed && w.db.events[i].calendarId == Some(e.id);
        assert w'.db.events[i] == w.db.events[i];
      }
    }
  }

  /** A cancellation loses an event exactly when it was sent to an organiser that does not host it. */
  lemma CancelExact(w: World, pid: Id, m: Move)
    requires Sound(w) && NoOrphans(w) && ProcOf(w, pid).LifeDeleted? && !m.Start?
    ensures NoOrphans(Step(w, pid, m)) <==> !Loses(w, pid, m)
  {
    var p, w' := ProcOf(w, pid), Step(w, pid, m);
    assert ProcSound(w, w.procs[pid]);
    if m.Go? {
      forall e | e in w.calendar
        ensures Accounted(w', e.id) <==> CalendarIdOf(w.db, p.event) != Some(e.id) || Recorded(w', e.id)
      {
        CancelledRowAccounted(w, pid, p, e);
      }
      assert w'.calendar == w.calendar;
    } else {
      SameRows(w, w');
      StillAccounted(w, w', pid, Idle);
    }
  }

  lemma StepExact(w: World, pid: Id, m: Move)
    requires Sound(w) && NoOrphans(w)
    ensures NoOrphans(Step(w, pid, m)) <==> !Loses(w, pid, m)
  {
    var p := ProcOf(w, pid);
    if p.Idle? {
      if m.Start? {
        StartAccounts(w, pid, m.call);
      }
    } else if m.Start? {
      assert Step(w, pid, m) == w;
    } else if p.BookHolding? {
      PersistAccounts(w, pid, p.target, p.held, m);
    } else if p.LifeDeleted? {
      CancelExact(w, pid, m);
    } else if p.BookCleared? || p.BookCompensating? || p.BookUndeleted? {
      CalendarStepAccounts(w, pid, m);
    } else {
      PlainStepAccounts(w, pid, m);
    }
  }

  // -------------------------------------------------------------------- every run

  ghost predicate AccountedThroughout(w: World, actions: seq<Action>)
    decreases |actions|
  {
    NoOrphans(w)
    && (actions != [] ==> AccountedThroughout(Step(w, actions[0].pid, actions[0].move), actions[1..]))
  }

  ghost predicate NeverLoses(w: World, actions: seq<Action>)
    decreases |actions|
  {
    actions == [] ||
    (!Loses(w, actions[0].pid, actions[0].move)
     && NeverLoses(Step(w, actions[0].pid, actions[0].move), actions[1..]))
  }

  lemma {:induction false} RunExact(w: World, actions: seq<Action>)
    requires Sound(w) && NoOrphans(w)
    ensures AccountedThroughout(w, actions) <==> NeverLoses(w, actions)
    decreases |actions|
  {
    if actions != [] {
      var pid, m := actions[0].pid, actions[0].move;
      StepKeepsSound(w, pid, m);
      StepExact(w, pid, m);
      var w' := Step(w, pid, m);
      if NoOrphans(w') {
        RunExact(w', actions[1..]);
      } else {
        assert !AccountedThroughout(w', actions[1..]);
      }
    }
  }

  /** Over every run whatsoever: no calendar event is ever silently orphaned exactly when no
      cancellation commits after a delete sent to the wrong organiser. */
  lemma ConservationExact(actions: seq<Action>)
    ensures AccountedThroughout(Init(), actions) <==> NeverLoses(Init(), actions)
  {
    RunExact(Init(), actions);
  }

  lemma {:induction false} AccountedAtEnd(w: World, actions: seq<Action>)
    requires AccountedThroughout(w, actions)
    ensures NoOrphans(Run(w, actions))
    decreases |actions|
  {
    if actions != [] {
      AccountedAtEnd(Step(w, actions[0].pid, actions[0].move), actions[1..]);
    }
  }

  // ------------------------------------------------------ deletes sent to the host

  /** The delete about to be sent, and to succeed, goes to a calendar that does not hold the event. */
  ghost predicate Misaddressed(w: World, pid: Id, m: Move) {
    var p := ProcOf(w, pid);
    && p.LifeFetched? && m.Go?
    && exists e :: e in w.calendar && CalendarIdOf(w.db, p.event) == Some(e.id) && p.host != Some(e.host)
  }

  ghost predicate AddressedRun(w: World, actions: seq<Action>)
    decreases |actions|
  {
    actions == [] ||
    (!Misaddressed(w, actions[0].pid, actions[0].move)
     && AddressedRun(Step(w, actions[0].pid, actions[0].move), actions[1..]))
  }

  /** What a lifecycle call takes to be deleted is gone. */
  ghost predicate GoneFor(w: World, p: Proc) {
    p.LifeDeleted? && p.deleted ==> forall e :: e in w.calendar ==> CalendarIdOf(w.db, p.event) != Some(e.id)
  }

  ghost predicate DeletedIsGone(w: World) {
    forall pid :: pid in w.procs ==> GoneFor(w, w.procs[pid])
  }

  lemma GoneStaysGone(w: World, w': World, mine: Option<Hosted>, p: Proc)
    requires ProcSound(w, p) && GoneFor(w, p) && IdsIssued(w) && Moved(w, w', mine)
    ensures GoneFor(w', p)
  {
  }

  /** Only a delete leads to the commit of a cancellation. */
  lemma DeletedFrom(w: World, pid: Id, m: Move)
    ensures ProcOf(Step(w, pid, m), pid).LifeDeleted? ==>
              (ProcOf(w, pid).LifeFetched? && !m.Start?) || Step(w, pid, m) == w
  {
  }

  lemma OwnDeleteGone(w: World, pid: Id, m: Move)
    requires IdsIssued(w) && DeletedIsGone(w) && !Misaddressed(w, pid, m)
    requires ProcOf(w, pid).LifeFetched? ==> ProcSound(w, ProcOf(w, pid))
    ensures GoneFor(Step(w, pid, m), ProcOf(Step(w, pid, m), pid))
  {
    hide BookStep, PlainStep, StartCall, LifeFetch, LifeCommit;
    DeletedFrom(w, pid, m);
  }

  lemma StepDeletedIsGone(w: World, pid: Id, m: Move)
    requires Sound(w) && DeletedIsGone(w) && !Misaddressed(w, pid, m)
    ensures DeletedIsGone(Step(w, pid, m))
  {
    var w' := Step(w, pid, m);
    StepMoved(w, pid, m);
    OthersUntouched(w, pid, m);
    assert ProcOf(w, pid).LifeFetched? ==> ProcSound(w, w.procs[pid]);
    OwnDeleteGone(w, pid, m);
    hide Step;
    forall q | q in w'.procs ensures GoneFor(w', w'.procs[q]) {
      if q != pid {
        GoneStaysGone(w, w', HeldBy(ProcOf(w, pid)), w.procs[q]);
      }
    }
  }

  lemma {:induction false} AddressedNeverLoses(w: World, actions: seq<Action>)
    requires Sound(w) && DeletedIsGone(w) && AddressedRun(w, actions)
    ensures NeverLoses(w, actions)
    decreases |actions|
  {
    if actions != [] {
      var pid, m := actions[0].pid, actions[0].move;
      StepKeepsSound(w, pid, m);
      StepDeletedIsGone(w, pid, m);
      assert pid in w.procs ==> GoneFor(w, w.procs[pid]);
      AddressedNeverLoses(Step(w, pid, m), actions[1..]);
    }
  }

  /** No silently orphaned calendar event, over every run whose lifecycle deletes go to the hosts of
      the events: through lost locks, insert races, failed commits and failed deletes. */
  lemma NoSilentOrphan(actions: seq<Action>, e: Hosted)
    requires AddressedRun(Init(), actions) && e in Run(Init(), actions).calendar
    ensures Accounted(Run(Init(), actions), e.id)
  {
    AddressedNeverLoses(Init(), actions);
    ConservationExact(actions);
    AccountedAtEnd(Init(), actions);
  }

  /** Once no booking is in flight, the database and the log account for every event. */
  lemma QuiescentCalendar(actions: seq<Action>, e: Hosted)
    requires AddressedRun(Init(), actions) && e in Run(Init(), actions).calendar
    requires forall pid :: pid in Run(Init(), actions).procs ==> Run(Init(), actions).procs[pid].Idle?
    ensures OnConfirmedRow(Run(Init(), actions), e.id) || Recorded(Run(Init(), actions), e.id)
  {
    NoSilentOrphan(actions, e);
  }
}
