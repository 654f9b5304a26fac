/** What holds after every run of the booking machine, whatever the interleaving, the locks, the
    staleness of what sessions have read, and the failures of the calendar and the database. */
module BookingSafety {
  import opened Wrappers
  import opened Intervals
  import opened BookingMachine

  // --------------------------------------------------------------- the guarantees

  ghost predicate OneConfirmedEach(db: Db) {
    forall i, j :: 0 <= i < j < |db.events| && db.events[i].confirmed && db.events[j].confirmed ==>
      db.events[i].request != db.events[j].request
  }

  ghost predicate BookedIsBacked(db: Db) {
    forall r :: HasStatus(db, r, Booked) ==>
      exists i :: 0 <= i < |db.events| && db.events[i].confirmed && db.events[i].request == r
  }

  // ---------------------------------------------------- what carries them along

  /** The calendar event a process still answers for. */
  function HeldBy(p: Proc): Option<Hosted> {
    match p
    case BookHolding(_, held) => held
    case BookCompensating(e) => Some(e)
    case BookUndeleted(e) => Some(e)
    case _ => None
  }

  /** Ids are issued once: an event has one host, and at most one row stores it. */
  ghost predicate IdsIssued(w: World) {
    && (forall e :: e in w.calendar ==> e.id < w.nextCalendarId)
    && (forall e, f :: e in w.calendar && f in w.calendar && e.id == f.id ==> e == f)
    && (forall i :: 0 <= i < |w.db.events| && w.db.events[i].calendarId.Some? ==>
          w.db.events[i].calendarId.value < w.nextCalendarId)
    && (forall i, j :: 0 <= i < j < |w.db.events| && w.db.events[i].calendarId.Some? ==>
          w.db.events[i].calendarId != w.db.events[j].calendarId)
  }

  /** An event held by a process is stored on no row. */
  ghost predicate HeldSound(w: World, e: Hosted) {
    && e.id < w.nextCalendarId
    && (forall f :: f in w.calendar && f.id == e.id ==> f == e)
    && (forall i :: 0 <= i < |w.db.events| ==> w.db.events[i].calendarId != Some(e.id))
  }

  /** A lifecycle call that is about to cancel a row will also move its request off BOOKED. */
  ghost predicate WillLeave(db: Db, kind: Kind, r: Id, loaded: Status, event: Option<nat>) {
    event.Some? ==>
      && event.value < |db.events|
      && db.events[event.value].request == r
      && NewStatus(kind, loaded) != Booked && NewStatus(kind, loaded) != loaded
  }

  /** What a lifecycle call knows after its delete went through. */
  ghost predicate DeletedThere(w: World, host: Option<Id>, event: Option<nat>) {
    var c := CalendarIdOf(w.db, event);
    c.Some? ==> host.Some? && Hosted(c.value, host.value) !in w.calendar
  }

  ghost predicate ProcSound(w: World, p: Proc) {
    && (HeldBy(p).Some? ==> HeldSound(w, HeldBy(p).value))
    && (p.LifeFetched? ==> WillLeave(w.db, p.kind, p.request, p.loaded, p.event))
    && (p.LifeDeleted? ==>
          && WillLeave(w.db, p.kind, p.request, p.loaded, p.event)
          && (p.deleted ==> DeletedThere(w, p.host, p.event)))
  }

  ghost predicate ProcsSound(w: World) {
    && (forall pid :: pid in w.procs ==> ProcSound(w, w.procs[pid]))
    && (forall p, q :: p in w.procs && q in w.procs && p != q ==> HeldApart(w.procs[p], w.procs[q]))
  }

  ghost predicate HeldApart(p: Proc, q: Proc) {
    HeldBy(p).Some? && HeldBy(q).Some? ==> HeldBy(p).value.id != HeldBy(q).value.id
  }

  ghost predicate Sound(w: World) {
    IdsIssued(w) && ProcsSound(w) && OneConfirmedEach(w.db) && BookedIsBacked(w.db)
  }

  // ------------------------------------------------------------- kinds of step

  /** The rows are as before up to cancellation, perhaps with new ones at the end. */
  ghost predicate EventsGrow(a: seq<Event>, b: seq<Event>) {
    && |a| <= |b|
    && forall i :: 0 <= i < |a| ==>
         && b[i].request == a[i].request && b[i].calendarId == a[i].calendarId && b[i].run == a[i].run
         && b[i].slot == a[i].slot && (b[i].confirmed ==> a[i].confirmed)
  }

  /** Rows and calendar events as another process may find them after a step: new rows store no
      event of its own, new calendar events have fresh ids. */
  ghost predicate Moved(w: World, w': World, mine: Option<Hosted>) {
    && EventsGrow(w.db.events, w'.db.events) && w.nextCalendarId <= w'.nextCalendarId
    && (forall e :: e in w'.calendar ==> e in w.calendar || e.id >= w.nextCalendarId)
    && (forall i :: |w.db.events| <= i < |w'.db.events| ==> w'.db.events[i].calendarId == IdOf(mine))
  }

  lemma ProcStaysSound(w: World, w': World, mine: Option<Hosted>, p: Proc)
    requires ProcSound(w, p) && IdsIssued(w) && Moved(w, w', mine)
    requires HeldBy(p).Some? && mine.Some? ==> HeldBy(p).value.id != mine.value.id
    ensures ProcSound(w', p)
  {
  }

  /** A step that moves process `pid` to `p` keeps all processes sound. */
  lemma ProcsStaySound(w: World, w': World, pid: Id, p: Proc)
    requires ProcsSound(w) && IdsIssued(w) && Moved(w, w', HeldBy(ProcOf(w, pid)))
    requires w'.procs == w.procs[pid := p] && ProcSound(w', p)
    requires HeldBy(p).Some? ==> HeldBy(p) == HeldBy(ProcOf(w, pid)) || HeldBy(p).value.id >= w.nextCalendarId
    ensures ProcsSound(w')
  {
    forall q | q in w'.procs ensures ProcSound(w', w'.procs[q]) {
      if q != pid {
        assert pid in w.procs ==> HeldApart(w.procs[q], w.procs[pid]);
        ProcStaysSound(w, w', HeldBy(ProcOf(w, pid)), w.procs[q]);
      }
    }
    forall a, b | a in w'.procs && b in w'.procs && a != b ensures HeldApart(w'.procs[a], w'.procs[b]) {
      assert a in w.procs ==> ProcSound(w, w.procs[a]);
      assert b in w.procs ==> ProcSound(w, w.procs[b]);
      assert a in w.procs && b in w.procs ==> HeldApart(w.procs[a], w.procs[b]);
    }
  }

  /** A step that touches no event row, no calendar event and no BOOKED status. */
  lemma QuietStep(w: World, w': World, pid: Id, p: Proc)
    requires Sound(w)
    requires w'.db.events == w.db.events && w'.calendar <= w.calendar && w'.nextCalendarId == w.nextCalendarId
    requires forall r :: HasStatus(w'.db, r, Booked) ==> HasStatus(w.db, r, Booked)
    requires w'.procs == w.procs[pid := p] && ProcSound(w', p)
    requires HeldBy(p).Some? ==> HeldBy(p) == HeldBy(ProcOf(w, pid))
    ensures Sound(w')
  {
    ProcsStaySound(w, w', pid, p);
  }

  lemma CreatedKeepsSound(w: World, pid: Id, call: Call)
    requires Sound(w) && call.CreateRequest?
    ensures Sound(StartCall(w, pid, call))
  {
    var w' := StartCall(w, pid, call);
    forall q | q in w'.procs ensures ProcSound(w', w'.procs[q]) {
      ProcStaysSound(w, w', None, w.procs[q]);
    }
    forall r | HasStatus(w'.db, r, Booked)
      ensures exists i :: 0 <= i < |w'.db.events| && w'.db.events[i].confirmed && w'.db.events[i].request == r
    {
      assert HasStatus(w.db, r, Booked);
    }
  }

  lemma StartKeepsSound(w: World, pid: Id, call: Call)
    requires Sound(w) && ProcOf(w, pid).Idle?
    ensures Sound(StartCall(w, pid, call))
  {
    if call.CreateRequest? {
      CreatedKeepsSound(w, pid, call);
    } else {
      var w' := StartCall(w, pid, call);
      if w' != w {
        QuietStep(w, w', pid, w'.procs[pid]);
      }
    }
  }

  // ------------------------------------------------------------- steps of `book`

  lemma CreateKeepsSound(w: World, pid: Id, t: Target, host: Option<Id>, m: Move)
    requires Sound(w) && ProcOf(w, pid) == BookCleared(t, host)
    ensures Sound(BookCreate(w, pid, t, host, m))
  {
    var w' := BookCreate(w, pid, t, host, m);
    ProcsStaySound(w, w', pid, w'.procs[pid]);
  }

  lemma PersistKeepsBacked(w: World, pid: Id, t: Target, held: Option<Hosted>)
    requires BookedIsBacked(w.db) && ValidTarget(w.db, t) && ConfirmedEvent(w.db, t.request).None?
    ensures BookedIsBacked(BookPersist(w, pid, t, held, Go).db)
  {
    var db, db' := w.db, BookPersist(w, pid, t, held, Go).db;
    var n := |db.events|;
    forall r | HasStatus(db', r, Booked)
      ensures exists i :: 0 <= i <= n && db'.events[i].confirmed && db'.events[i].request == r
    {
      if r == t.request {
        assert db'.events[n].request == r;
      } else {
        assert HasStatus(db, r, Booked);
        var i :| 0 <= i < n && db.events[i].confirmed && db.events[i].request == r;
        assert db'.events[i] == db.events[i];
      }
    }
  }

  lemma PersistKeepsRows(w: World, pid: Id, t: Target, held: Option<Hosted>)
    requires IdsIssued(w) && OneConfirmedEach(w.db) && (held.Some? ==> HeldSound(w, held.value))
    requires ValidTarget(w.db, t) && ConfirmedEvent(w.db, t.request).None?
    ensures var w' := BookPersist(w, pid, t, held, Go);
            IdsIssued(w') && OneConfirmedEach(w'.db) && Moved(w, w', held)
  {
    var w' := BookPersist(w, pid, t, held, Go);
    assert forall i :: 0 <= i < |w.db.events| ==> w'.db.events[i] == w.db.events[i];
  }

  lemma PersistKeepsSound(w: World, pid: Id, t: Target, held: Option<Hosted>, m: Move)
    requires Sound(w) && ProcOf(w, pid) == BookHolding(t, held)
    ensures Sound(BookPersist(w, pid, t, held, m))
  {
    var w' := BookPersist(w, pid, t, held, m);
    assert ProcSound(w, w.procs[pid]);
    hide IdsIssued, OneConfirmedEach, BookedIsBacked, ProcsSound, Moved;
    if w'.procs[pid] != Idle || !(m.Go? && ValidTarget(w.db, t) && ConfirmedEvent(w.db, t.request).None?) {
      QuietStep(w, w', pid, AfterFailedPersist(held));
    } else {
      PersistKeepsRows(w, pid, t, held);
      ProcsStaySound(w, w', pid, Idle);
      PersistKeepsBacked(w, pid, t, held);
    }
  }

  // ---------------------------------------------------------- lifecycle steps

  lemma DeleteKeepsSound(w: World, pid: Id, p: Proc, m: Move)
    requires Sound(w) && p.LifeFetched? && ProcOf(w, pid) == p
    ensures Sound(LifeDelete(w, pid, p, m))
  {
    var w' := LifeDelete(w, pid, p, m);
    assert ProcSound(w, w.procs[pid]);
    QuietStep(w, w', pid, w'.procs[pid]);
  }

  lemma CommitKeepsBacked(w: World, pid: Id, p: Proc)
    requires Sound(w) && p.LifeDeleted? && ProcOf(w, pid) == p
    ensures BookedIsBacked(LifeCommit(w, pid, p, Go).db)
  {
    var w' := LifeCommit(w, pid, p, Go);
    assert ProcSound(w, w.procs[pid]);
    forall r | HasStatus(w'.db, r, Booked)
      ensures exists i :: 0 <= i < |w'.db.events| && w'.db.events[i].confirmed && w'.db.events[i].request == r
    {
      assert HasStatus(w.db, r, Booked);
      var i :| 0 <= i < |w.db.events| && w.db.events[i].confirmed && w.db.events[i].request == r;
      assert w'.db.events[i].request == r;
      assert w'.db.events[i].confirmed;
    }
  }

  lemma CommitKeepsRows(w: World, pid: Id, p: Proc)
    requires IdsIssued(w) && OneConfirmedEach(w.db) && p.LifeDeleted?
    ensures var w' := LifeCommit(w, pid, p, Go);
            IdsIssued(w') && OneConfirmedEach(w'.db) && Moved(w, w', None)
  {
  }

  lemma CommitKeepsSound(w: World, pid: Id, p: Proc, m: Move)
    requires Sound(w) && p.LifeDeleted? && ProcOf(w, pid) == p
    ensures Sound(LifeCommit(w, pid, p, m))
  {
    var w' := LifeCommit(w, pid, p, m);
    CommitKeepsBacked(w, pid, p);
    CommitKeepsRows(w, pid, p);
    hide IdsIssued, OneConfirmedEach, BookedIsBacked, ProcsSound, Moved;
    if m.Go? {
      ProcsStaySound(w, w', pid, w'.procs[pid]);
    } else {
      QuietStep(w, w', pid, Idle);
    }
  }

  // ---------------------------------------------------------------- every run

  /** The steps that write at most a status, a panel or a run. */
  predicate Quiet(p: Proc) {
    || p.BookWaiting? || p.BookValidated? || p.Retriggering? || p.GenWaiting? || p.GenReady?
    || p.Submitting? || p.Updating? || p.Recording?
  }

  lemma CheckKeepsSound(w: World, pid: Id, m: Move)
    requires Sound(w) && (ProcOf(w, pid).BookWaiting? || ProcOf(w, pid).BookValidated?) && !m.Start?
    ensures Sound(Step(w, pid, m))
  {
    hide Sound, LifeStep, PlainStep, StartCall, ConfirmedAmong, SomeClash, Organiser;
    QuietStep(w, Step(w, pid, m), pid, Step(w, pid, m).procs[pid]);
  }

  lemma QuietKeepsSound(w: World, pid: Id, m: Move)
    requires Sound(w) && Quiet(ProcOf(w, pid)) && !InBook(ProcOf(w, pid)) && !m.Start?
    ensures Sound(Step(w, pid, m))
  {
    hide Sound, BookStep, LifeStep, StartCall;
    QuietStep(w, Step(w, pid, m), pid, Step(w, pid, m).procs[pid]);
  }

  lemma UndoKeepsSound(w: World, pid: Id, m: Move)
    requires Sound(w) && (ProcOf(w, pid).BookCompensating? || ProcOf(w, pid).BookUndeleted?) && !m.Start?
    ensures Sound(Step(w, pid, m))
  {
    hide LifeStep, PlainStep, StartCall, BookValidate, BookClear, BookCreate, BookPersist;
    hide ConfirmedAmong, LatestAmong, SomeClash, Organiser;
    assert ProcSound(w, w.procs[pid]);
    hide Sound;
    QuietStep(w, Step(w, pid, m), pid, Step(w, pid, m).procs[pid]);
  }

  lemma LoadedKeepsSound(w: World, pid: Id, m: Move)
    requires Sound(w) && ProcOf(w, pid).LifeLoaded? && !m.Start?
    ensures Sound(Step(w, pid, m))
  {
    hide BookStep, PlainStep, StartCall, LifeDelete, LifeCommit, LatestAmong, SomeClash, Organiser;
    hide Sound;
    QuietStep(w, Step(w, pid, m), pid, Step(w, pid, m).procs[pid]);
  }

  /** Every move of every process keeps the invariant. */
  lemma StepKeepsSound(w: World, pid: Id, m: Move)
    requires Sound(w)
    ensures Sound(Step(w, pid, m))
  {
    var p := ProcOf(w, pid);
    if p.Idle? && m.Start? {
      StartKeepsSound(w, pid, m.call);
    } else if !p.Idle? && !m.Start? {
      match p
      case BookCleared(t, host) => CreateKeepsSound(w, pid, t, host, m);
      case BookHolding(t, held) => PersistKeepsSound(w, pid, t, held, m);
      case BookWaiting(_) => CheckKeepsSound(w, pid, m);
      case BookValidated(_) => CheckKeepsSound(w, pid, m);
      case BookCompensating(_) => UndoKeepsSound(w, pid, m);
      case BookUndeleted(_) => UndoKeepsSound(w, pid, m);
      case LifeLoaded(_, _, _, _) => LoadedKeepsSound(w, pid, m);
      case LifeFetched(_, _, _, _, _) => DeleteKeepsSound(w, pid, p, m);
      case LifeDeleted(_, _, _, _, _, _) => CommitKeepsSound(w, pid, p, m);
      case _ => QuietKeepsSound(w, pid, m);
    }
  }

  lemma BookMoved(w: World, pid: Id, m: Move)
    requires InBook(ProcOf(w, pid)) && !m.Start?
    ensures Moved(w, Step(w, pid, m), HeldBy(ProcOf(w, pid)))
  {
    hide LifeStep, PlainStep, StartCall, ConfirmedAmong, SomeClash, Organiser;
  }

  lemma LifeMoved(w: World, pid: Id, m: Move)
    requires InLife(ProcOf(w, pid)) && !m.Start?
    ensures Moved(w, Step(w, pid, m), HeldBy(ProcOf(w, pid)))
  {
    hide BookStep, PlainStep, StartCall, ConfirmedAmong;
  }

  /** What any step does to rows and calendar, seen by the others. */
  lemma StepMoved(w: World, pid: Id, m: Move)
    ensures Moved(w, Step(w, pid, m), HeldBy(ProcOf(w, pid)))
  {
    hide BookStep, LifeStep, ConfirmedAmong, LatestAmong, Organiser;
    if InBook(ProcOf(w, pid)) && !m.Start? {
      BookMoved(w, pid, m);
    } else if InLife(ProcOf(w, pid)) && !m.Start? {
      LifeMoved(w, pid, m);
    } else {
      assert Step(w, pid, m).db.events == w.db.events;
    }
  }

  lemma {:induction false} RunKeepsSound(w: World, actions: seq<Action>)
    requires Sound(w)
    ensures Sound(Run(w, actions))
    decreases |actions|
  {
    if actions != [] {
      StepKeepsSound(w, actions[0].pid, actions[0].move);
      RunKeepsSound(Step(w, actions[0].pid, actions[0].move), actions[1..]);
    }
  }

  /** After any run, a request has at most one CONFIRMED event, and a BOOKED request has one. */
  lemma BookingSafe(actions: seq<Action>, r: Id)
    ensures var db := Run(Init(), actions).db;
            && (forall i, j | 0 <= i < |db.events| && 0 <= j < |db.events| ::
                  (db.events[i].confirmed && db.events[i].request == r
                   && db.events[j].confirmed && db.events[j].request == r) ==> i == j)
            && (HasStatus(db, r, Booked) ==>
                  exists i :: 0 <= i < |db.events| && db.events[i].confirmed && db.events[i].request == r)
  {
    RunKeepsSound(Init(), actions);
  }
}
