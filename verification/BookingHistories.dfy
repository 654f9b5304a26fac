/** Whole-history guarantees of booking: no participant is double-booked across interviews, and no
    recommendation run is booked twice. Both lean on what `book` checked still being true when it
    commits. Each comes with the exact steps that break it, and with runs that have none. */
module BookingHistories {
  import opened Wrappers
  import opened Intervals
  import opened BookingMachine
  import opened BookingSafety

  // --------------------------------------------------------------- the guarantees

  /** Two CONFIRMED interviews that share somebody and overlap in time. */
  ghost predicate Collide(db: Db, a: Event, b: Event) {
    && a.confirmed && b.confirmed && a.request != b.request
    && a.request in db.requests && b.request in db.requests
    && People(db.requests[a.request]) * People(db.requests[b.request]) != {}
    && Overlaps(a.slot, b.slot)
  }

  ghost predicate NoDoubleBooking(db: Db) {
    forall i, j :: 0 <= i < j < |db.events| ==> !Collide(db, db.events[i], db.events[j])
  }

  ghost predicate RunsBookedOnce(db: Db) {
    forall i, j :: 0 <= i < j < |db.events| ==> db.events[i].run != db.events[j].run
  }

  // ------------------------------------------------------- what holds in every run

  ghost predicate PastDraft(db: Db, r: Id) {
    r in db.requests && db.requests[r].status !in EDITABLE
  }

  /** A request with an event row is never editable again. */
  ghost predicate RowsWellFormed(db: Db) {
    forall i :: 0 <= i < |db.events| ==>
      var e := db.events[i];
      PastDraft(db, e.request) && e.run < |db.runs| && db.runs[e.run].request == e.request
  }

  ghost predicate RunsOwned(db: Db) {
    forall k :: 0 <= k < |db.runs| ==> db.runs[k].request in db.requests
  }

  ghost predicate RunUnbooked(db: Db, k: Id) {
    forall i :: 0 <= i < |db.events| ==> db.events[i].run != k
  }

  /** The run on offer for a RECOMMENDED request has not been booked from. */
  ghost predicate OfferUnbooked(db: Db) {
    forall r :: HasStatus(db, r, Recommended) && LatestRun(db, r).Some? ==> RunUnbooked(db, LatestRun(db, r).value)
  }

  ghost predicate Staffed(db: Db) {
    forall r :: r in db.requests ==> db.requests[r].panel != {}
  }

  ghost predicate ProcOrderly(db: Db, p: Proc) {
    && (p.Updating? ==> p.panel != {})
    && (p.BookValidated? || p.BookCleared? || p.BookHolding? ==> PastDraft(db, p.target.request))
    && (p.GenReady? ==> p.request in db.requests)
  }

  ghost predicate Orderly(w: World) {
    && RowsWellFormed(w.db) && RunsOwned(w.db) && OfferUnbooked(w.db) && Staffed(w.db)
    && forall pid :: pid in w.procs ==> ProcOrderly(w.db, w.procs[pid])
  }

  /** No status writer returns to an editable status, runs are only added, rows are only added or
      cancelled. */
  ghost predicate Evolves(a: Db, b: Db) {
    && (forall r :: r in a.requests ==> r in b.requests)
    && (forall r :: PastDraft(a, r) ==> PastDraft(b, r))
    && |a.runs| <= |b.runs| && (forall k :: 0 <= k < |a.runs| ==> b.runs[k] == a.runs[k])
    && EventsGrow(a.events, b.events)
  }

  lemma ProcsStayOrderly(w: World, w': World, pid: Id, p: Proc)
    requires Orderly(w) && Evolves(w.db, w'.db)
    requires w'.procs == w.procs[pid := p] && ProcOrderly(w'.db, p)
    ensures forall q :: q in w'.procs ==> ProcOrderly(w'.db, w'.procs[q])
  {
  }

  lemma RowsEvolve(a: Db, b: Db)
    requires Evolves(a, b) && |a.events| == |b.events| && RowsWellFormed(a)
    ensures RowsWellFormed(b)
  {
  }

  /** A step that adds no event row and puts no run on offer. */
  lemma CalmStep(w: World, w': World, pid: Id, p: Proc)
    requires Orderly(w) && Evolves(w.db, w'.db)
    requires |w.db.events| == |w'.db.events| && w.db.runs == w'.db.runs && Staffed(w'.db)
    requires forall r :: HasStatus(w'.db, r, Recommended) ==> HasStatus(w.db, r, Recommended)
    requires w'.procs == w.procs[pid := p] && ProcOrderly(w'.db, p)
    ensures Orderly(w')
  {
  }

  lemma StartOrderly(w: World, pid: Id, call: Call)
    requires Orderly(w) && ProcOf(w, pid).Idle?
    ensures Orderly(StartCall(w, pid, call))
  {
    var w' := StartCall(w, pid, call);
    if call.CreateRequest? && w' != w {
      RowsEvolve(w.db, w'.db);
      forall q | q in w'.procs ensures ProcOrderly(w'.db, w'.procs[q]) {
        assert ProcOrderly(w.db, w.procs[q]);
      }
      forall r | HasStatus(w'.db, r, Recommended) && LatestRun(w'.db, r).Some?
        ensures RunUnbooked(w'.db, LatestRun(w'.db, r).value)
      {
        assert RunUnbooked(w.db, LatestRun(w.db, r).value);
      }
    } else if w' != w {
      CalmStep(w, w', pid, w'.procs[pid]);
    }
  }

  /** `book` up to its clash guard. */
  lemma BookStepOrderly(w: World, pid: Id, m: Move)
    requires Orderly(w) && !m.Start? && (ProcOf(w, pid).BookWaiting? || ProcOf(w, pid).BookValidated?)
    ensures Orderly(Step(w, pid, m))
  {
    hide LifeStep, PlainStep, StartCall, BookCreate, BookPersist;
    hide ConfirmedAmong, LatestAmong, SomeClash, Organiser;
    assert ProcOrderly(w.db, w.procs[pid]) && Staffed(w.db);
    hide Orderly;
    CalmStep(w, Step(w, pid, m), pid, Step(w, pid, m).procs[pid]);
  }

  /** Its calendar event, and the compensation. */
  lemma CalendarStepOrderly(w: World, pid: Id, m: Move)
    requires Orderly(w) && !m.Start?
    requires var p := ProcOf(w, pid); p.BookCleared? || p.BookCompensating? || p.BookUndeleted?
    ensures Orderly(Step(w, pid, m))
  {
    hide LifeStep, PlainStep, StartCall, BookValidate, BookClear, BookPersist;
    hide ConfirmedAmong, LatestAmong, SomeClash, Organiser;
    assert ProcOrderly(w.db, w.procs[pid]) && Staffed(w.db);
    hide Orderly;
    CalmStep(w, Step(w, pid, m), pid, Step(w, pid, m).procs[pid]);
  }

  lemma LifecycleStepOrderly(w: World, pid: Id, m: Move)
    requires Orderly(w) && !m.Start? && (ProcOf(w, pid).LifeLoaded? || ProcOf(w, pid).LifeFetched?)
    ensures Orderly(Step(w, pid, m))
  {
    hide BookStep, PlainStep, StartCall, LifeCommit;
    hide ConfirmedAmong, LatestAmong, SomeClash, Organiser;
    assert Staffed(w.db);
    hide Orderly;
    CalmStep(w, Step(w, pid, m), pid, Step(w, pid, m).procs[pid]);
  }

  lemma CancelStepOrderly(w: World, pid: Id, m: Move)
    requires Orderly(w) && !m.Start? && ProcOf(w, pid).LifeDeleted?
    ensures Orderly(Step(w, pid, m))
  {
    hide BookStep, PlainStep, StartCall, LifeFetch, LifeDelete;
    hide ConfirmedAmong, LatestAmong, SomeClash, Organiser;
    assert Staffed(w.db);
    hide Orderly;
    CalmStep(w, Step(w, pid, m), pid, Step(w, pid, m).procs[pid]);
  }

  /** A status write that neither reopens editing nor puts the request on offer; with `loaded == s`
      nothing is written at all. */
  lemma WriteOrderly(w: World, pid: Id, r: Id, loaded: Status, s: Status, p: Proc)
    requires Orderly(w) && s !in EDITABLE && s != Recommended
    requires p.Idle? || p.GenWaiting? || (p.GenReady? && p.request in w.db.requests)
    ensures Orderly(SetProc(w.(db := WriteStatus(w.db, r, loaded, s)), pid, p))
  {
    assert Staffed(w.db);
    hide Orderly;
    CalmStep(w, SetProc(w.(db := WriteStatus(w.db, r, loaded, s)), pid, p), pid, p);
  }

  lemma StatusStepOrderly(w: World, pid: Id, m: Move)
    requires Orderly(w) && !m.Start?
    requires var p := ProcOf(w, pid);
             p.Retriggering? || p.GenWaiting? || p.Submitting? || p.Recording?
    ensures Orderly(Step(w, pid, m))
  {
    hide Orderly, BookStep, LifeStep, StartCall, GenCommit;
    var next := ProcOf(Step(w, pid, m), pid);
    match ProcOf(w, pid)
    case Retriggering(r) => WriteOrderly(w, pid, r, if m.Go? then Rescheduling else Ready, Ready, next);
    case Submitting(r) => WriteOrderly(w, pid, r, if m.Go? then AwaitingAvailability else Ready, Ready, next);
    case Recording(r, loaded) => WriteOrderly(w, pid, r, if m.Go? then loaded else Completed, Completed, next);
    case GenWaiting(r) => WriteOrderly(w, pid, r, Ready, Ready, next);
  }

  lemma UpdateStepOrderly(w: World, pid: Id, m: Move)
    requires Orderly(w) && !m.Start? && ProcOf(w, pid).Updating?
    ensures Orderly(Step(w, pid, m))
  {
    hide BookStep, LifeStep, StartCall, GenCommit, GenCheck;
    hide ConfirmedAmong, LatestAmong, SomeClash, Organiser;
    assert ProcOrderly(w.db, w.procs[pid]) && Staffed(w.db);
    hide Orderly;
    CalmStep(w, Step(w, pid, m), pid, Step(w, pid, m).procs[pid]);
  }

  lemma LatestOfExtended(runs: seq<RunRow>, row: RunRow, r: Id, n: nat)
    requires n <= |runs|
    ensures LatestAmong(runs + [row], r, n) == LatestAmong(runs, r, n)
  {
  }

  /** Every entry into RECOMMENDED brings a fresh latest run. */
  lemma OffersAfterRecommend(db: Db, r: Id, slots: seq<Interval>)
    requires OfferUnbooked(db) && RowsWellFormed(db)
    ensures var db' := WriteStatus(db, r, Ready, Recommended);
            OfferUnbooked(db'.(runs := db.runs + [RunRow(r, slots)]))
  {
    var db' := WriteStatus(db, r, Ready, Recommended).(runs := db.runs + [RunRow(r, slots)]);
    forall s | HasStatus(db', s, Recommended) && LatestRun(db', s).Some?
      ensures RunUnbooked(db', LatestRun(db', s).value)
    {
      LatestOfExtended(db.runs, RunRow(r, slots), s, |db.runs|);
      assert s != r ==> RunUnbooked(db, LatestRun(db, s).value);
    }
  }

  lemma RecommendOrderly(w: World, pid: Id, r: Id, m: Move)
    requires Orderly(w) && ProcOf(w, pid) == GenReady(r) && !m.Start?
    ensures Orderly(Step(w, pid, m))
  {
    hide BookStep, LifeStep, StartCall, GenCheck, OfferUnbooked, LatestAmong;
    var w' := Step(w, pid, m);
    if !m.Recommend? {
      assert Staffed(w.db);
      CalmStep(w, w', pid, Idle);
    } else {
      assert ProcOrderly(w.db, w.procs[pid]);
      RowsEvolve(w.db, w'.db);
      ProcsStayOrderly(w, w', pid, Idle);
      OffersAfterRecommend(w.db, r, m.slots);
    }
  }

  /** The request that is booked leaves the offer; the other offers are of other runs. */
  lemma OffersAfterCommit(db: Db, db': Db, t: Target, e: Event)
    requires OfferUnbooked(db) && ValidTarget(db, t)
    requires db'.runs == db.runs && db'.events == db.events + [e] && e.run == t.run
    requires forall r :: HasStatus(db', r, Recommended) ==> r != t.request && HasStatus(db, r, Recommended)
    ensures OfferUnbooked(db')
  {
  }

  lemma CommitOrderly(w: World, pid: Id, t: Target, held: Option<Hosted>, m: Move)
    requires Orderly(w) && ProcOf(w, pid) == BookHolding(t, held) && !m.Start?
    ensures Orderly(Step(w, pid, m))
  {
    hide LifeStep, PlainStep, StartCall, BookValidate, BookClear, BookCreate;
    var w' := Step(w, pid, m);
    if !Commits(w, pid, m) {
      CalmStep(w, w', pid, w'.procs[pid]);
    } else {
      var n := |w.db.events|;
      assert t.request in w.db.requests;
      assert Evolves(w.db, w'.db) by {
        assert forall i :: 0 <= i < n ==> w'.db.events[i] == w.db.events[i];
      }
      ProcsStayOrderly(w, w', pid, Idle);
      forall i | 0 <= i <= n ensures PastDraft(w'.db, w'.db.events[i].request) {
        assert i < n ==> PastDraft(w.db, w.db.events[i].request);
      }
      OffersAfterCommit(w.db, w'.db, t, w'.db.events[n]);
    }
  }

  lemma StepKeepsOrderly(w: World, pid: Id, m: Move)
    requires Orderly(w)
    ensures Orderly(Step(w, pid, m))
  {
    var p := ProcOf(w, pid);
    if p.Idle? {
      if m.Start? {
        StartOrderly(w, pid, m.call);
      }
    } else if !m.Start? {
      match p
      case BookHolding(t, held) => CommitOrderly(w, pid, t, held, m);
      case GenReady(r) => RecommendOrderly(w, pid, r, m);
      case LifeLoaded(_, _, _, _) => LifecycleStepOrderly(w, pid, m);
      case LifeFetched(_, _, _, _, _) => LifecycleStepOrderly(w, pid, m);
      case LifeDeleted(_, _, _, _, _, _) => CancelStepOrderly(w, pid, m);
      case Retriggering(_) => StatusStepOrderly(w, pid, m);
      case GenWaiting(_) => StatusStepOrderly(w, pid, m);
      case Submitting(_) => StatusStepOrderly(w, pid, m);
      case Updating(_, _) => UpdateStepOrderly(w, pid, m);
      case Recording(_, _) => StatusStepOrderly(w, pid, m);
      case BookWaiting(_) => BookStepOrderly(w, pid, m);
      case BookValidated(_) => BookStepOrderly(w, pid, m);
      case _ => CalendarStepOrderly(w, pid, m);
    }
  }

  lemma {:induction false} RunKeepsOrderly(w: World, actions: seq<Action>)
    requires Orderly(w)
    ensures Orderly(Run(w, actions))
    decreases |actions|
  {
    if actions != [] {
      StepKeepsOrderly(w, actions[0].pid, actions[0].move);
      RunKeepsOrderly(Step(w, actions[0].pid, actions[0].move), actions[1..]);
    }
  }

  ghost predicate OnOffer(db: Db, t: Target) {
    HasStatus(db, t.request, Recommended) && LatestRun(db, t.request) == Some(t.run)
  }

  /** After any run, under every interleaving, nobody has booked from a run that is on offer. */
  lemma OfferNeverBooked(actions: seq<Action>, t: Target)
    requires OnOffer(Run(Init(), actions).db, t)
    ensures RunUnbooked(Run(Init(), actions).db, t.run)
  {
    RunKeepsOrderly(Init(), actions);
  }

  // ------------------------------------------------------ double booking, exactly

  /** This move inserts a CONFIRMED row. */
  predicate Commits(w: World, pid: Id, m: Move) {
    var p := ProcOf(w, pid);
    p.BookHolding? && m.Go? && ValidTarget(w.db, p.target) && ConfirmedEvent(w.db, p.target.request).None?
  }

  /** This move changes a panel. */
  predicate Updates(w: World, pid: Id, m: Move) {
    var p := ProcOf(w, pid);
    p.Updating? && m.Go? && p.request in w.db.requests
  }

  /** No CONFIRMED interview of the new panel overlaps the request's own. */
  ghost predicate PanelFits(db: Db, r: Id, panel: set<Id>)
    requires r in db.requests
  {
    forall i, j | 0 <= i < |db.events| && 0 <= j < |db.events| ::
      db.events[i].confirmed && db.events[i].request == r ==>
        !Clashes(db, {db.requests[r].candidate} + panel, r, db.events[i].slot, db.events[j])
  }

  /** A booking commits while its clash guard would still pass, or a panel changes without an
      overlap; any other move is harmless. */
  ghost predicate Harmless(w: World, pid: Id, m: Move) {
    var p := ProcOf(w, pid);
    && (Commits(w, pid, m) && p.target.request in w.db.requests ==> !SomeClash(w.db, p.target))
    && (Updates(w, pid, m) ==> PanelFits(w.db, p.request, p.panel))
  }

  /** The row a booking is about to insert, put beside the rows there are. */
  lemma NewRowCollides(db: Db, db': Db, t: Target, e: Event, i: nat)
    requires i < |db.events| && ValidTarget(db, t) && t.request in db.requests
    requires RowsWellFormed(db) && db'.events == db.events + [e]
    requires forall r :: r in db.requests ==> r in db'.requests && People(db'.requests[r]) == People(db.requests[r])
    requires e.confirmed && e.request == t.request && e.slot == db.runs[t.run].slots[t.slot]
    ensures Collide(db', db'.events[i], e) <==>
            Clashes(db, People(db.requests[t.request]), t.request, db.runs[t.run].slots[t.slot], db.events[i])
  {
  }

  /** A booking commit keeps participants free of double booking exactly when the clash guard,
      evaluated at the commit rather than before the calendar call, would still pass. */
  lemma CommitExact(w: World, pid: Id, m: Move)
    requires Orderly(w) && Commits(w, pid, m) && NoDoubleBooking(w.db)
    ensures ProcOf(w, pid).target.request in w.db.requests
    ensures NoDoubleBooking(Step(w, pid, m).db) <==> !SomeClash(w.db, ProcOf(w, pid).target)
  {
    var db, db', t := w.db, Step(w, pid, m).db, ProcOf(w, pid).target;
    var n := |db.events|;
    var e := db'.events[n];
    forall i | 0 <= i < n
      ensures db'.events[i] == db.events[i]
      ensures Collide(db', db'.events[i], e) <==>
              Clashes(db, People(db.requests[t.request]), t.request, db.runs[t.run].slots[t.slot], db.events[i])
    {
      NewRowCollides(db, db', t, e, i);
    }
    if !SomeClash(db, t) {
      forall i, j | 0 <= i < j <= n ensures !Collide(db', db'.events[i], db'.events[j]) {
        if j < n {
          assert !Collide(db, db.events[i], db.events[j]);
        }
      }
    }
  }

  /** A panel change keeps participants free of double booking exactly when no other CONFIRMED
      interview of the new panel overlaps the request's own. */
  lemma UpdateExact(w: World, pid: Id, m: Move)
    requires Updates(w, pid, m) && NoDoubleBooking(w.db)
    ensures NoDoubleBooking(Step(w, pid, m).db) <==>
            PanelFits(w.db, ProcOf(w, pid).request, ProcOf(w, pid).panel)
  {
  }

  /** Rows stay or are cancelled, and whoever is on one of them stays. */
  lemma NothingNew(a: Db, b: Db)
    requires NoDoubleBooking(a) && RowsWellFormed(a)
    requires EventsGrow(a.events, b.events) && |a.events| == |b.events|
    requires forall r :: r in a.requests ==> r in b.requests && People(b.requests[r]) == People(a.requests[r])
    ensures NoDoubleBooking(b)
  {
  }

  lemma SameCount(w: World, pid: Id, m: Move)
    requires !Commits(w, pid, m)
    ensures |Step(w, pid, m).db.events| == |w.db.events|
  {
    hide ConfirmedAmong, LatestAmong, SomeClash, Organiser;
  }

  /** Nobody joins or leaves a request. */
  ghost predicate PeopleKept(a: Db, b: Db) {
    forall r :: r in a.requests ==>
      && r in b.requests && b.requests[r].panel == a.requests[r].panel
      && b.requests[r].candidate == a.requests[r].candidate
  }

  lemma BookKeepsPeople(w: World, pid: Id, m: Move)
    requires InBook(ProcOf(w, pid)) && !m.Start?
    ensures PeopleKept(w.db, Step(w, pid, m).db)
  {
    hide LifeStep, PlainStep, StartCall, ConfirmedAmong, SomeClash, Organiser;
  }

  lemma LifeKeepsPeople(w: World, pid: Id, m: Move)
    requires InLife(ProcOf(w, pid)) && !m.Start?
    ensures PeopleKept(w.db, Step(w, pid, m).db)
  {
    hide BookStep, PlainStep, StartCall, ConfirmedAmong;
  }

  lemma SamePeople(w: World, pid: Id, m: Move)
    requires !Updates(w, pid, m)
    ensures PeopleKept(w.db, Step(w, pid, m).db)
  {
    hide BookStep, LifeStep;
    var p := ProcOf(w, pid);
    if InBook(p) && !m.Start? {
      BookKeepsPeople(w, pid, m);
    } else if InLife(p) && !m.Start? {
      LifeKeepsPeople(w, pid, m);
    }
  }

  lemma StepExact(w: World, pid: Id, m: Move)
    requires Orderly(w) && NoDoubleBooking(w.db)
    ensures NoDoubleBooking(Step(w, pid, m).db) <==> Harmless(w, pid, m)
  {
    if Commits(w, pid, m) {
      CommitExact(w, pid, m);
    } else if Updates(w, pid, m) {
      UpdateExact(w, pid, m);
    } else {
      StepMoved(w, pid, m);
      SameCount(w, pid, m);
      SamePeople(w, pid, m);
      NothingNew(w.db, Step(w, pid, m).db);
    }
  }

  ghost predicate SafeThroughout(w: World, actions: seq<Action>)
    decreases |actions|
  {
    NoDoubleBooking(w.db)
    && (actions != [] ==> SafeThroughout(Step(w, actions[0].pid, actions[0].move), actions[1..]))
  }

  ghost predicate HarmlessRun(w: World, actions: seq<Action>)
    decreases |actions|
  {
    actions == [] ||
    (Harmless(w, actions[0].pid, actions[0].move)
     && HarmlessRun(Step(w, actions[0].pid, actions[0].move), actions[1..]))
  }

  lemma {:induction false} RunExact(w: World, actions: seq<Action>)
    requires Orderly(w) && NoDoubleBooking(w.db)
    ensures SafeThroughout(w, actions) <==> HarmlessRun(w, actions)
    decreases |actions|
  {
    if actions != [] {
      var pid, m := actions[0].pid, actions[0].move;
      StepKeepsOrderly(w, pid, m);
      StepExact(w, pid, m);
      var w' := Step(w, pid, m);
      if NoDoubleBooking(w'.db) {
        RunExact(w', actions[1..]);
      } else {
        assert !SafeThroughout(w', actions[1..]);
      }
    }
  }

  /** Over every run whatsoever: nobody is ever double-booked exactly when each booking commits
      while its clash guard would still pass and each panel change fits. */
  lemma HistoryExact(actions: seq<Action>)
    ensures SafeThroughout(Init(), actions) <==> HarmlessRun(Init(), actions)
  {
    RunExact(Init(), actions);
  }

  lemma {:induction false} SafeAtEnd(w: World, actions: seq<Action>)
    requires SafeThroughout(w, actions)
    ensures NoDoubleBooking(Run(w, actions).db)
    decreases |actions|
  {
    if actions != [] {
      SafeAtEnd(Step(w, actions[0].pid, actions[0].move), actions[1..]);
    }
  }

  // --------------------------------------------------------- serialised bookings

  /** Past the clash guard, before the commit. */
  predicate PastGuard(p: Proc) {
    p.BookCleared? || p.BookHolding?
  }

  /** The targets are of different requests that share somebody, and overlap. */
  predicate Rivals(db: Db, t: Target, u: Target) {
    && ValidTarget(db, t) && ValidTarget(db, u) && t.request in db.requests && u.request in db.requests
    && t.request != u.request && People(db.requests[t.request]) * People(db.requests[u.request]) != {}
    && Overlaps(db.runs[t.run].slots[t.slot], db.runs[u.run].slots[u.slot])
  }

  /** No rival booking is past its guard when a booking commits. */
  ghost predicate Exclusive(w: World, pid: Id, m: Move) {
    Commits(w, pid, m) ==>
      forall q :: q in w.procs && q != pid && PastGuard(w.procs[q]) ==>
        !Rivals(w.db, ProcOf(w, pid).target, w.procs[q].target)
  }

  /** A panel changes only while its request is still editable. */
  predicate Timely(w: World, pid: Id, m: Move) {
    Updates(w, pid, m) ==> w.db.requests[ProcOf(w, pid).request].status in EDITABLE
  }

  ghost predicate SerialisedRun(w: World, actions: seq<Action>)
    decreases |actions|
  {
    actions == [] ||
    (Exclusive(w, actions[0].pid, actions[0].move) && Timely(w, actions[0].pid, actions[0].move)
     && SerialisedRun(Step(w, actions[0].pid, actions[0].move), actions[1..]))
  }

  /** What the guard found still holds. */
  ghost predicate GuardHolds(db: Db, p: Proc) {
    PastGuard(p) ==> PastDraft(db, p.target.request) && ValidTarget(db, p.target) && !SomeClash(db, p.target)
  }

  ghost predicate Guarded(w: World) {
    forall pid :: pid in w.procs ==> GuardHolds(w.db, w.procs[pid])
  }

  lemma GuardKeepsHolding(a: Db, b: Db, p: Proc)
    requires GuardHolds(a, p) && RowsWellFormed(a) && Evolves(a, b)
    requires forall r :: PastDraft(a, r) ==> People(b.requests[r]) == People(a.requests[r])
    requires PastGuard(p) ==> forall i :: |a.events| <= i < |b.events| ==>
               !Clashes(b, People(b.requests[p.target.request]), p.target.request,
                        b.runs[p.target.run].slots[p.target.slot], b.events[i])
    ensures GuardHolds(b, p)
  {
  }

  /** No request disappears, or becomes editable again. */
  ghost predicate NoneReopened(a: Db, b: Db) {
    && (forall r :: r in a.requests ==> r in b.requests)
    && (forall r :: PastDraft(a, r) ==> PastDraft(b, r))
  }

  lemma BookReopensNone(w: World, pid: Id, m: Move)
    requires InBook(ProcOf(w, pid)) && !m.Start?
    ensures NoneReopened(w.db, Step(w, pid, m).db)
  {
    hide LifeStep, PlainStep, StartCall, ConfirmedAmong, SomeClash, Organiser;
  }

  lemma LifeReopensNone(w: World, pid: Id, m: Move)
    requires InLife(ProcOf(w, pid)) && !m.Start?
    ensures NoneReopened(w.db, Step(w, pid, m).db)
  {
    hide BookStep, PlainStep, StartCall, ConfirmedAmong;
  }

  lemma RequestsEvolve(w: World, pid: Id, m: Move)
    ensures NoneReopened(w.db, Step(w, pid, m).db)
  {
    hide BookStep, LifeStep;
    var p := ProcOf(w, pid);
    if InBook(p) && !m.Start? {
      BookReopensNone(w, pid, m);
    } else if InLife(p) && !m.Start? {
      LifeReopensNone(w, pid, m);
    }
  }

  lemma RunsEvolve(w: World, pid: Id, m: Move)
    ensures |w.db.runs| <= |Step(w, pid, m).db.runs|
    ensures forall k :: 0 <= k < |w.db.runs| ==> Step(w, pid, m).db.runs[k] == w.db.runs[k]
  {
    hide ConfirmedAmong, LatestAmong, SomeClash, Organiser;
  }

  lemma StepEvolves(w: World, pid: Id, m: Move)
    ensures Evolves(w.db, Step(w, pid, m).db)
  {
    RequestsEvolve(w, pid, m);
    RunsEvolve(w, pid, m);
    StepMoved(w, pid, m);
  }

  lemma BookGuard(w: World, pid: Id, m: Move)
    requires InBook(ProcOf(w, pid)) && !m.Start?
    requires ProcOrderly(w.db, ProcOf(w, pid)) && GuardHolds(w.db, ProcOf(w, pid))
    ensures GuardHolds(Step(w, pid, m).db, ProcOf(Step(w, pid, m), pid))
  {
    hide LifeStep, PlainStep, StartCall, Organiser;
  }

  lemma OwnGuard(w: World, pid: Id, m: Move)
    requires Orderly(w) && Guarded(w)
    ensures GuardHolds(Step(w, pid, m).db, ProcOf(Step(w, pid, m), pid))
  {
    assert pid in w.procs ==> ProcOrderly(w.db, w.procs[pid]) && GuardHolds(w.db, w.procs[pid]);
    hide BookStep, SomeClash;
    if InBook(ProcOf(w, pid)) && !m.Start? {
      BookGuard(w, pid, m);
    }
  }

  lemma CommitsAppends(w: World, pid: Id, m: Move)
    requires Commits(w, pid, m)
    ensures var t, db := ProcOf(w, pid).target, w.db;
            && Step(w, pid, m).db.runs == db.runs
            && |Step(w, pid, m).db.events| == |db.events| + 1
            && (var e := Step(w, pid, m).db.events[|db.events|];
                e.request == t.request && e.slot == db.runs[t.run].slots[t.slot])
  {
  }

  lemma PeopleStay(w: World, pid: Id, m: Move)
    requires Timely(w, pid, m)
    ensures forall r :: PastDraft(w.db, r) ==>
              r in Step(w, pid, m).db.requests && People(Step(w, pid, m).db.requests[r]) == People(w.db.requests[r])
  {
    if !Updates(w, pid, m) {
      SamePeople(w, pid, m);
    }
  }

  lemma StepGuarded(w: World, pid: Id, m: Move)
    requires Orderly(w) && Guarded(w) && Exclusive(w, pid, m) && Timely(w, pid, m)
    ensures Guarded(Step(w, pid, m))
  {
    var w' := Step(w, pid, m);
    StepEvolves(w, pid, m);
    PeopleStay(w, pid, m);
    OwnGuard(w, pid, m);
    OthersUntouched(w, pid, m);
    if Commits(w, pid, m) {
      CommitsAppends(w, pid, m);
    } else {
      SameCount(w, pid, m);
    }
    hide Step;
    forall q | q in w'.procs ensures GuardHolds(w'.db, w'.procs[q]) {
      if q != pid {
        assert GuardHolds(w.db, w.procs[q]);
        GuardKeepsHolding(w.db, w'.db, w.procs[q]);
      }
    }
  }

  lemma GuardedIsHarmless(w: World, pid: Id, m: Move)
    requires Orderly(w) && Guarded(w) && Timely(w, pid, m)
    ensures Harmless(w, pid, m)
  {
  }

  lemma {:induction false} SerialisedIsHarmless(w: World, actions: seq<Action>)
    requires Orderly(w) && Guarded(w) && SerialisedRun(w, actions)
    ensures HarmlessRun(w, actions)
    decreases |actions|
  {
    if actions != [] {
      var pid, m := actions[0].pid, actions[0].move;
      StepKeepsOrderly(w, pid, m);
      StepGuarded(w, pid, m);
      GuardedIsHarmless(w, pid, m);
      SerialisedIsHarmless(Step(w, pid, m), actions[1..]);
    }
  }

  /** With rival bookings serialised and panels changed only while editable, through any mix of
      other calls, CONFIRMED interviews that share a participant never overlap. */
  lemma HistorySafe(actions: seq<Action>)
    requires SerialisedRun(Init(), actions)
    ensures NoDoubleBooking(Run(Init(), actions).db)
  {
    SerialisedIsHarmless(Init(), actions);
    HistoryExact(actions);
    SafeAtEnd(Init(), actions);
  }

  // ------------------------------------------------------------ runs booked once

  /** Bookings commit only while their run is still on offer. */
  ghost predicate OfferedRun(w: World, actions: seq<Action>)
    decreases |actions|
  {
    actions == [] ||
    ((Commits(w, actions[0].pid, actions[0].move) ==> OnOffer(w.db, ProcOf(w, actions[0].pid).target))
     && OfferedRun(Step(w, actions[0].pid, actions[0].move), actions[1..]))
  }

  predicate Booking(p: Proc) {
    p.BookWaiting? || p.BookValidated? || p.BookCleared? || p.BookHolding?
  }

  /** For each call of `book`, how many rows there were when it looked its slot up. */
  type Lookups = map<Id, nat>

  function LookupOf(looked: Lookups, pid: Id): nat {
    if pid in looked then looked[pid] else 0
  }

  function LookedAfter(w: World, looked: Lookups, pid: Id, m: Move): Lookups {
    if m.Start? && m.call.Book? && ProcOf(w, pid).Idle? then looked[pid := |w.db.events|] else looked
  }

  /** At its lookup, nobody had booked from the call's run. */
  ghost predicate LookedUp(w: World, looked: Lookups, pid: Id) {
    Booking(ProcOf(w, pid)) ==>
      && LookupOf(looked, pid) <= |w.db.events|
      && forall i :: 0 <= i < LookupOf(looked, pid) ==> w.db.events[i].run != ProcOf(w, pid).target.run
  }

  ghost predicate AllLookedUp(w: World, looked: Lookups) {
    forall pid :: LookedUp(w, looked, pid)
  }

  /** A booking commits although another booking from its run has committed since its lookup. */
  ghost predicate Rebooks(w: World, looked: Lookups, pid: Id, m: Move) {
    Commits(w, pid, m) &&
    exists i :: LookupOf(looked, pid) <= i < |w.db.events| && w.db.events[i].run == ProcOf(w, pid).target.run
  }

  /** A commit re-books a run exactly when another booking from that run has committed since the call
      looked it up. */
  lemma RunCommitExact(w: World, looked: Lookups, pid: Id, m: Move)
    requires Commits(w, pid, m) && RunsBookedOnce(w.db) && LookedUp(w, looked, pid)
    ensures RunsBookedOnce(Step(w, pid, m).db) <==> !Rebooks(w, looked, pid, m)
  {
    var db, db', t := w.db, Step(w, pid, m).db, ProcOf(w, pid).target;
    var n := |db.events|;
    assert forall i :: 0 <= i < n ==> db'.events[i] == db.events[i];
    if Rebooks(w, looked, pid, m) {
      var i :| LookupOf(looked, pid) <= i < n && db.events[i].run == t.run;
      assert db'.events[i].run == db'.events[n].run;
    }
  }

  lemma OtherRunsOnce(w: World, pid: Id, m: Move)
    requires RunsBookedOnce(w.db) && !Commits(w, pid, m)
    ensures RunsBookedOnce(Step(w, pid, m).db)
  {
    StepMoved(w, pid, m);
    SameCount(w, pid, m);
  }

  lemma BookLookedUp(w: World, looked: Lookups, pid: Id, m: Move)
    requires InBook(ProcOf(w, pid)) && !m.Start?
    requires Orderly(w) && LookedUp(w, looked, pid)
    ensures LookedUp(Step(w, pid, m), LookedAfter(w, looked, pid, m), pid)
  {
    hide LifeStep, PlainStep, StartCall, Orderly, ConfirmedAmong, SomeClash, Organiser;
  }

  lemma OwnLookedUp(w: World, looked: Lookups, pid: Id, m: Move)
    requires Orderly(w) && LookedUp(w, looked, pid)
    ensures LookedUp(Step(w, pid, m), LookedAfter(w, looked, pid, m), pid)
  {
    hide RowsWellFormed, RunsOwned, Staffed, ConfirmedAmong, SomeClash;
    hide BookStep;
    if InBook(ProcOf(w, pid)) && !m.Start? {
      BookLookedUp(w, looked, pid, m);
    }
  }

  lemma StepLookedUp(w: World, looked: Lookups, pid: Id, m: Move)
    requires Orderly(w) && AllLookedUp(w, looked)
    ensures AllLookedUp(Step(w, pid, m), LookedAfter(w, looked, pid, m))
  {
    StepMoved(w, pid, m);
    OthersUntouched(w, pid, m);
    OwnLookedUp(w, looked, pid, m);
    hide Step;
    forall q ensures LookedUp(Step(w, pid, m), LookedAfter(w, looked, pid, m), q) {
      assert LookedUp(w, looked, q);
    }
  }

  ghost predicate OnceThroughout(w: World, actions: seq<Action>)
    decreases |actions|
  {
    RunsBookedOnce(w.db)
    && (actions != [] ==> OnceThroughout(Step(w, actions[0].pid, actions[0].move), actions[1..]))
  }

  ghost predicate NeverRebooks(w: World, looked: Lookups, actions: seq<Action>)
    decreases |actions|
  {
    actions == [] ||
    (var pid, m := actions[0].pid, actions[0].move;
     !Rebooks(w, looked, pid, m) && NeverRebooks(Step(w, pid, m), LookedAfter(w, looked, pid, m), actions[1..]))
  }

  lemma {:induction false} RunOnceExact(w: World, looked: Lookups, actions: seq<Action>)
    requires Orderly(w) && AllLookedUp(w, looked) && RunsBookedOnce(w.db)
    ensures OnceThroughout(w, actions) <==> NeverRebooks(w, looked, actions)
    decreases |actions|
  {
    if actions != [] {
      var pid, m := actions[0].pid, actions[0].move;
      StepKeepsOrderly(w, pid, m);
      StepLookedUp(w, looked, pid, m);
      if Commits(w, pid, m) {
        assert LookedUp(w, looked, pid);
        RunCommitExact(w, looked, pid, m);
      } else {
        OtherRunsOnce(w, pid, m);
      }
      var w' := Step(w, pid, m);
      if RunsBookedOnce(w'.db) {
        RunOnceExact(w', LookedAfter(w, looked, pid, m), actions[1..]);
      } else {
        assert !OnceThroughout(w', actions[1..]);
      }
    }
  }

  /** Over every run whatsoever: no recommendation run is ever booked twice exactly when no booking
      commits after another one from its run, made since it looked the run up. */
  lemma RunsOnceExact(actions: seq<Action>)
    ensures OnceThroughout(Init(), actions) <==> NeverRebooks(Init(), map[], actions)
  {
    RunOnceExact(Init(), map[], actions);
  }

  lemma StepRunsOnce(w: World, pid: Id, m: Move)
    requires Orderly(w) && RunsBookedOnce(w.db)
    requires Commits(w, pid, m) ==> OnOffer(w.db, ProcOf(w, pid).target)
    ensures RunsBookedOnce(Step(w, pid, m).db)
  {
    if Commits(w, pid, m) {
      var n := |w.db.events|;
      assert forall i :: 0 <= i < n ==> Step(w, pid, m).db.events[i] == w.db.events[i];
    } else {
      OtherRunsOnce(w, pid, m);
    }
  }

  lemma {:induction false} OfferedRunsOnce(w: World, actions: seq<Action>)
    requires Orderly(w) && RunsBookedOnce(w.db) && OfferedRun(w, actions)
    ensures RunsBookedOnce(Run(w, actions).db)
    decreases |actions|
  {
    if actions != [] {
      StepKeepsOrderly(w, actions[0].pid, actions[0].move);
      StepRunsOnce(w, actions[0].pid, actions[0].move);
      OfferedRunsOnce(Step(w, actions[0].pid, actions[0].move), actions[1..]);
    }
  }

  /** Under every interleaving whose bookings commit while still on offer, each recommendation run
      is booked from at most once. */
  lemma EachRunOnce(actions: seq<Action>)
    requires OfferedRun(Init(), actions)
    ensures RunsBookedOnce(Run(Init(), actions).db)
  {
    OfferedRunsOnce(Init(), actions);
  }

  // ------------------------------------------------------------- serial histories

  /** Nobody else is in the middle of a call. */
  ghost predicate Alone(w: World, pid: Id) {
    forall q :: q in w.procs && q != pid ==> w.procs[q].Idle?
  }

  /** Each call runs to its end before the next one starts. */
  ghost predicate SerialRun(w: World, actions: seq<Action>)
    decreases |actions|
  {
    actions == [] ||
    (Alone(w, actions[0].pid) && SerialRun(Step(w, actions[0].pid, actions[0].move), actions[1..]))
  }

  /** What a call has checked, as long as nobody interferes. */
  ghost predicate UpToDate(db: Db, p: Proc) {
    && (p.BookWaiting? || p.BookValidated? || p.BookCleared? || p.BookHolding? ==> OnOffer(db, p.target))
    && (p.Updating? ==> p.request in db.requests && db.requests[p.request].status in EDITABLE)
  }

  ghost predicate AllUpToDate(w: World) {
    forall pid :: pid in w.procs ==> UpToDate(w.db, w.procs[pid])
  }

  lemma BookUpToDate(w: World, pid: Id, m: Move)
    requires InBook(ProcOf(w, pid)) && !m.Start?
    requires UpToDate(w.db, ProcOf(w, pid))
    ensures UpToDate(Step(w, pid, m).db, ProcOf(Step(w, pid, m), pid))
  {
    hide LifeStep, PlainStep, StartCall;
  }

  lemma OwnStepUpToDate(w: World, pid: Id, m: Move)
    requires UpToDate(w.db, ProcOf(w, pid))
    ensures UpToDate(Step(w, pid, m).db, ProcOf(Step(w, pid, m), pid))
  {
    hide BookStep;
    if InBook(ProcOf(w, pid)) && !m.Start? {
      BookUpToDate(w, pid, m);
    }
  }

  lemma AloneStepUpToDate(w: World, pid: Id, m: Move)
    requires AllUpToDate(w) && Alone(w, pid)
    ensures Exclusive(w, pid, m) && Timely(w, pid, m)
    ensures Commits(w, pid, m) ==> OnOffer(w.db, ProcOf(w, pid).target)
    ensures AllUpToDate(Step(w, pid, m))
  {
    assert UpToDate(w.db, ProcOf(w, pid));
    OwnStepUpToDate(w, pid, m);
    OthersUntouched(w, pid, m);
  }

  lemma {:induction false} SerialRunsAreOrdered(w: World, actions: seq<Action>)
    requires AllUpToDate(w) && SerialRun(w, actions)
    ensures SerialisedRun(w, actions) && OfferedRun(w, actions)
    decreases |actions|
  {
    if actions != [] {
      AloneStepUpToDate(w, actions[0].pid, actions[0].move);
      SerialRunsAreOrdered(Step(w, actions[0].pid, actions[0].move), actions[1..]);
    }
  }

  /** In every serial history, across reschedules, declines, cancellations and failed bookings,
      nobody is double-booked and each run is booked from at most once. */
  lemma SerialHistorySafe(actions: seq<Action>)
    requires SerialRun(Init(), actions)
    ensures NoDoubleBooking(Run(Init(), actions).db) && RunsBookedOnce(Run(Init(), actions).db)
  {
    SerialRunsAreOrdered(Init(), actions);
    HistorySafe(actions);
    EachRunOnce(actions);
  }
}
