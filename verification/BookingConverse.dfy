/** Does a CONFIRMED event mean that its request is BOOKED or COMPLETED? The other direction is
    unconditional; this one fails. Declining a COMPLETED interview reopens its request without
    touching the event, which is the only way in serial histories; and a call overtaken by a booking
    can write its status over it. */
module BookingConverse {
  import opened Wrappers
  import opened BookingMachine
  import opened BookingSafety
  import opened BookingHistories
  import opened BookingCounterexamples

  /** Every CONFIRMED row belongs to a BOOKED or COMPLETED request. */
  ghost predicate ConfirmedIsSettled(db: Db) {
    forall i :: 0 <= i < |db.events| && db.events[i].confirmed ==>
      HasStatus(db, db.events[i].request, Booked) || HasStatus(db, db.events[i].request, Completed)
  }

  /** A decline of a COMPLETED request that still has its CONFIRMED row commits. */
  predicate Reopens(w: World, pid: Id, m: Move) {
    var p := ProcOf(w, pid);
    p.LifeDeleted? && p.kind.Decline? && m.Go? && p.loaded == Completed && ConfirmedEvent(w.db, p.request).Some?
  }

  ghost predicate NeverReopens(w: World, actions: seq<Action>)
    decreases |actions|
  {
    actions == [] ||
    (!Reopens(w, actions[0].pid, actions[0].move)
     && NeverReopens(Step(w, actions[0].pid, actions[0].move), actions[1..]))
  }

  /** What a lifecycle call may do with a request it found in status `loaded`. */
  predicate Permits(kind: Kind, loaded: Status) {
    (kind.Reschedule? ==> loaded == Booked) && (kind.Cancel? ==> loaded !in TERMINAL)
  }

  predicate Found(db: Db, kind: Kind, r: Id, loaded: Status, event: Option<nat>) {
    event == if kind.Decline? && loaded != Booked then None else ConfirmedEvent(db, r)
  }

  /** What a session has read is what the tables hold, as long as nobody interferes. */
  predicate Fresh(db: Db, p: Proc) {
    match p
    case LifeLoaded(kind, r, loaded, _) => HasStatus(db, r, loaded) && Permits(kind, loaded)
    case LifeFetched(kind, r, loaded, _, event) =>
      HasStatus(db, r, loaded) && Permits(kind, loaded) && Found(db, kind, r, loaded, event)
    case LifeDeleted(kind, r, loaded, _, event, _) =>
      HasStatus(db, r, loaded) && Permits(kind, loaded) && Found(db, kind, r, loaded, event)
    case Retriggering(r) => HasStatus(db, r, Rescheduling)
    case GenReady(r) => HasStatus(db, r, Ready)
    case Submitting(r) => HasStatus(db, r, AwaitingAvailability)
    case Recording(r, loaded) => HasStatus(db, r, loaded) && loaded in {Booked, Completed}
    case _ => true
  }

  lemma OwnStepFresh(w: World, pid: Id, m: Move)
    requires Fresh(w.db, ProcOf(w, pid))
    ensures Fresh(Step(w, pid, m).db, ProcOf(Step(w, pid, m), pid))
  {
  }

  /** A commit writes a status other than BOOKED or COMPLETED over a request that keeps its CONFIRMED
      row: a cancellation that cancels another row or none, a retrigger, a generation or a submission
      that was overtaken by a booking. */
  predicate Unsettles(w: World, pid: Id, m: Move) {
    match ProcOf(w, pid)
    case LifeDeleted(kind, r, loaded, _, event, _) =>
      m.Go? && NewStatus(kind, loaded) != loaded
      && ConfirmedEvent(w.db, r).Some? && event != ConfirmedEvent(w.db, r)
    case Retriggering(r) => m.Go? && ConfirmedEvent(w.db, r).Some?
    case GenReady(r) => (m.Recommend? || m.Fail?) && ConfirmedEvent(w.db, r).Some?
    case Submitting(r) => m.Go? && ConfirmedEvent(w.db, r).Some?
    case _ => false
  }

  lemma CancelSettled(w: World, pid: Id, m: Move)
    requires Sound(w) && ConfirmedIsSettled(w.db) && ProcOf(w, pid).LifeDeleted? && !m.Start?
    ensures ConfirmedIsSettled(Step(w, pid, m).db) <==> !Unsettles(w, pid, m)
  {
    hide BookStep, PlainStep, StartCall;
    var db, db', p := w.db, Step(w, pid, m).db, ProcOf(w, pid);
    assert ProcSound(w, w.procs[pid]);
    if m.Go? {
      var found := ConfirmedEvent(db, p.request);
      if Unsettles(w, pid, m) {
        assert db'.events[found.value] == db.events[found.value];
        assert HasStatus(db', p.request, NewStatus(p.kind, p.loaded));
      } else if NewStatus(p.kind, p.loaded) != p.loaded {
        forall i | 0 <= i < |db'.events| && db'.events[i].confirmed
          ensures db'.events[i] == db.events[i] && db.events[i].request != p.request
        {
        }
      }
    }
  }

  lemma BookSettled(w: World, pid: Id, m: Move)
    requires Orderly(w) && ConfirmedIsSettled(w.db) && ProcOf(w, pid).BookHolding? && !m.Start?
    ensures ConfirmedIsSettled(Step(w, pid, m).db)
  {
    hide LifeStep, PlainStep, StartCall;
  }

  /** A status write over request r, and nothing else that matters. */
  lemma WriteSettled(a: Db, b: Db, r: Id, loaded: Status, s: Status)
    requires ConfirmedIsSettled(a) && b.events == a.events && b.requests == WriteStatus(a, r, loaded, s).requests
    requires loaded != s && s !in {Booked, Completed}
    ensures ConfirmedIsSettled(b) <==> ConfirmedEvent(a, r).None?
  {
  }

  lemma StatusSettled(w: World, pid: Id, m: Move)
    requires ConfirmedIsSettled(w.db) && !m.Start?
    requires var p := ProcOf(w, pid); p.Retriggering? || p.GenReady? || p.Submitting?
    ensures ConfirmedIsSettled(Step(w, pid, m).db) <==> !Unsettles(w, pid, m)
  {
    hide BookStep, LifeStep, StartCall;
    hide ConfirmedIsSettled, ConfirmedEvent;
    var a, b := w.db, Step(w, pid, m).db;
    match ProcOf(w, pid)
    case Retriggering(r) => if m.Go? { WriteSettled(a, b, r, Rescheduling, Ready); }
    case Submitting(r) => if m.Go? { WriteSettled(a, b, r, AwaitingAvailability, Ready); }
    case GenReady(r) =>
      if m.Recommend? { WriteSettled(a, b, r, Ready, Recommended); }
      if m.Fail? { WriteSettled(a, b, r, Ready, Failed); }
  }

  lemma OtherSettled(w: World, pid: Id, m: Move)
    requires ConfirmedIsSettled(w.db)
    requires var p := ProcOf(w, pid);
             !p.LifeDeleted? && !p.BookHolding? && !p.Retriggering? && !p.GenReady? && !p.Submitting?
    ensures ConfirmedIsSettled(Step(w, pid, m).db)
  {
    assert Step(w, pid, m).db.events == w.db.events;
  }

  /** Exactly which steps break it, under every interleaving. */
  lemma SettledExact(w: World, pid: Id, m: Move)
    requires Sound(w) && Orderly(w) && ConfirmedIsSettled(w.db)
    ensures ConfirmedIsSettled(Step(w, pid, m).db) <==> m.Start? || !Unsettles(w, pid, m)
  {
    var p := ProcOf(w, pid);
    if m.Start? && !p.Idle? {
      assert Step(w, pid, m) == w;
    } else if p.LifeDeleted? {
      CancelSettled(w, pid, m);
    } else if p.BookHolding? {
      BookSettled(w, pid, m);
    } else if p.Retriggering? || p.GenReady? || p.Submitting? {
      StatusSettled(w, pid, m);
    } else {
      OtherSettled(w, pid, m);
    }
  }

  ghost predicate SettledThroughout(w: World, actions: seq<Action>)
    decreases |actions|
  {
    ConfirmedIsSettled(w.db)
    && (actions != [] ==> SettledThroughout(Step(w, actions[0].pid, actions[0].move), actions[1..]))
  }

  ghost predicate NeverUnsettles(w: World, actions: seq<Action>)
    decreases |actions|
  {
    actions == [] ||
    ((actions[0].move.Start? || !Unsettles(w, actions[0].pid, actions[0].move))
     && NeverUnsettles(Step(w, actions[0].pid, actions[0].move), actions[1..]))
  }

  lemma {:induction false} RunSettledExact(w: World, actions: seq<Action>)
    requires Sound(w) && Orderly(w) && ConfirmedIsSettled(w.db)
    ensures SettledThroughout(w, actions) <==> NeverUnsettles(w, actions)
    decreases |actions|
  {
    if actions != [] {
      var pid, m := actions[0].pid, actions[0].move;
      StepKeepsSound(w, pid, m);
      StepKeepsOrderly(w, pid, m);
      SettledExact(w, pid, m);
      var w' := Step(w, pid, m);
      if ConfirmedIsSettled(w'.db) {
        RunSettledExact(w', actions[1..]);
      } else {
        assert !SettledThroughout(w', actions[1..]);
      }
    }
  }

  /** Over every run whatsoever: CONFIRMED events always belong to BOOKED or COMPLETED requests exactly
      when no such commit is made. */
  lemma ConverseExact(actions: seq<Action>)
    ensures SettledThroughout(Init(), actions) <==> NeverUnsettles(Init(), actions)
  {
    RunSettledExact(Init(), actions);
  }

  /** In a serial history what a session has read is up to date, and only the decline is left. */
  lemma FreshUnsettles(w: World, pid: Id, m: Move)
    requires Sound(w) && ConfirmedIsSettled(w.db) && Fresh(w.db, ProcOf(w, pid)) && !m.Start?
    ensures Unsettles(w, pid, m) <==> Reopens(w, pid, m)
  {
  }

  lemma SerialSettledExact(w: World, pid: Id, m: Move)
    requires Sound(w) && Orderly(w) && ConfirmedIsSettled(w.db) && Fresh(w.db, ProcOf(w, pid))
    ensures ConfirmedIsSettled(Step(w, pid, m).db) <==> !Reopens(w, pid, m)
  {
    hide Unsettles;
    SettledExact(w, pid, m);
    if !m.Start? {
      FreshUnsettles(w, pid, m);
    }
  }

  ghost predicate AllFresh(w: World) {
    forall pid :: pid in w.procs ==> Fresh(w.db, w.procs[pid])
  }

  lemma AloneStepFresh(w: World, pid: Id, m: Move)
    requires AllFresh(w) && Alone(w, pid)
    ensures AllFresh(Step(w, pid, m))
  {
    OwnStepFresh(w, pid, m);
    OthersUntouched(w, pid, m);
  }

  lemma {:induction false} SerialRunSettled(w: World, actions: seq<Action>)
    requires Sound(w) && Orderly(w) && AllFresh(w) && ConfirmedIsSettled(w.db)
    requires SerialRun(w, actions) && NeverReopens(w, actions)
    ensures ConfirmedIsSettled(Run(w, actions).db)
    decreases |actions|
  {
    if actions != [] {
      var pid, m := actions[0].pid, actions[0].move;
      StepKeepsSound(w, pid, m);
      StepKeepsOrderly(w, pid, m);
      AloneStepFresh(w, pid, m);
      SerialSettledExact(w, pid, m);
      SerialRunSettled(Step(w, pid, m), actions[1..]);
    }
  }

  /** In every serial history in which no COMPLETED interview with a CONFIRMED event is declined,
      each CONFIRMED event belongs to a BOOKED or COMPLETED request. */
  lemma SerialHistorySettled(actions: seq<Action>)
    requires SerialRun(Init(), actions) && NeverReopens(Init(), actions)
    ensures ConfirmedIsSettled(Run(Init(), actions).db)
  {
    SerialRunSettled(Init(), actions);
  }

  /** The calls book, record outcome, decline, one after the other: the request is READY again
      although its event is still CONFIRMED. */
  lemma DeclineReopensCompleted() returns (w: World)
    ensures Reachable(w) && !ConfirmedIsSettled(w.db)
    ensures HasStatus(w.db, 10, Ready) && ConfirmedEvent(w.db, 10).Some?
  {
    hide Reachable, TimelyReachable;
    var booked := BookedOnce();
    w := CompleteThenDecline(booked);
  }

  lemma CompleteThenDecline(w: World) returns (w': World)
    requires Reachable(w) && ProcOf(w, 1).Idle? && ProcOf(w, 3).Idle?
    requires HasStatus(w.db, 10, Booked) && w.db.requests[10].panel == {9}
    requires w.db.events == [Event(10, 0, SLOT, None, true)]
    ensures Reachable(w') && !ConfirmedIsSettled(w'.db)
    ensures HasStatus(w'.db, 10, Ready) && ConfirmedEvent(w'.db, 10).Some?
  {
    hide BookStep, LifeStep;
    hide Reachable, TimelyReachable;
    var a := Step(w, 1, Start(Call.RecordOutcome(10)));
    Reach(w, 1, Start(Call.RecordOutcome(10)));
    assert ProcOf(a, 1) == Recording(10, Booked);
    var b := Step(a, 1, Go);
    Reach(a, 1, Go);
    assert HasStatus(b.db, 10, Completed) && b.db.events == w.db.events;
    w' := DeclineUnbooked(b, Completed);
    assert w'.db.events[0].confirmed;
  }

  /** A decline of a request that is neither BOOKED nor READY, by process 3. */
  lemma DeclineUnbooked(w: World, loaded: Status) returns (w': World)
    requires Reachable(w) && ProcOf(w, 3).Idle? && HasStatus(w.db, 10, loaded) && loaded !in {Booked, Ready}
    requires w.db.requests[10].panel == {9}
    ensures Reachable(w')
    ensures var requests := w.db.requests[10 := w.db.requests[10].(status := Ready)];
            w' == SetProc(w.(db := w.db.(requests := requests)), 3, Idle)
  {
    hide BookStep, PlainStep;
    hide Reachable, TimelyReachable;
    var call := Start(Lifecycle(Decline, 10, 9));
    var a := Step(w, 3, call);
    Reach(w, 3, call);
    assert a == SetProc(w, 3, LifeLoaded(Decline, 10, loaded, Some(9)));
    var b := Step(a, 3, Go);
    Reach(a, 3, Go);
    assert b == SetProc(a, 3, LifeFetched(Decline, 10, loaded, Some(9), None));
    var c := Step(b, 3, Go);
    Reach(b, 3, Go);
    assert c == SetProc(b, 3, LifeDeleted(Decline, 10, loaded, Some(9), None, true));
    w' := Step(c, 3, Go);
    Reach(c, 3, Go);
    assert w'.procs == w.procs[3 := Idle];
  }

  /** A reschedule is about to retrigger; a decline, a recommendation and a booking overtake it, and it
      writes READY over the booked request. */
  lemma RetriggerUnsettles() returns (w: World)
    ensures Reachable(w) && !ConfirmedIsSettled(w.db)
    ensures HasStatus(w.db, 10, Ready) && ConfirmedEvent(w.db, 10).Some?
  {
    hide Reachable, TimelyReachable, Step;
    var e := BookedOnce();
    var f := RescheduleSimulated(e);
    var g := DeclineUnbooked(f, Rescheduling);
    w := Overtaken(g);
  }

  lemma Overtaken(w: World) returns (w': World)
    requires Reachable(w) && ProcOf(w, 1).Idle? && ProcOf(w, 3).Idle? && ProcOf(w, 2) == Retriggering(10)
    requires HasStatus(w.db, 10, Ready) && w.db.runs == [RunRow(10, [SLOT])]
    requires w.db.events == [Event(10, 0, SLOT, None, false)]
    ensures Reachable(w') && !ConfirmedIsSettled(w'.db)
    ensures HasStatus(w'.db, 10, Ready) && ConfirmedEvent(w'.db, 10).Some?
  {
    hide Reachable, TimelyReachable, StartCall, BookStep, LifeStep;
    var a := BookedMeanwhile(w);
    w' := Step(a, 2, Go);
    Reach(a, 2, Go);
    assert w'.db.events[1].confirmed && HasStatus(w'.db, 10, Ready);
  }

  /** A second recommendation, by process 3, is booked by process 1. */
  lemma BookedMeanwhile(w: World) returns (w': World)
    requires Reachable(w) && ProcOf(w, 1).Idle? && ProcOf(w, 3).Idle? && ProcOf(w, 2) == Retriggering(10)
    requires HasStatus(w.db, 10, Ready) && w.db.runs == [RunRow(10, [SLOT])]
    requires w.db.events == [Event(10, 0, SLOT, None, false)]
    ensures Reachable(w') && ProcOf(w', 2) == Retriggering(10) && HasStatus(w'.db, 10, Booked)
    ensures w'.db.events == [Event(10, 0, SLOT, None, false), Event(10, 1, SLOT, None, true)]
  {
    hide Reachable, TimelyReachable, Step;
    var t := Target(10, 1, 0);
    var a := Regenerate(w, 3, 10, SLOT);
    assert OnOffer(a.db, t) && !SomeClash(a.db, t);
    var b := CallBook(a, 1, t);
    var c := BookOn(b, 1, t);
    w' := CommitBook(c, 1, t, None);
  }
}
