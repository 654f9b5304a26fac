/** When lifecycle deletes reach the calendar that holds the event: when a panel changes only while
    its request is editable and no lifecycle call that has read the old panel is still to delete.
    Serial histories are such. */
module BookingHosts {
  import opened Wrappers
  import opened Intervals
  import opened BookingMachine
  import opened BookingSafety
  import opened BookingConservation
  import opened BookingHistories

  /** The call has read the panel and not yet sent its delete. */
  predicate AwaitsDelete(p: Proc) {
    p.LifeLoaded? || p.LifeFetched?
  }

  ghost predicate SettledUpdate(w: World, pid: Id, m: Move) {
    Updates(w, pid, m) ==>
      && Timely(w, pid, m)
      && forall q :: q in w.procs && AwaitsDelete(w.procs[q]) ==> w.procs[q].request != ProcOf(w, pid).request
  }

  ghost predicate SettledRun(w: World, actions: seq<Action>)
    decreases |actions|
  {
    actions == [] ||
    (SettledUpdate(w, actions[0].pid, actions[0].move)
     && SettledRun(Step(w, actions[0].pid, actions[0].move), actions[1..]))
  }

  ghost predicate HostIs(db: Db, r: Id, host: Option<Id>) {
    r in db.requests && Organiser(db.requests[r].panel) == host
  }

  /** The organiser a process knows is that of the request's panel as it is. */
  ghost predicate ProcHost(db: Db, p: Proc) {
    && (p.BookCleared? ==> HostIs(db, p.target.request, p.host))
    && (p.BookHolding? && p.held.Some? ==> HostIs(db, p.target.request, Some(p.held.value.host)))
    && (AwaitsDelete(p) ==> HostIs(db, p.request, p.host))
  }

  ghost predicate RowHost(w: World, i: nat)
    requires i < |w.db.events|
  {
    forall e :: e in w.calendar && w.db.events[i].calendarId == Some(e.id) ==>
      HostIs(w.db, w.db.events[i].request, Some(e.host))
  }

  ghost predicate HostsKnown(w: World) {
    && (forall i :: 0 <= i < |w.db.events| ==> RowHost(w, i))
    && (forall pid :: pid in w.procs ==> ProcHost(w.db, w.procs[pid]))
  }

  /** Whose panel a step leaves alone. */
  ghost predicate PanelKept(a: Db, b: Db, r: Id) {
    r in a.requests ==> r in b.requests && b.requests[r].panel == a.requests[r].panel
  }

  lemma PanelsKept(w: World, pid: Id, m: Move, r: Id)
    requires Updates(w, pid, m) ==> ProcOf(w, pid).request != r
    ensures PanelKept(w.db, Step(w, pid, m).db, r)
  {
    if !Updates(w, pid, m) {
      SamePeople(w, pid, m);
    }
  }

  lemma BookOwnHost(w: World, pid: Id, m: Move)
    requires InBook(ProcOf(w, pid)) && !m.Start? && ProcHost(w.db, ProcOf(w, pid))
    ensures ProcHost(Step(w, pid, m).db, ProcOf(Step(w, pid, m), pid))
  {
    hide LifeStep, PlainStep, StartCall, ConfirmedAmong, SomeClash;
  }

  lemma LifeOwnHost(w: World, pid: Id, m: Move)
    requires InLife(ProcOf(w, pid)) && !m.Start? && ProcHost(w.db, ProcOf(w, pid))
    ensures ProcHost(Step(w, pid, m).db, ProcOf(Step(w, pid, m), pid))
  {
    hide BookStep, PlainStep, StartCall, ConfirmedAmong, SomeClash, Organiser;
  }

  lemma OwnHost(w: World, pid: Id, m: Move)
    requires HostsKnown(w)
    ensures ProcHost(Step(w, pid, m).db, ProcOf(Step(w, pid, m), pid))
  {
    hide BookStep, LifeStep;
    var p := ProcOf(w, pid);
    assert ProcHost(w.db, p);
    if InBook(p) && !m.Start? {
      BookOwnHost(w, pid, m);
    } else if InLife(p) && !m.Start? {
      LifeOwnHost(w, pid, m);
    }
  }

  lemma OtherHost(w: World, pid: Id, m: Move, q: Id)
    requires Orderly(w) && HostsKnown(w) && SettledUpdate(w, pid, m) && q in w.procs
    ensures ProcHost(Step(w, pid, m).db, w.procs[q])
  {
    var p := w.procs[q];
    assert ProcHost(w.db, p) && ProcOrderly(w.db, p);
    if p.BookCleared? || p.BookHolding? {
      PanelsKept(w, pid, m, p.target.request);
    } else if AwaitsDelete(p) {
      PanelsKept(w, pid, m, p.request);
    }
  }

  lemma OldRowHost(w: World, pid: Id, m: Move, i: nat)
    requires Sound(w) && Orderly(w) && HostsKnown(w) && SettledUpdate(w, pid, m) && i < |w.db.events|
    ensures i < |Step(w, pid, m).db.events| && RowHost(Step(w, pid, m), i)
  {
    StepMoved(w, pid, m);
    var r := w.db.events[i].request;
    assert PastDraft(w.db, r) && RowHost(w, i);
    PanelsKept(w, pid, m, r);
  }

  lemma NewRowHost(w: World, pid: Id, m: Move)
    requires Sound(w) && HostsKnown(w) && Commits(w, pid, m)
    ensures |Step(w, pid, m).db.events| == |w.db.events| + 1
    ensures RowHost(Step(w, pid, m), |w.db.events|)
  {
  }

  lemma StepHostsKnown(w: World, pid: Id, m: Move)
    requires Sound(w) && Orderly(w) && HostsKnown(w) && SettledUpdate(w, pid, m)
    ensures HostsKnown(Step(w, pid, m))
  {
    var w' := Step(w, pid, m);
    forall i | 0 <= i < |w'.db.events| ensures RowHost(w', i) {
      if i < |w.db.events| {
        OldRowHost(w, pid, m, i);
      } else {
        if !Commits(w, pid, m) {
          SameCount(w, pid, m);
        }
        NewRowHost(w, pid, m);
      }
    }
    OthersUntouched(w, pid, m);
    forall q | q in w'.procs ensures ProcHost(w'.db, w'.procs[q]) {
      if q == pid {
        OwnHost(w, pid, m);
      } else {
        OtherHost(w, pid, m, q);
      }
    }
  }

  lemma KnownIsAddressed(w: World, pid: Id, m: Move)
    requires Sound(w) && HostsKnown(w)
    ensures !Misaddressed(w, pid, m)
  {
    var p := ProcOf(w, pid);
    if p.LifeFetched? && p.event.Some? {
      assert ProcSound(w, p) && ProcHost(w.db, p);
      assert RowHost(w, p.event.value);
    }
  }

  lemma {:induction false} SettledIsAddressed(w: World, actions: seq<Action>)
    requires Sound(w) && Orderly(w) && HostsKnown(w) && SettledRun(w, actions)
    ensures AddressedRun(w, actions)
    decreases |actions|
  {
    if actions != [] {
      var pid, m := actions[0].pid, actions[0].move;
      StepKeepsSound(w, pid, m);
      StepKeepsOrderly(w, pid, m);
      KnownIsAddressed(w, pid, m);
      StepHostsKnown(w, pid, m);
      SettledIsAddressed(Step(w, pid, m), actions[1..]);
    }
  }

  lemma {:induction false} SettledHostsKnown(w: World, actions: seq<Action>)
    requires Sound(w) && Orderly(w) && HostsKnown(w) && SettledRun(w, actions)
    ensures HostsKnown(Run(w, actions))
    decreases |actions|
  {
    if actions != [] {
      StepKeepsSound(w, actions[0].pid, actions[0].move);
      StepKeepsOrderly(w, actions[0].pid, actions[0].move);
      StepHostsKnown(w, actions[0].pid, actions[0].move);
      SettledHostsKnown(Step(w, actions[0].pid, actions[0].move), actions[1..]);
    }
  }

  /** No silently orphaned calendar event, over every run whose panels change only while their
      request is editable and no lifecycle call on it is in between. */
  lemma SettledNoOrphan(actions: seq<Action>, e: Hosted)
    requires SettledRun(Init(), actions) && e in Run(Init(), actions).calendar
    ensures Accounted(Run(Init(), actions), e.id)
  {
    SettledIsAddressed(Init(), actions);
    NoSilentOrphan(actions, e);
  }

  lemma {:induction false} SerialIsSettled(w: World, actions: seq<Action>)
    requires AllUpToDate(w) && SerialRun(w, actions)
    ensures SettledRun(w, actions)
    decreases |actions|
  {
    if actions != [] {
      AloneStepUpToDate(w, actions[0].pid, actions[0].move);
      SerialIsSettled(Step(w, actions[0].pid, actions[0].move), actions[1..]);
    }
  }

  /** In every serial history, whatever fails in it, no calendar event is silently orphaned. */
  lemma SerialNoOrphan(actions: seq<Action>, e: Hosted)
    requires SerialRun(Init(), actions) && e in Run(Init(), actions).calendar
    ensures Accounted(Run(Init(), actions), e.id)
  {
    SerialIsSettled(Init(), actions);
    SettledNoOrphan(actions, e);
  }
}
