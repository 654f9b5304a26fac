/** Runs that break what does not hold in general: a participant is double-booked, by two bookings
    or by a late panel change, a run is booked twice, a calendar event is lost. */
module BookingCounterexamples {
  import opened Wrappers
  import opened Intervals
  import opened BookingMachine
  import opened BookingSafety
  import opened BookingConservation
  import opened BookingHistories

  lemma {:induction false} RunAppend(w: World, a: seq<Action>, b: seq<Action>)
    ensures Run(w, a + b) == Run(Run(w, a), b)
    decreases |a|
  {
    if a == [] {
      assert a + b == b;
    } else {
      assert (a + b)[1..] == a[1..] + b;
      RunAppend(Step(w, a[0].pid, a[0].move), a[1..], b);
    }
  }

  /** A run can be continued by one more move. */
  lemma OneMore(w: World, actions: seq<Action>, pid: Id, m: Move) returns (longer: seq<Action>)
    ensures Run(w, longer) == Step(Run(w, actions), pid, m)
  {
    longer := actions + [Action(pid, m)];
    RunAppend(w, actions, [Action(pid, m)]);
    assert Run(Run(w, actions), [Action(pid, m)]) == Run(Step(Run(w, actions), pid, m), []);
  }

  ghost predicate Reachable(w: World) {
    exists actions :: Run(Init(), actions) == w
  }

  ghost predicate TimelyRun(w: World, actions: seq<Action>)
    decreases |actions|
  {
    actions == [] ||
    (Timely(w, actions[0].pid, actions[0].move)
     && TimelyRun(Step(w, actions[0].pid, actions[0].move), actions[1..]))
  }

  /** Reached although every panel change was committed while its request was editable. */
  ghost predicate TimelyReachable(w: World) {
    exists actions :: Run(Init(), actions) == w && TimelyRun(Init(), actions)
  }

  lemma {:induction false} TimelyAppend(w: World, actions: seq<Action>, pid: Id, m: Move)
    requires TimelyRun(w, actions) && Timely(Run(w, actions), pid, m)
    ensures TimelyRun(w, actions + [Action(pid, m)])
    decreases |actions|
  {
    if actions == [] {
      assert actions + [Action(pid, m)] == [Action(pid, m)];
    } else {
      assert (actions + [Action(pid, m)])[1..] == actions[1..] + [Action(pid, m)];
      TimelyAppend(Step(w, actions[0].pid, actions[0].move), actions[1..], pid, m);
    }
  }

  lemma InitReachable()
    ensures Reachable(Init()) && TimelyReachable(Init())
  {
    assert Run(Init(), []) == Init() && TimelyRun(Init(), []);
  }

  lemma Reach(w: World, pid: Id, m: Move)
    requires Reachable(w)
    ensures Reachable(Step(w, pid, m))
    ensures TimelyReachable(w) && Timely(w, pid, m) ==> TimelyReachable(Step(w, pid, m))
  {
    var actions :| Run(Init(), actions) == w;
    var longer := OneMore(Init(), actions, pid, m);
    if TimelyReachable(w) && Timely(w, pid, m) {
      var timely :| Run(Init(), timely) == w && TimelyRun(Init(), timely);
      TimelyAppend(Init(), timely, pid, m);
      RunAppend(Init(), timely, [Action(pid, m)]);
      assert Run(w, [Action(pid, m)]) == Run(Step(w, pid, m), []);
    }
  }

  /** From READY to RECOMMENDED, with one slot. */
  lemma Regenerate(w: World, pid: Id, r: Id, slot: Interval) returns (w': World)
    requires Reachable(w) && ProcOf(w, pid).Idle? && HasStatus(w.db, r, Ready)
    ensures Reachable(w') && (TimelyReachable(w) ==> TimelyReachable(w'))
    ensures w' == SetProc(w.(db := w.db.(requests := w.db.requests[r := w.db.requests[r].(status := Recommended)],
                                         runs := w.db.runs + [RunRow(r, [slot])])), pid, Idle)
  {
    hide BookStep, LifeStep;
    hide Reachable, TimelyReachable;
    var w1 := Step(w, pid, Start(Generate(r)));
    Reach(w, pid, Start(Generate(r)));
    assert w1 == SetProc(w, pid, GenWaiting(r));
    var w2 := Step(w1, pid, Go);
    Reach(w1, pid, Go);
    assert w2 == SetProc(w1, pid, GenReady(r));
    w' := Step(w2, pid, Recommend([slot]));
    Reach(w2, pid, Recommend([slot]));
    assert w'.procs == w.procs[pid := Idle];
  }

  /** From AWAITING to RECOMMENDED: availability, then a recommendation of one slot. */
  lemma PutOnOffer(w: World, pid: Id, r: Id, slot: Interval) returns (w': World)
    requires Reachable(w) && ProcOf(w, pid).Idle? && HasStatus(w.db, r, AwaitingAvailability)
    ensures Reachable(w') && (TimelyReachable(w) ==> TimelyReachable(w'))
    ensures w' == SetProc(w.(db := w.db.(requests := w.db.requests[r := w.db.requests[r].(status := Recommended)],
                                         runs := w.db.runs + [RunRow(r, [slot])])), pid, Idle)
  {
    hide BookStep, LifeStep;
    hide Reachable, TimelyReachable;
    var w1 := Step(w, pid, Start(SubmitAvailability(r)));
    Reach(w, pid, Start(SubmitAvailability(r)));
    var w2 := Step(w1, pid, Go);
    Reach(w1, pid, Go);
    assert w2 == SetProc(w.(db := WriteStatus(w.db, r, AwaitingAvailability, Ready)), pid, Idle);
    w' := Regenerate(w2, pid, r, slot);
    assert w'.procs == w.procs[pid := Idle];
  }

  lemma Create(w: World, pid: Id, r: Id, candidate: Id, panel: set<Id>) returns (w': World)
    requires Reachable(w) && ProcOf(w, pid).Idle? && r !in w.db.requests && panel != {}
    ensures Reachable(w') && (TimelyReachable(w) ==> TimelyReachable(w'))
    ensures w' == w.(db := w.db.(requests := w.db.requests[r := Request(AwaitingAvailability, candidate, panel)]))
  {
    hide BookStep, LifeStep, PlainStep;
    w' := Step(w, pid, Start(CreateRequest(r, candidate, panel, 0)));
    Reach(w, pid, Start(CreateRequest(r, candidate, panel, 0)));
  }

  /** `book` from its validation under the lock to just before its commit, simulated calendar. */
  lemma BookOn(w: World, pid: Id, t: Target) returns (w': World)
    requires Reachable(w) && ProcOf(w, pid) == BookWaiting(t)
    requires HasStatus(w.db, t.request, Recommended) && ConfirmedEvent(w.db, t.request).None?
    requires ValidTarget(w.db, t) && !SomeClash(w.db, t)
    ensures Reachable(w') && w' == SetProc(w, pid, BookHolding(t, None))
  {
    hide StartCall, LifeStep, PlainStep;
    hide Reachable, TimelyReachable;
    var w1 := Step(w, pid, Go);
    Reach(w, pid, Go);
    assert w1 == SetProc(w, pid, BookValidated(t));
    var w2 := Step(w1, pid, Go);
    Reach(w1, pid, Go);
    assert w2 == SetProc(w1, pid, BookCleared(t, Organiser(w.db.requests[t.request].panel)));
    w' := Step(w2, pid, Simulate);
    Reach(w2, pid, Simulate);
    assert w'.procs == w.procs[pid := BookHolding(t, None)];
  }

  /** The same with a real calendar event, on the organiser's calendar. */
  lemma BookReal(w: World, pid: Id, t: Target, h: Id) returns (w': World)
    requires Reachable(w) && ProcOf(w, pid) == BookWaiting(t)
    requires HasStatus(w.db, t.request, Recommended) && ConfirmedEvent(w.db, t.request).None?
    requires ValidTarget(w.db, t) && !SomeClash(w.db, t) && Organiser(w.db.requests[t.request].panel) == Some(h)
    ensures Reachable(w') && (TimelyReachable(w) ==> TimelyReachable(w'))
    ensures var e := Hosted(w.nextCalendarId, h);
            w' == SetProc(w.(calendar := w.calendar + {e}, nextCalendarId := w.nextCalendarId + 1),
                          pid, BookHolding(t, Some(e)))
  {
    hide StartCall, LifeStep, PlainStep;
    hide Reachable, TimelyReachable;
    var w1 := Step(w, pid, Go);
    Reach(w, pid, Go);
    assert w1 == SetProc(w, pid, BookValidated(t));
    var w2 := Step(w1, pid, Go);
    Reach(w1, pid, Go);
    assert w2 == SetProc(w1, pid, BookCleared(t, Some(h)));
    w' := Step(w2, pid, Go);
    Reach(w2, pid, Go);
    assert w'.procs == w.procs[pid := BookHolding(t, Some(Hosted(w.nextCalendarId, h)))];
  }

  lemma CallBook(w: World, pid: Id, t: Target) returns (w': World)
    requires Reachable(w) && ProcOf(w, pid).Idle?
    requires ValidTarget(w.db, t) && OnOffer(w.db, t)
    ensures Reachable(w') && (TimelyReachable(w) ==> TimelyReachable(w'))
    ensures w' == SetProc(w, pid, BookWaiting(t))
  {
    hide BookStep, LifeStep, PlainStep;
    w' := Step(w, pid, Start(Book(t)));
    Reach(w, pid, Start(Book(t)));
  }

  lemma CommitBook(w: World, pid: Id, t: Target, held: Option<Hosted>) returns (w': World)
    requires Reachable(w) && ProcOf(w, pid) == BookHolding(t, held)
    requires ValidTarget(w.db, t) && t.request in w.db.requests && ConfirmedEvent(w.db, t.request).None?
    ensures Reachable(w') && (TimelyReachable(w) ==> TimelyReachable(w'))
    ensures var db := w.db.(requests := w.db.requests[t.request := w.db.requests[t.request].(status := Booked)]);
            var e := Event(t.request, t.run, w.db.runs[t.run].slots[t.slot], IdOf(held), true);
            w' == SetProc(w.(db := db.(events := w.db.events + [e])), pid, Idle)
  {
    hide StartCall, LifeStep, PlainStep;
    w' := Step(w, pid, Go);
    Reach(w, pid, Go);
  }

  const SLOT := Interval(0, 60)
  const EARLY: Target := Target(10, 0, 0)
  const LATE: Target := Target(20, 1, 0)

  /** Requests 10 and 20 both on offer, for the same hour, and nothing booked. */
  ghost predicate TwoOffers(w: World, panel10: set<Id>) {
    && w.db.requests == map[10 := Request(Recommended, 100, panel10), 20 := Request(Recommended, 200, {9})]
    && w.db.runs == [RunRow(10, [SLOT]), RunRow(20, [SLOT])]
    && w.db.events == []
    && ProcOf(w, 1).Idle? && ProcOf(w, 2).Idle?
  }

  lemma TwoRequests(panel10: set<Id>) returns (w: World)
    requires panel10 != {}
    ensures Reachable(w) && w.procs == map[] && w.db.runs == [] && w.db.events == []
    ensures w.db.requests == map[10 := Request(AwaitingAvailability, 100, panel10),
                                 20 := Request(AwaitingAvailability, 200, {9})]
  {
    InitReachable();
    var a := Create(Init(), 1, 10, 100, panel10);
    w := Create(a, 2, 20, 200, {9});
  }

  lemma OfferBoth(w: World, panel10: set<Id>) returns (w': World)
    requires Reachable(w) && w.db.runs == [] && w.db.events == []
    requires w.db.requests == map[10 := Request(AwaitingAvailability, 100, panel10),
                                  20 := Request(AwaitingAvailability, 200, {9})]
    requires ProcOf(w, 1).Idle? && ProcOf(w, 2).Idle?
    ensures Reachable(w') && TwoOffers(w', panel10) && w'.procs == w.procs[1 := Idle][2 := Idle]
  {
    var a := PutOnOffer(w, 1, 10, SLOT);
    w' := PutOnOffer(a, 2, 20, SLOT);
  }

  lemma BothOnOffer(w: World, panel10: set<Id>)
    requires TwoOffers(w, panel10)
    ensures OnOffer(w.db, EARLY) && OnOffer(w.db, LATE) && ValidTarget(w.db, EARLY) && ValidTarget(w.db, LATE)
  {
    assert LatestAmong(w.db.runs, 10, 1) == Some(0);
  }

  /** Two bookings of different requests with a shared panelist, each passing the clash guard
      before the other commits, double-book that panelist. */
  lemma InterleavedBooksCollide() returns (w: World)
    ensures Reachable(w) && !NoDoubleBooking(w.db)
  {
    hide Reachable, TimelyReachable;
    var a := TwoRequests({9});
    var b := OfferBoth(a, {9});
    BothOnOffer(b, {9});
    var c := CallBook(b, 1, EARLY);
    var d := CallBook(c, 2, LATE);
    var e := BookOn(d, 1, EARLY);
    var f := BookOn(e, 2, LATE);
    w := BothCommit(f);
  }

  lemma BothCommit(w: World) returns (w': World)
    requires Reachable(w) && ProcOf(w, 1) == BookHolding(EARLY, None) && ProcOf(w, 2) == BookHolding(LATE, None)
    requires w.db.requests == map[10 := Request(Recommended, 100, {9}), 20 := Request(Recommended, 200, {9})]
    requires w.db.runs == [RunRow(10, [SLOT]), RunRow(20, [SLOT])] && w.db.events == []
    ensures Reachable(w') && !NoDoubleBooking(w'.db)
  {
    var a := CommitBook(w, 1, EARLY, None);
    w' := CommitBook(a, 2, LATE, None);
    assert 9 in People(w'.db.requests[10]) * People(w'.db.requests[20]);
    assert Collide(w'.db, w'.db.events[0], w'.db.events[1]);
  }

  /** A panel change loaded before the candidate answered, committed after the booking, puts a
      panelist into two interviews at once. */
  lemma LatePanelChangeCollides() returns (w: World)
    ensures Reachable(w) && !NoDoubleBooking(w.db)
  {
    hide BookStep, LifeStep, PlainStep;
    hide Reachable, TimelyReachable;
    var a := TwoRequests({8});
    var b := Step(a, 3, Start(UpdatePanel(10, {9})));
    Reach(a, 3, Start(UpdatePanel(10, {9})));
    var c := OfferBoth(b, {8});
    BothOnOffer(c, {8});
    var d := CallBook(c, 1, EARLY);
    var e := BookOn(d, 1, EARLY);
    var f := CommitBook(e, 1, EARLY, None);
    w := BookThenChange(f);
  }

  lemma BookThenChange(w: World) returns (w': World)
    requires Reachable(w) && ProcOf(w, 2).Idle? && ProcOf(w, 3) == Updating(10, {9})
    requires w.db.requests == map[10 := Request(Booked, 100, {8}), 20 := Request(Recommended, 200, {9})]
    requires w.db.runs == [RunRow(10, [SLOT]), RunRow(20, [SLOT])]
    requires w.db.events == [Event(10, 0, SLOT, None, true)]
    ensures Reachable(w') && !NoDoubleBooking(w'.db)
  {
    hide StartCall, BookStep, LifeStep;
    hide Reachable, TimelyReachable;
    var a := CallBook(w, 2, LATE);
    assert People(w.db.requests[10]) == {100, 8} && People(w.db.requests[20]) == {200, 9};
    var b := BookOn(a, 2, LATE);
    var c := CommitBook(b, 2, LATE, None);
    w' := Step(c, 3, Go);
    Reach(c, 3, Go);
    assert 9 in People(w'.db.requests[10]) * People(w'.db.requests[20]);
    assert Collide(w'.db, w'.db.events[0], w'.db.events[1]);
  }

  /** Request 10 created, put on offer and booked, simulated calendar, all by process 1. */
  lemma BookedOnce() returns (w: World)
    ensures Reachable(w) && w.procs == map[1 := Idle]
    ensures w.db.requests == map[10 := Request(Booked, 100, {9})] && w.db.runs == [RunRow(10, [SLOT])]
    ensures w.db.events == [Event(10, 0, SLOT, None, true)]
  {
    hide Reachable, TimelyReachable, Step;
    InitReachable();
    var a := Create(Init(), 1, 10, 100, {9});
    var b := PutOnOffer(a, 1, 10, SLOT);
    assert OnOffer(b.db, EARLY);
    var c := CallBook(b, 1, EARLY);
    var d := BookOn(c, 1, EARLY);
    w := CommitBook(d, 1, EARLY, None);
  }

  /** A reschedule of the booked request 10 by process 2, simulated calendar. */
  lemma RescheduleSimulated(w: World) returns (w': World)
    requires Reachable(w) && ProcOf(w, 2).Idle? && HasStatus(w.db, 10, Booked)
    requires |w.db.events| == 1 && w.db.events[0].request == 10 && w.db.events[0].confirmed
    requires w.db.events[0].calendarId.None?
    ensures Reachable(w')
    ensures var db := w.db.(requests := w.db.requests[10 := w.db.requests[10].(status := Rescheduling)]);
            w' == SetProc(w.(db := db.(events := [w.db.events[0].(confirmed := false)])), 2, Retriggering(10))
  {
    hide BookStep, PlainStep;
    hide Reachable, TimelyReachable;
    var call := Start(Lifecycle(Reschedule, 10, 9));
    var a := Step(w, 2, call);
    Reach(w, 2, call);
    assert a == SetProc(w, 2, LifeLoaded(Reschedule, 10, Booked, Organiser(w.db.requests[10].panel)));
    var b := Step(a, 2, Go);
    Reach(a, 2, Go);
    assert b == SetProc(a, 2, LifeFetched(Reschedule, 10, Booked, Organiser(w.db.requests[10].panel), Some(0)));
    var c := Step(b, 2, Go);
    Reach(b, 2, Go);
    assert c == SetProc(b, 2, LifeDeleted(Reschedule, 10, Booked, Organiser(w.db.requests[10].panel), Some(0), true));
    w' := Step(c, 2, Go);
    Reach(c, 2, Go);
    assert w'.procs == w.procs[2 := Retriggering(10)];
  }

  /** The recommendation that follows a reschedule. */
  lemma RecommendAgain(w: World) returns (w': World)
    requires Reachable(w) && ProcOf(w, 2) == Retriggering(10) && HasStatus(w.db, 10, Rescheduling)
    ensures Reachable(w') && HasStatus(w'.db, 10, Recommended) && w'.procs == w.procs[2 := Idle]
    ensures w'.db.events == w.db.events && w'.db.runs == w.db.runs + [RunRow(10, [SLOT])]
  {
    hide BookStep, LifeStep, StartCall;
    hide Reachable, TimelyReachable;
    var a := Step(w, 2, Go);
    Reach(w, 2, Go);
    assert ProcOf(a, 2) == GenWaiting(10) && HasStatus(a.db, 10, Ready);
    var b := Step(a, 2, Go);
    Reach(a, 2, Go);
    assert b == SetProc(a, 2, GenReady(10));
    w' := Step(b, 2, Recommend([SLOT]));
    Reach(b, 2, Recommend([SLOT]));
    assert w'.procs == w.procs[2 := Idle];
  }

  /** A booking that checked its run before a reschedule and commits after the next
      recommendation books a run that was booked before. */
  lemma StaleRunBookedAgain() returns (w: World)
    ensures Reachable(w) && !RunsBookedOnce(w.db)
  {
    hide Reachable, TimelyReachable, Step;
    var a := BookedWhileWaiting();
    var b := RescheduleSimulated(a);
    var c := RecommendAgain(b);
    w := StaleCommit(c);
  }

  /** Two calls have looked the same slot up; process 2 books it. */
  lemma BookedWhileWaiting() returns (w: World)
    ensures Reachable(w) && w.procs == map[1 := BookWaiting(EARLY), 2 := Idle]
    ensures w.db.requests == map[10 := Request(Booked, 100, {9})] && w.db.runs == [RunRow(10, [SLOT])]
    ensures w.db.events == [Event(10, 0, SLOT, None, true)]
  {
    hide Reachable, TimelyReachable, Step;
    InitReachable();
    var a := Create(Init(), 1, 10, 100, {9});
    var b := PutOnOffer(a, 1, 10, SLOT);
    assert OnOffer(b.db, EARLY);
    var c := CallBook(b, 1, EARLY);
    var d := CallBook(c, 2, EARLY);
    var e := BookOn(d, 2, EARLY);
    w := CommitBook(e, 2, EARLY, None);
  }

  lemma StaleCommit(w: World) returns (w': World)
    requires Reachable(w) && ProcOf(w, 1) == BookWaiting(EARLY) && HasStatus(w.db, 10, Recommended)
    requires |w.db.runs| > 0 && w.db.runs[0] == RunRow(10, [SLOT])
    requires w.db.events == [Event(10, 0, SLOT, None, false)]
    ensures Reachable(w') && !RunsBookedOnce(w'.db)
  {
    hide Reachable, TimelyReachable;
    assert ConfirmedEvent(w.db, 10).None?;
    assert !SomeClash(w.db, EARLY);
    var a := BookOn(w, 1, EARLY);
    w' := CommitBook(a, 1, EARLY, None);
    assert w'.db.events[0].run == w'.db.events[1].run;
  }

  // ------------------------------------------------------------ lost calendar events

  /** Request 10 is booked, with its event on `host`'s calendar. */
  ghost predicate BookedReal(w: World, panel: set<Id>, host: Id) {
    && Reachable(w)
    && w.db.requests == map[10 := Request(Booked, 100, panel)]
    && w.db.events == [Event(10, 0, SLOT, Some(0), true)]
    && w.calendar == {Hosted(0, host)}
    && w.db.openTasks == {} && w.lastResortLog == {}
  }

  /** From AWAITING to BOOKED, by process 1. */
  lemma OfferAndBook(w: World, panel: set<Id>, host: Id) returns (w': World)
    requires Reachable(w) && ProcOf(w, 1).Idle? && Organiser(panel) == Some(host)
    requires w.db == Db(map[10 := Request(AwaitingAvailability, 100, panel)], [], [], {})
    requires w.calendar == {} && w.nextCalendarId == 0 && w.lastResortLog == {}
    ensures BookedReal(w', panel, host) && (TimelyReachable(w) ==> TimelyReachable(w'))
    ensures w'.procs == w.procs[1 := Idle]
  {
    hide Reachable, TimelyReachable, Step;
    var a := PutOnOffer(w, 1, 10, SLOT);
    assert OnOffer(a.db, EARLY);
    var b := CallBook(a, 1, EARLY);
    var c := BookReal(b, 1, EARLY, host);
    w' := CommitBook(c, 1, EARLY, Some(Hosted(0, host)));
    assert w'.procs == w.procs[1 := Idle];
  }

  /** A cancellation through another organiser finds nothing to delete, takes that for success, and
      opens no task. */
  lemma CancelMisses(w: World, panel: set<Id>, host: Id, loaded: Status, other: Id) returns (w': World)
    requires BookedReal(w, panel, host) && host != other && loaded !in TERMINAL
    requires ProcOf(w, 2) == LifeLoaded(Cancel, 10, loaded, Some(other))
    requires forall q :: q in w.procs && q != 2 ==> w.procs[q].Idle?
    ensures Reachable(w') && (TimelyReachable(w) ==> TimelyReachable(w'))
    ensures Hosted(0, host) in w'.calendar && !NoOrphans(w')
  {
    hide StartCall, BookStep, PlainStep;
    hide Reachable, TimelyReachable;
    var a := Step(w, 2, Go);
    Reach(w, 2, Go);
    assert a == SetProc(w, 2, LifeFetched(Cancel, 10, loaded, Some(other), Some(0)));
    var b := Step(a, 2, Go);
    Reach(a, 2, Go);
    assert b == SetProc(a, 2, LifeDeleted(Cancel, 10, loaded, Some(other), Some(0), true));
    w' := Step(b, 2, Go);
    Reach(b, 2, Go);
    assert !Accounted(w', 0);
  }

  lemma OneRequest() returns (w: World)
    ensures Reachable(w) && TimelyReachable(w) && w.procs == map[] && w.calendar == {} && w.nextCalendarId == 0
    ensures w.db == Db(map[10 := Request(AwaitingAvailability, 100, {8})], [], [], {}) && w.lastResortLog == {}
  {
    InitReachable();
    w := Create(Init(), 1, 10, 100, {8});
  }

  /** A panel change that was loaded while the request was editable and commits after the booking
      makes the next cancellation miss the event. */
  lemma LatePanelChangeOrphans() returns (w: World)
    ensures Reachable(w) && Hosted(0, 8) in w.calendar && !NoOrphans(w)
  {
    hide BookStep, LifeStep, PlainStep;
    var a := OneRequest();
    var b := Step(a, 3, Start(UpdatePanel(10, {9})));
    Reach(a, 3, Start(UpdatePanel(10, {9})));
    assert b == SetProc(a, 3, Updating(10, {9}));
    var c := OfferAndBook(b, {8}, 8);
    w := ChangeThenCancel(c);
  }

  lemma ChangeThenCancel(w: World) returns (w': World)
    requires BookedReal(w, {8}, 8) && w.procs == map[3 := Updating(10, {9}), 1 := Idle]
    ensures Reachable(w') && Hosted(0, 8) in w'.calendar && !NoOrphans(w')
  {
    hide BookStep, LifeStep;
    hide Reachable, TimelyReachable;
    var a := Step(w, 3, Go);
    Reach(w, 3, Go);
    assert a.db.requests == map[10 := Request(Booked, 100, {9})];
    var b := Step(a, 2, Start(Lifecycle(Cancel, 10, 0)));
    Reach(a, 2, Start(Lifecycle(Cancel, 10, 0)));
    assert b == SetProc(a, 2, LifeLoaded(Cancel, 10, Booked, Some(9)));
    w' := CancelMisses(b, {9}, 8, Booked, 9);
  }

  /** The same although the panel changed while the request was editable: the cancellation had read
      the old panel before, and took its lock only after the request was booked. */
  lemma EarlyPanelReadOrphans() returns (w: World)
    ensures TimelyReachable(w) && Hosted(0, 9) in w.calendar && !NoOrphans(w)
  {
    var a := OneRequest();
    var b := ReadThenChange(a);
    var c := OfferAndBook(b, {9}, 9);
    w := CancelMisses(c, {9}, 9, AwaitingAvailability, 8);
  }

  lemma ReadThenChange(w: World) returns (w': World)
    requires Reachable(w) && w.procs == map[]
    requires w.db == Db(map[10 := Request(AwaitingAvailability, 100, {8})], [], [], {})
    ensures Reachable(w') && (TimelyReachable(w) ==> TimelyReachable(w'))
    ensures w' == w.(db := w.db.(requests := map[10 := Request(AwaitingAvailability, 100, {9})]), procs := w'.procs)
    ensures w'.procs == map[2 := LifeLoaded(Cancel, 10, AwaitingAvailability, Some(8)), 3 := Idle]
  {
    hide BookStep, LifeStep;
    hide Reachable, TimelyReachable;
    var a := Step(w, 2, Start(Lifecycle(Cancel, 10, 0)));
    Reach(w, 2, Start(Lifecycle(Cancel, 10, 0)));
    assert a == SetProc(w, 2, LifeLoaded(Cancel, 10, AwaitingAvailability, Some(8)));
    var b := Step(a, 3, Start(UpdatePanel(10, {9})));
    Reach(a, 3, Start(UpdatePanel(10, {9})));
    assert b == SetProc(a, 3, Updating(10, {9}));
    w' := Step(b, 3, Go);
    Reach(b, 3, Go);
  }
}
