/** The booking and lifecycle protocol as an interleaving of calls. Each call is a process with a
    program counter, the values its session has read, and atomic commits. A step takes the world,
    the process that moves, and the outcome its environment hands it; it is a total function, so
    every sequence of moves is a run. Locks are left free to be held, expired or absent: a process
    may pass its lock at any time, or fail to. */
module BookingMachine {
  import opened Wrappers
  import opened Intervals

  type Id = nat

  datatype Status =
    | Draft | AwaitingAvailability | Ready | Recommended | Booked | Completed | Rescheduling | Failed | Cancelled

  datatype Request = Request(status: Status, candidate: Id, panel: set<Id>)

  /** One recommendation run and the slots it offered. */
  datatype RunRow = RunRow(request: Id, slots: seq<Interval>)

  /** An interview_events row; a simulated booking has no calendar event. */
  datatype Event = Event(request: Id, run: Id, slot: Interval, calendarId: Option<Id>, confirmed: bool)

  datatype Db = Db(requests: map<Id, Request>, runs: seq<RunRow>, events: seq<Event>, openTasks: set<Id>)

  /** What a caller of `book` names: a slot of a run of a request. */
  datatype Target = Target(request: Id, run: Id, slot: nat)

  datatype Kind = Decline | Reschedule | Cancel

  /** An event in the external calendar, and the user on whose calendar it was created. */
  datatype Hosted = Hosted(id: Id, host: Id)

  /** A `host` is the organiser of the panel the session has read: the code stores no organiser,
      it takes the first panelist each time. */
  datatype Proc =
    | Idle
    | BookWaiting(target: Target)
    | BookValidated(target: Target)
    | BookCleared(target: Target, host: Option<Id>)
    | BookHolding(target: Target, held: Option<Hosted>)
    | BookCompensating(orphan: Hosted)
    | BookUndeleted(orphan: Hosted)
    | LifeLoaded(kind: Kind, request: Id, loaded: Status, host: Option<Id>)
    | LifeFetched(kind: Kind, request: Id, loaded: Status, host: Option<Id>, event: Option<nat>)
    | LifeDeleted(kind: Kind, request: Id, loaded: Status, host: Option<Id>, event: Option<nat>, deleted: bool)
    | Retriggering(request: Id)
    | GenWaiting(request: Id)
    | GenReady(request: Id)
    | Submitting(request: Id)
    | Updating(request: Id, panel: set<Id>)
    | Recording(request: Id, loaded: Status)

  datatype Call =
    | CreateRequest(request: Id, candidate: Id, panel: set<Id>, creator: Id)
    | SubmitAvailability(request: Id)
    | UpdatePanel(request: Id, panel: set<Id>)
    | Generate(request: Id)
    | Book(target: Target)
    | Lifecycle(kind: Kind, request: Id, actor: Id)
    | RecordOutcome(request: Id)

  datatype Move =
    | Start(call: Call)          // a new call begins
    | Go                         // the step succeeds
    | GoRefreshed                // it succeeds, and the session happens to re-read the row
    | Simulate                   // the simulated calendar stands in for the real one
    | Recommend(slots: seq<Interval>) // the engine found these slots
    | Fail                       // the step fails in the way the code handles
    | Abort                      // it fails in a way the code does not handle

  datatype World = World(
    db: Db,
    calendar: set<Hosted>,  // events that exist in the external calendar
    nextCalendarId: Id,
    lastResortLog: set<Id>, // events only a critical log line remembers
    procs: map<Id, Proc>)

  datatype Action = Action(pid: Id, move: Move)

  const TERMINAL: set<Status> := {Cancelled, Completed}
  const EDITABLE: set<Status> := {Draft, AwaitingAvailability}

  function Init(): World {
    World(Db(map[], [], [], {}), {}, 0, {}, map[])
  }

  // ------------------------------------------------------------------- queries

  ghost predicate IsLeast(x: Id, s: set<Id>) {
    x in s && forall y :: y in s ==> x <= y
  }

  lemma {:induction false} LeastExists(s: set<Id>)
    requires s != {}
    ensures exists x :: IsLeast(x, s)
  {
    var y :| y in s;
    if s == {y} {
      assert IsLeast(y, s);
    } else {
      LeastExists(s - {y});
      var m :| IsLeast(m, s - {y});
      assert forall x :: x in s ==> x == y || x in s - {y};
      assert IsLeast(if y < m then y else m, s);
    }
  }

  /** The panelist with the least id hosts the event; nobody, if there is no panelist. */
  function Organiser(panel: set<Id>): (host: Option<Id>)
    ensures host.None? <==> panel == {}
    ensures host.Some? ==> IsLeast(host.value, panel)
  {
    if panel == {} then None
    else
      LeastExists(panel);
      assert exists h :: IsLeast(h, panel);
      var h :| h in panel && forall x :: x in panel ==> h <= x;
      Some(h)
  }

  /** Without an external panelist the admin who creates the request is its panel. */
  function EffectivePanel(panel: set<Id>, creator: Id): set<Id> {
    if panel == {} then {creator} else panel
  }

  function ProcOf(w: World, pid: Id): Proc {
    if pid in w.procs then w.procs[pid] else Idle
  }

  predicate HasStatus(db: Db, r: Id, s: Status) {
    r in db.requests && db.requests[r].status == s
  }

  function People(q: Request): set<Id> {
    {q.candidate} + q.panel
  }

  /** The request's CONFIRMED row among the first n, if any. */
  function ConfirmedAmong(events: seq<Event>, r: Id, n: nat): (e: Option<nat>)
    requires n <= |events|
    ensures e.Some? ==> e.value < n && events[e.value].confirmed && events[e.value].request == r
    ensures e.None? ==> forall i :: 0 <= i < n ==> !(events[i].confirmed && events[i].request == r)
  {
    if n == 0 then None
    else if events[n - 1].confirmed && events[n - 1].request == r then Some(n - 1)
    else ConfirmedAmong(events, r, n - 1)
  }

  function ConfirmedEvent(db: Db, r: Id): (e: Option<nat>) {
    ConfirmedAmong(db.events, r, |db.events|)
  }

  function LatestAmong(runs: seq<RunRow>, r: Id, n: nat): (k: Option<Id>)
    requires n <= |runs|
    ensures k.Some? ==> k.value < n && runs[k.value].request == r
    ensures k.Some? ==> forall j :: k.value < j < n ==> runs[j].request != r
    ensures k.None? ==> forall j :: 0 <= j < n ==> runs[j].request != r
  {
    if n == 0 then None
    else if runs[n - 1].request == r then Some(n - 1)
    else LatestAmong(runs, r, n - 1)
  }

  function LatestRun(db: Db, r: Id): (k: Option<Id>) {
    LatestAmong(db.runs, r, |db.runs|)
  }

  predicate ValidTarget(db: Db, t: Target) {
    t.run < |db.runs| && db.runs[t.run].request == t.request && t.slot < |db.runs[t.run].slots|
  }

  predicate Overlaps(a: Interval, b: Interval) {
    a.start < b.end && b.start < a.end
  }

  /** Another interview holds one of `people` during `slot`. */
  predicate Clashes(db: Db, people: set<Id>, r: Id, slot: Interval, e: Event) {
    && e.confirmed && e.request != r && e.request in db.requests
    && People(db.requests[e.request]) * people != {}
    && Overlaps(e.slot, slot)
  }

  predicate SomeClash(db: Db, t: Target)
    requires t.request in db.requests && ValidTarget(db, t)
  {
    exists i :: 0 <= i < |db.events| &&
      Clashes(db, People(db.requests[t.request]), t.request, db.runs[t.run].slots[t.slot], db.events[i])
  }

  // ------------------------------------------------------------------- updates

  function SetProc(w: World, pid: Id, p: Proc): World {
    w.(procs := w.procs[pid := p])
  }

  /** An attribute assignment followed by a commit: the column is written only if the new value
      differs from the value the session loaded. */
  function WriteStatus(db: Db, r: Id, loaded: Status, s: Status): Db {
    if loaded == s || r !in db.requests then db
    else db.(requests := db.requests[r := db.requests[r].(status := s)])
  }

  // --------------------------------------------------------------------- calls

  function StartCall(w: World, pid: Id, call: Call): World {
    var db := w.db;
    match call
    case CreateRequest(r, candidate, panel, creator) =>
      if r in db.requests then w
      else
        var q := Request(AwaitingAvailability, candidate, EffectivePanel(panel, creator));
        w.(db := db.(requests := db.requests[r := q]))
    case SubmitAvailability(r) =>
      if HasStatus(db, r, AwaitingAvailability) then SetProc(w, pid, Submitting(r)) else w
    case UpdatePanel(r, panel) =>
      if r in db.requests && db.requests[r].status in EDITABLE && panel != {}
      then SetProc(w, pid, Updating(r, panel)) else w
    case Generate(r) =>
      if r !in db.requests || (HasStatus(db, r, Recommended) && LatestRun(db, r).Some?) then w
      else SetProc(w, pid, GenWaiting(r))
    case Book(t) =>
      if ValidTarget(db, t) && LatestRun(db, t.request) == Some(t.run) && HasStatus(db, t.request, Recommended)
      then SetProc(w, pid, BookWaiting(t)) else w
    case Lifecycle(kind, r, actor) =>
      if r !in db.requests then w
      else
        var loaded := db.requests[r].status;
        if (kind.Decline? && actor !in db.requests[r].panel)
           || (kind.Reschedule? && loaded != Booked)
           || (kind.Cancel? && loaded in TERMINAL)
        then w
        else SetProc(w, pid, LifeLoaded(kind, r, loaded, Organiser(db.requests[r].panel)))
    case RecordOutcome(r) =>
      if r in db.requests && db.requests[r].status in {Booked, Completed}
      then SetProc(w, pid, Recording(r, db.requests[r].status)) else w
  }

  // ---------------------------------------------------------------------- book

  /** Under the lock: the status is refreshed and re-validated, then the request must have no
      CONFIRMED event. */
  function BookValidate(w: World, pid: Id, t: Target): World {
    if HasStatus(w.db, t.request, Recommended) && ConfirmedEvent(w.db, t.request).None?
    then SetProc(w, pid, BookValidated(t)) else SetProc(w, pid, Idle)
  }

  /** The panel is read and the cross-interview guard evaluated for it. */
  function BookClear(w: World, pid: Id, t: Target): World {
    if t.request in w.db.requests && ValidTarget(w.db, t) && !SomeClash(w.db, t)
    then SetProc(w, pid, BookCleared(t, Organiser(w.db.requests[t.request].panel))) else SetProc(w, pid, Idle)
  }

  function BookCreate(w: World, pid: Id, t: Target, host: Option<Id>, m: Move): World {
    if m.Go? && host.Some? then
      var e := Hosted(w.nextCalendarId, host.value);
      SetProc(w.(calendar := w.calendar + {e}, nextCalendarId := w.nextCalendarId + 1), pid, BookHolding(t, Some(e)))
    else if m.Simulate? then SetProc(w, pid, BookHolding(t, None))
    else SetProc(w, pid, Idle)
  }

  /** What a failed persist leads to: the calendar event, if there is one, must be undone. */
  function AfterFailedPersist(held: Option<Hosted>): Proc {
    match held
    case Some(e) => BookCompensating(e)
    case None => Idle
  }

  function IdOf(held: Option<Hosted>): Option<Id> {
    match held
    case Some(e) => Some(e.id)
    case None => None
  }

  /** The row insert, BOOKED and the commit; the partial unique index refuses a second CONFIRMED row. */
  function BookPersist(w: World, pid: Id, t: Target, held: Option<Hosted>, m: Move): World {
    if m.Go? && ValidTarget(w.db, t) && ConfirmedEvent(w.db, t.request).None? then
      var e := Event(t.request, t.run, w.db.runs[t.run].slots[t.slot], IdOf(held), true);
      var db := WriteStatus(w.db, t.request, Recommended, Booked);
      SetProc(w.(db := db.(events := db.events + [e])), pid, Idle)
    else
      SetProc(w, pid, AfterFailedPersist(held))
  }

  /** The compensating delete goes to the calendar the event was created on. */
  function Compensate(w: World, pid: Id, e: Hosted, m: Move): World {
    if m.Go? then SetProc(w.(calendar := w.calendar - {e}), pid, Idle)
    else SetProc(w, pid, BookUndeleted(e))
  }

  function RecordOrphan(w: World, pid: Id, e: Hosted, m: Move): World {
    if m.Go? then SetProc(w.(db := w.db.(openTasks := w.db.openTasks + {e.id})), pid, Idle)
    else SetProc(w.(lastResortLog := w.lastResortLog + {e.id}), pid, Idle)
  }

  // ----------------------------------------------------------------- lifecycle

  function NewStatus(kind: Kind, loaded: Status): Status {
    match kind
    case Decline => if loaded == Booked then Rescheduling else Ready
    case Reschedule => Rescheduling
    case Cancel => Cancelled
  }

  /** Under the lock: the guards again, on the status the session holds, then a fresh query for
      the CONFIRMED event. */
  function LifeFetch(w: World, pid: Id, kind: Kind, r: Id, loaded: Status, host: Option<Id>): World {
    if (kind.Reschedule? && loaded != Booked) || (kind.Cancel? && loaded in TERMINAL) then
      SetProc(w, pid, Idle)
    else
      SetProc(w, pid, LifeFetched(kind, r, loaded, host,
                                  if kind.Decline? && loaded != Booked then None else ConfirmedEvent(w.db, r)))
  }

  function CalendarIdOf(db: Db, event: Option<nat>): Option<Id> {
    if event.Some? && event.value < |db.events| then db.events[event.value].calendarId else None
  }

  /** The delete is sent to the calendar of the organiser the session knows. An event that is not
      there counts as deleted. */
  function LifeDelete(w: World, pid: Id, p: Proc, m: Move): World
    requires p.LifeFetched?
  {
    var c := CalendarIdOf(w.db, p.event);
    if m.Abort? || (c.Some? && p.host.None?) then SetProc(w, pid, Idle)
    else
      var deleted := m.Go? || c.None?;
      SetProc(if deleted && c.Some? then w.(calendar := w.calendar - {Hosted(c.value, p.host.value)}) else w,
              pid, LifeDeleted(p.kind, p.request, p.loaded, p.host, p.event, deleted))
  }

  function CancelRow(db: Db, event: Option<nat>, deleted: bool): Db {
    if event.Some? && event.value < |db.events| then
      var e := db.events[event.value];
      db.(events := db.events[event.value := e.(confirmed := false)],
          openTasks := if !deleted && e.calendarId.Some? then db.openTasks + {e.calendarId.value} else db.openTasks)
    else db
  }

  function LifeCommit(w: World, pid: Id, p: Proc, m: Move): World
    requires p.LifeDeleted?
  {
    if !m.Go? then SetProc(w, pid, Idle)
    else
      var s := NewStatus(p.kind, p.loaded);
      var db := WriteStatus(CancelRow(w.db, p.event, p.deleted), p.request, p.loaded, s);
      SetProc(w.(db := db), pid, if s == Rescheduling then Retriggering(p.request) else Idle)
  }

  // ------------------------------------------------------------- recommendation

  /** Refresh under the recommendation lock; only a READY request is generated for. */
  function GenCheck(w: World, pid: Id, r: Id): World {
    if HasStatus(w.db, r, Ready) then SetProc(w, pid, GenReady(r)) else SetProc(w, pid, Idle)
  }

  function GenCommit(w: World, pid: Id, r: Id, m: Move): World {
    match m
    case Recommend(slots) =>
      var db := WriteStatus(w.db, r, Ready, Recommended);
      SetProc(w.(db := db.(runs := db.runs + [RunRow(r, slots)])), pid, Idle)
    case Fail => SetProc(w.(db := WriteStatus(w.db, r, Ready, Failed)), pid, Idle)
    case _ => SetProc(w, pid, Idle)
  }

  // ----------------------------------------------------------------- one step

  predicate InBook(p: Proc) {
    p.BookWaiting? || p.BookValidated? || p.BookCleared? || p.BookHolding? || p.BookCompensating? || p.BookUndeleted?
  }

  predicate InLife(p: Proc) {
    p.LifeLoaded? || p.LifeFetched? || p.LifeDeleted?
  }

  function BookStep(w: World, pid: Id, p: Proc, m: Move): World
    requires InBook(p)
  {
    match p
    case BookWaiting(t) => if m.Go? then BookValidate(w, pid, t) else SetProc(w, pid, Idle)
    case BookValidated(t) => if m.Go? then BookClear(w, pid, t) else SetProc(w, pid, Idle)
    case BookCleared(t, host) => BookCreate(w, pid, t, host, m)
    case BookHolding(t, held) => BookPersist(w, pid, t, held, m)
    case BookCompensating(e) => Compensate(w, pid, e, m)
    case BookUndeleted(e) => RecordOrphan(w, pid, e, m)
  }

  function LifeStep(w: World, pid: Id, p: Proc, m: Move): World
    requires InLife(p)
  {
    match p
    case LifeLoaded(kind, r, loaded, host) =>
      if m.Go? then LifeFetch(w, pid, kind, r, loaded, host)
      else if m.GoRefreshed? && r in w.db.requests then LifeFetch(w, pid, kind, r, w.db.requests[r].status, host)
      else SetProc(w, pid, Idle)
    case LifeFetched(_, _, _, _, _) => LifeDelete(w, pid, p, m)
    case LifeDeleted(_, _, _, _, _, _) => LifeCommit(w, pid, p, m)
  }

  /** The remaining calls, each one commit away from its end or from the next check. */
  function PlainStep(w: World, pid: Id, p: Proc, m: Move): World
    requires !p.Idle? && !InBook(p) && !InLife(p)
  {
    match p
    case Retriggering(r) =>
      if m.Go? then SetProc(w.(db := WriteStatus(w.db, r, Rescheduling, Ready)), pid, GenWaiting(r))
      else SetProc(w, pid, Idle)
    case GenWaiting(r) => if m.Go? then GenCheck(w, pid, r) else SetProc(w, pid, Idle)
    case GenReady(r) => GenCommit(w, pid, r, m)
    case Submitting(r) =>
      SetProc(if m.Go? then w.(db := WriteStatus(w.db, r, AwaitingAvailability, Ready)) else w, pid, Idle)
    case Updating(r, panel) =>
      SetProc(if m.Go? && r in w.db.requests
              then w.(db := w.db.(requests := w.db.requests[r := w.db.requests[r].(panel := panel)])) else w,
              pid, Idle)
    case Recording(r, loaded) =>
      SetProc(if m.Go? then w.(db := WriteStatus(w.db, r, loaded, Completed)) else w, pid, Idle)
  }

  function Step(w: World, pid: Id, m: Move): World {
    var p := ProcOf(w, pid);
    if p.Idle? then
      if m.Start? then StartCall(w, pid, m.call) else w
    else if m.Start? then w
    else if InBook(p) then BookStep(w, pid, p, m)
    else if InLife(p) then LifeStep(w, pid, p, m)
    else PlainStep(w, pid, p, m)
  }

  function Run(w: World, actions: seq<Action>): World
    decreases |actions|
  {
    if actions == [] then w else Run(Step(w, actions[0].pid, actions[0].move), actions[1..])
  }

  lemma OthersUntouched(w: World, pid: Id, m: Move)
    ensures forall q :: q in Step(w, pid, m).procs && q != pid ==>
              q in w.procs && Step(w, pid, m).procs[q] == w.procs[q]
  {
  }
}
