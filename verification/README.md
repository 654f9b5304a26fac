# A verified model of the interview scheduler's backend

This project models the Python backend of the Smart Interview Scheduler and proves what its parts
promise: the scheduling engine, the booking and lifecycle protocol around an external calendar, the
service that feeds the engine, the token-guarded Redis lock, the fixed-window rate limiter and the
participant invitations. `dafny verify dfyconfig.toml` checks all of it.

## The system, and how it is modelled

**The engine** (`SchedulingTypes`, `Intervals`, `Scoring`, `EngineSpec`, `Engine`, `EngineTheorems`,
`EngineReading`).
Instants are integers in microseconds, the resolution of the source's timestamps; intervals are
half-open. A list of intervals stands for the set of instants it covers. Each of the four interval
operations is a method with the source's loops, specified by that set and by canonical form
(nonempty, in order, strictly separated). `EngineSpec` says what the engine should return without
saying how: an instant is free when it lies in the candidate's windows, in everybody's working day
and outside every panelist's busy blocks; placements are the grid points of the maximal free
stretches that leave room for duration and both buffers; the result is the best `topN` of them.
`Engine` is the pipeline, proved to return exactly that for every input. A time zone is any pair of
functions between instants and wall-clock readings; nothing is assumed of it. As in the code, a
working day runs from the instant a reading of its start denotes to the instant a reading of its end
denotes, for each local day the windows span. For zones whose offsets stay close together (any number
of clock changes, at any time of day) that is the participant's own local day, and where the clock is
not changed during work it is what the clock shows; both are proved. `EngineReading` then says what
the answers are in plain numbers: which inputs are accepted, which starts are offered, what each
factor of a score is, and how slots are ranked.

**Booking as an interleaving of calls** (`BookingMachine`, `BookingSafety`, `BookingConservation`,
`BookingHistories`, `BookingHosts`, `BookingConverse`, `BookingCounterexamples`). Every call of
`book`, `decline`, `reschedule`, `cancel`, `generate`, `update_request` and the rest is a process
with a program counter, the values its session has read and atomic commits. The environment decides
each step's outcome, so all interleavings, lost locks, insert races, failed commits, failed deletes
and stale reads are runs of one total step function.

- `book` re-reads the request's status under the lock; lifecycle calls may act on the status their
  session loaded earlier. `decline` keeps no reference to the row it loaded first, so its second read
  may or may not be fresh: both are steps of the machine.
- A calendar event lives on the calendar of the panelist who hosts it. The code stores no host: `book`
  creates the event for the first panelist by id of the panel it reads with its guard, and a lifecycle
  call deletes through the first panelist of the panel it read before its lock. Deleting an event that
  is not on that calendar counts as success, as in backend/app/calendar/client.py:195-202.
- Assigning a status equal to the one the session loaded writes nothing.
- A lock is a step that the process may pass or fail at any time, which covers a lock that is held,
  has expired or is absent. What the lock itself guarantees is proved separately, in `Locks`.
- Locks are per request, so two bookings of different requests never exclude each other.

**The same services as objects** (`InterviewSystem`). `Service` has the tables as fields and methods
that update them in place. Each method is tied to the machine: the tables between calls are those of
a serial run, so the whole-history theorems hold of them.

**Around the engine** (`SchedulingService`, `SchedulingReading`, `RecommendedBooking`). Windows are
clipped to now, other interviews become busy blocks, the engine runs, and the outcome is told in terms
of the stored rows alone, in `SchedulingReading` with every constant written out. A recommended slot
is then followed through the booking guard into `book`.

**Three small stateful parts** (`RateLimit`, `Locks`, `Invitations`), each with the histories its
claims are about, and a class with the source's updates.

`Lists` holds the verified sort that stands for Python's `sorted` and `list.sort`, and `Wrappers` an
option type.

## Properties that do not hold in general, and their exact conditions

- *No calendar event is silently orphaned.* A cancellation that goes through another organiser than
  the event's host finds nothing, takes that for success and opens no task. That happens after a panel
  change that was loaded while the request was editable and committed after it was booked
  (`LatePanelChangeOrphans`), and also with panel changes committed in time, when the cancelling call
  had read the panel before (`EarlyPanelReadOrphans`). As long as users keep their calendars,
  nothing else loses an event: `ConservationExact` is an if-and-only-if over all runs.
  `NoSilentOrphan` and `SettledNoOrphan` give runs that are safe, serial histories among them
  (`SerialNoOrphan`).
- *Nobody is double-booked across interviews.* Two bookings of different requests that pass the clash
  guard before either commits break it (`InterleavedBooksCollide`; the comment at
  backend/app/booking/service.py:111-113 admits the race), and so does a late panel change
  (`LatePanelChangeCollides`). `HistoryExact` says exactly which runs are free of it. `HistorySafe`
  proves it for every run in which rival bookings are serialised and panels change only while
  editable, `SerialHistorySafe` for every serial one.
- *A recommendation run is booked from at most once.* A `book` that looked its run up before a
  reschedule and goes on after the next recommendation books an old run again
  (`StaleRunBookedAgain`): the run is not looked up again under the lock. It happens exactly when
  another booking from the run has committed since the lookup (`RunCommitExact`, and `RunsOnceExact`
  over all runs), because in every run whatsoever nobody has booked from the run on offer
  (`OfferNeverBooked`). Bookings that commit while their run is still on offer never do it
  (`EachRunOnce`).
- *A CONFIRMED event belongs to a BOOKED or COMPLETED request.* Declining a COMPLETED interview moves
  its request to READY_FOR_SCHEDULING and leaves the event (`DeclineReopensCompleted`), and a
  retrigger that a booking has overtaken writes READY_FOR_SCHEDULING over it (`RetriggerUnsettles`).
  `SettledExact` and `ConverseExact` say exactly which steps and which runs break it; in serial
  histories only the decline does (`SerialSettledExact`, `SerialHistorySettled`).
- *A recommended slot passes the booking guard.* The guard also asks about the candidate, whose other
  interviews the scheduler does not fetch: slots can be recommended of which the guard refuses every
  one (`RecommendedInVain`). A recommended slot passes exactly when no other interview holds the
  candidate meanwhile (`GuardForSlot`), and then it can be booked (`RecommendedIsBookable`).
- *The safety nets of the scoring are never needed.* For every slot and participant, fairness needs no
  clamp and comfort is decided by a band exactly when their clock at the midpoint reads a time of the
  working day (`SafetyNetsAtSlot`). With a clock that is not changed during work it always does
  (`SafetyNetsUnused`). In a zone that skips the hour in which work ends it need not: the engine offers
  a slot in America/Nuuk at whose midpoint the clock is past the end of work (`SafetyNetsNeeded`).

## Where code and documentation differ

The model follows the code.

- DB_DESIGN.md (section "Status State Machines") has no transition out of COMPLETED or CANCELLED; the
  code's `decline` leaves both.
- requirements.md (section 7c) speaks of `duration + buffer` for a slot; the code asks for the buffer
  on both sides.
- DB_DESIGN.md (section "Redis Design") speaks of a rolling 60-second window; the code keeps a fixed
  window, which admits up to `2 * limit - 1` requests in a window's length, and that bound is reached.

## Model

| member | source | states |
|---|---|---|
| Lists.Sort | backend/app/scheduling/engine.py:245 | Python's sort: a rearrangement of the input, in order |
| Lists.SumByPermuted | backend/app/scheduling/scoring.py:92 | a sum over the panel does not depend on its order |
| Intervals.Merge | backend/app/scheduling/engine.py:36-49 | keeps the set of instants, leaves a gap between neighbours, nonempty intervals stay nonempty, a canonical list is returned unchanged (idempotence) |
| Intervals.CanonicalUnique | backend/app/scheduling/engine.py:36-49 | a set of instants has at most one canonical list, so merging is independent of order, repetition, splitting and ties |
| Intervals.CanonicalRuns | backend/app/scheduling/engine.py:36-49 | the intervals of a canonical list are exactly the maximal stretches of its instants |
| Intervals.StretchInOneInterval | backend/app/scheduling/engine.py:234-239 | a contiguous stretch of free time lies within one interval of the canonical list, so looking at one interval at a time misses nothing |
| Intervals.Subtract | backend/app/scheduling/engine.py:52-66 | the nested loop is set difference, for unmerged inputs too; canonical if the base is |
| Intervals.Intersect | backend/app/scheduling/engine.py:69-82 | the two-pointer walk is set intersection and its result is canonical, whatever the inputs |
| Intervals.Clip | backend/app/scheduling/engine.py:85-91 | restriction to [lo, hi), nonempty intervals only, order and gaps kept |
| SchedulingTypes.BoundedOffsetsOrderly | backend/app/scheduling/engine.py:154-161 | a zone with any number of clock changes at any time of day has its working days in order, if its offsets differ by no more than working hours keep from midnight |
| SchedulingTypes.OwnDayDecides | backend/app/scheduling/engine.py:154-162 | with days in order, being in some working day of the span is being in that of one's own local day |
| SchedulingTypes.ClockDecides | backend/app/scheduling/engine.py:154-162 | with a clock not changed during work, it is reading a time in working hours |
| SchedulingTypes.SteadyWorkConsistent | backend/app/scheduling/engine.py:154-161 | a zone with any number of clock changes, none closer to working hours than its offsets can differ, is such a zone |
| SchedulingTypes.ShiftingZoneConsistent | backend/app/scheduling/engine.py:154-161 | so is one whose clock changes once, forward or back, anywhere between midnight and the start of work, and a fixed offset |
| Scoring.WorkloadBalance | backend/app/scheduling/scoring.py:77-92 | the loop computes the mean over the panel of 1/(1 + other interviews on that panelist's local day), 1 for an empty panel |
| Scoring.TotalInRange | backend/app/scheduling/scoring.py:111-118 | factors in [0, 1] and weights that are non-negative and sum to one give a total in [0, 1] |
| Scoring.SafetyNetsExact | backend/app/scheduling/scoring.py:36-68 | the fairness clamp does nothing and comfort is decided by one of its three bands exactly at the times of day from the start to the end of work, both included |
| Scoring.BalancePermuted | backend/app/scheduling/scoring.py:77-92 | workload balance is the same for every order of the participants |
| Scoring.WorstOffSameElements | backend/app/scheduling/scoring.py:41-45 | the worst-off participant's score depends only on which scores there are |
| EngineSpec.GridCountFits | backend/app/scheduling/engine.py:237-242 | floor((length - duration - 2*buffer)/step) + 1 counts exactly the grid points at which slot and buffers fit |
| EngineSpec.EnumerationIsExact | backend/app/scheduling/engine.py:233-242 | what is enumerated from the canonical free list is exactly the set of placements: no grid point of a maximal free stretch is missed or invented |
| EngineSpec.StartsIncrease | backend/app/scheduling/engine.py:233-242 | enumerated starts are pairwise distinct and increasing, and their number is the sum of the intervals' counts |
| Engine.Validate | backend/app/scheduling/engine.py:97-138 | accepts exactly the inputs with no fault; a reported fault is present, and no fault checked earlier is |
| Engine.WorkingIntervals | backend/app/scheduling/engine.py:150-163 | exactly the instants in the working day of one of the local days the span touches, for any time zone |
| Engine.ParticipantFree | backend/app/scheduling/engine.py:174-183 | the participant's instants within the span: working days and windows for the candidate, working days minus busy blocks for a panelist |
| Engine.FreeIntervals | backend/app/scheduling/engine.py:166-188 | canonical list of exactly the instants free for everybody |
| Engine.PlaceIn | backend/app/scheduling/engine.py:234-242 | walks exactly the grid points that fit, in order, with their scores |
| Engine.GenerateRecommendations | backend/app/scheduling/engine.py:220-261 | rejects exactly the faulty inputs, with the first fault; otherwise returns the best topN placements by score descending then start ascending, ranked from 1 |
| EngineTheorems.PlacementIsFree | backend/app/scheduling/engine.py:234-242 | a placement ends one duration after its start, and with both buffers consists of free instants |
| EngineTheorems.SlotSound | backend/app/scheduling/engine.py:166-242 | every instant of every returned slot and its buffers is in the candidate's windows, in everybody's working day (by their own local day and by their clock, where the zone allows) and outside all busy blocks |
| EngineTheorems.FeasibilityExact | backend/app/scheduling/engine.py:150-242 | nothing is returned exactly when no instant at all, on the grid or off it, can host the interview with its buffers |
| EngineTheorems.ResultCount | backend/app/scheduling/engine.py:233-248 | min(topN, total) slots, the total summed over the maximal free stretches |
| EngineTheorems.TopUnique | backend/app/scheduling/engine.py:244-248 | at most one list is the top n of an offer |
| EngineTheorems.ResultUnique | backend/app/scheduling/engine.py:220-261 | the specification determines ranks, scores and order completely |
| EngineTheorems.OrderIndependent | backend/app/scheduling/engine.py:97-261 | reordering participants, and reordering, splitting or repeating windows, changes neither whether the input is accepted nor the result, ranks and scores included |
| EngineTheorems.MidpointAtWork | backend/app/scheduling/engine.py:200-210 | the midpoint at which a slot is scored is inside everybody's working day |
| EngineTheorems.SafetyNetsAtSlot | backend/app/scheduling/scoring.py:36-68 | for every slot the engine scores and every participant, the fairness clamp stays idle and comfort does not fall through to its last 0.0 exactly when their clock at the midpoint reads a time of the working day |
| EngineTheorems.SafetyNetsUnused | backend/app/scheduling/scoring.py:36-68 | a clock not changed during work reads such a time at every midpoint |
| EngineTheorems.SafetyNetsNeeded | backend/app/scheduling/engine.py:154-161 | an accepted input and a slot it offers, in America/Nuuk when the clock skips the end of work, for which the clock is past it and the nets are needed |
| EngineTheorems.ScoresInRange | backend/app/scheduling/scoring.py:36-118 | every factor and total of a returned slot is in [0, 1] |
| EngineReading.AcceptedInputs | backend/app/scheduling/engine.py:97-138 | exactly which inputs are accepted, each check written out |
| EngineReading.ConstraintFaults | backend/app/scheduling/engine.py:97-108 | what each fault of the constraints means |
| EngineReading.ParticipantFaults | backend/app/scheduling/engine.py:113-125 | what each fault of the participants means |
| EngineReading.WindowFaults | backend/app/scheduling/engine.py:127-138 | what each fault of the windows means |
| EngineReading.ChecksInOrder | backend/app/scheduling/engine.py:97-138 | the order in which faults are looked for |
| EngineReading.FreeInstants | backend/app/scheduling/engine.py:150-188 | an instant is free exactly in a window, between start and end of everybody's work on a local day of the span, and outside every panelist's blocks |
| EngineReading.StartsOffered | backend/app/scheduling/engine.py:227-242 | a start is offered exactly if it is the buffer and a whole number of steps after the beginning of a maximal free stretch and leaves room for interview and buffer |
| EngineReading.ProximityAtSlot | backend/app/scheduling/scoring.py:71-74 | 1 until the reference, in a straight line to 0 at the horizon |
| EngineReading.SoonerIsCloser | backend/app/scheduling/scoring.py:71-74 | an earlier start never has less proximity |
| EngineReading.FairnessAtSlot | backend/app/scheduling/scoring.py:36-45 | that of the worst-off participant by their clock in the middle of the slot: 1 in the middle of the working day, in a straight line to 0 at its edges |
| EngineReading.ComfortAtSlot | backend/app/scheduling/scoring.py:48-68 | that of the worst-off participant: 1 exactly in the core band, in a straight line to 0 at the edges of the day |
| EngineReading.BufferAtSlot | backend/app/scheduling/scoring.py:95-105 | 0 at exactly the buffer on the tighter side of the free stretch, 1 from twice that, in between in a straight line |
| EngineReading.WorkloadAtSlot | backend/app/scheduling/scoring.py:77-92 | the panel's mean of one over one more than a panelist's other interviews on the local day |
| EngineReading.TotalAtSlot | backend/app/scheduling/scoring.py:111-118 | the sum of the five products of weight and factor |
| EngineReading.RankingRead | backend/app/scheduling/engine.py:244-261 | ranks from 1, higher totals first, of equal totals the earlier start, and nothing left out that would come before what is returned |
| SchedulingService.ClipKeepsTheFuture | backend/app/scheduling/service.py:195-204 | clipped windows cover exactly the instants of the submitted ones that are not past |
| SchedulingService.ClippedWindowsPass | backend/app/scheduling/service.py:195-204 | windows accepted at submission and clipped later pass all the engine's window checks, if the clock does not go back |
| SchedulingService.NothingLeft | backend/app/scheduling/service.py:203-204 | no window remains exactly when all have ended |
| SchedulingService.BusyByUser | backend/app/scheduling/service.py:214-246 | a block counts against a user exactly when the user's calendar shows it or another interview holds it |
| SchedulingService.BusyAt | backend/app/scheduling/service.py:240-246 | fetching only the commitments that overlap the windows loses none inside the windows |
| SchedulingService.NeverRefused | backend/app/scheduling/service.py:248-277 | the input built from well-formed rows has none of the faults the engine rejects |
| SchedulingService.FreeIsSuitable | backend/app/scheduling/service.py:248-271 | the engine's free instants are exactly those the stored rows suit |
| SchedulingService.NoClash | backend/app/booking/repository.py:93-101 | a stretch of suitable instants overlaps no CONFIRMED event a panelist has on another request |
| SchedulingService.GuardForSlot | backend/app/booking/service.py:114-124 | a recommended slot passes the booking guard exactly when no other interview holds the candidate at any instant of it |
| SchedulingService.HeldCandidateRefused | backend/app/booking/service.py:114-124 | if another interview holds the candidate throughout the windows, the guard refuses every recommended slot |
| SchedulingService.RecommendedInVain | backend/app/scheduling/service.py:240-246 | a situation that gets slots, every one of which the guard refuses |
| SchedulingService.GenerateLocked | backend/app/scheduling/service.py:181-281 | which outcome occurs when; recommended slots are the engine's best, can host the interview and clash with nothing of the panel; no common availability means no start at all can host it |
| SchedulingReading.WindowsAhead | backend/app/scheduling/service.py:195-202 | exactly which windows remain, each from now on |
| SchedulingReading.WellFormedRead | backend/app/availability/schemas.py:28-37 | which stored rows the engine never refuses, windows accepted for twenty-one days among them |
| SchedulingReading.CanHostRead | backend/app/scheduling/service.py:193-271 | a start can host the interview exactly if at every instant of it and its buffers the candidate is available and everybody is between seven and ten at night in their own zone, UTC if they have none, and free of calendar blocks and other interviews |
| SchedulingReading.SlotsRead | backend/app/scheduling/service.py:264-298 | at most three slots, ranked from 1, of the request's length, on a quarter-hour grid |
| SchedulingReading.NoneMissing | backend/app/scheduling/service.py:264-298 | fewer than three slots are all that the grid has |
| SchedulingReading.OrderRead | backend/app/scheduling/engine.py:244-245 | slots come by higher total, then by earlier start |
| SchedulingReading.ScoresRead | backend/app/scheduling/service.py:248-271 | proximity over fourteen days from now, workload always 1 |
| SchedulingReading.TotalRead | backend/app/scheduling/types.py:63-69 | a total is 30, 20, 20, 15 and 15 percent of the factors |
| SchedulingReading.WorstOffRead | backend/app/scheduling/service.py:54-59 | fairness and comfort are those of the worst-off of candidate and panel, each by their own zone's clock, for work from seven to ten at night with a core from nine to six |
| SchedulingReading.NothingAtNight | backend/app/scheduling/service.py:253-262 | a panelist in Los Angeles and a window from eight to ten UTC have no common availability |
| RecommendedBooking.GuardIsQuery | backend/app/booking/repository.py:63-101 | the booking guard of the machine and the query the scheduler uses are the same question |
| RecommendedBooking.RecommendedIsBookable | backend/app/booking/service.py:80-124 | after a generation, a recommended slot passes everything `book` checks exactly when the request has no CONFIRMED event and no other interview holds the candidate meanwhile |
| RecommendedBooking.Recommend | backend/app/scheduling/service.py:140-301 | a whole generation on the stored tables: for a READY request a run whose slots start and end as the engine's best do, and RECOMMENDED, or FAILED, or, when an exception is raised, nothing changed; for any other request nothing changes |
| RecommendedBooking.RecommendAndBook | backend/app/booking/service.py:72-207 | a recommended slot carried through `book`: booked exactly when everything cooperates, the candidate is free and the request has no event, and the row has the slot's start and length |
| BookingMachine.ConfirmedAmong | backend/app/booking/repository.py:41-49 | a CONFIRMED row of the request, or none if there is none |
| BookingMachine.Organiser | backend/app/booking/service.py:55-63 | the least panelist hosts the event; nobody exactly if there is no panelist |
| BookingSafety.StepKeepsSound | backend/app/booking/service.py:93-270 | every move of every process keeps unique confirmation, backing of BOOKED, and calendar ids issued once |
| BookingConservation.CancelledRowAccounted | backend/app/interviews/lifecycle.py:61-98 | after a cancellation commits, an event is accounted for exactly if it is not that row's or somebody has recorded it |
| BookingConservation.CancelExact | backend/app/interviews/lifecycle.py:76-95 | a cancellation loses an event exactly when its delete went to an organiser that does not host it |
| BookingConservation.StepExact | backend/app/booking/service.py:144-270 | every other move of every process keeps all events accounted for |
| BookingConservation.ConservationExact | backend/app/booking/service.py:55-70 | over all runs: no event is ever silently orphaned exactly when no cancellation commits after a delete sent to the wrong organiser |
| BookingConservation.NoSilentOrphan | backend/app/booking/service.py:152-207 | over every run whose lifecycle deletes go to the hosts, every calendar event that exists is held by a booking in flight, on a CONFIRMED row, under an OPEN task or in the last-resort log |
| BookingConservation.QuiescentCalendar | backend/app/booking/service.py:240-270 | with no call in progress, the database and the log account for every calendar event |
| BookingHosts.SettledNoOrphan | backend/app/interviews/service.py:186-195 | the same over every run whose panels change only while editable and while no lifecycle call on the request is still to delete |
| BookingHosts.SerialNoOrphan | backend/app/interviews/lifecycle.py:61-98 | the same over every serial history |
| BookingSafety.BookingSafe | backend/app/core/models.py:430-437 | after any run, locks or not, a request has at most one CONFIRMED event and a BOOKED request has one |
| BookingHistories.CommitExact | backend/app/booking/service.py:105-124 | a booking commit keeps participants free of double booking exactly when the clash guard would still pass at the commit |
| BookingHistories.RunCommitExact | backend/app/booking/service.py:88-99 | a booking commit re-books a run exactly when another booking from that run has committed since the call looked it up |
| BookingHistories.UpdateExact | backend/app/interviews/service.py:186-195 | a panel change keeps participants free of double booking exactly when no other CONFIRMED interview of the new panel overlaps the request's own |
| BookingHistories.RecommendOrderly | backend/app/scheduling/service.py:284-301 | in every run, every entry into RECOMMENDED brings a run nobody has booked from |
| BookingHistories.OfferNeverBooked | backend/app/booking/service.py:88-91 | after any run, under every interleaving, nobody has booked from a run that is on offer |
| BookingHistories.StepKeepsOrderly | backend/app/booking/service.py:93-207 | every move of every process keeps rows on requests that are past editing, and offers unbooked |
| BookingHistories.StepExact | backend/app/booking/service.py:105-124 | a move introduces a double booking exactly when it commits a booking whose guard would fail now, or a panel change that overlaps |
| BookingHistories.HistoryExact | backend/app/booking/service.py:105-124 | over all runs: nobody is ever double-booked exactly when no such move is made |
| BookingHistories.HistorySafe | backend/app/booking/service.py:105-124 | with rival bookings serialised and panels changed only while editable, through any mix of other calls, nobody is double-booked |
| BookingHistories.RunsOnceExact | backend/app/booking/service.py:88-99 | over all runs: no run is ever booked twice exactly when no such commit is made |
| BookingHistories.EachRunOnce | backend/app/booking/service.py:88-99 | under every interleaving whose bookings commit while still on offer, no run is booked twice |
| BookingHistories.SerialHistorySafe | backend/app/booking/service.py:88-124 | the same over every serial history, through reschedules, declines, cancellations and failed bookings |
| BookingConverse.SettledExact | backend/app/interviews/lifecycle.py:127-185 | under every interleaving, a step leaves a CONFIRMED event without a BOOKED or COMPLETED request exactly when it writes its status over a request that keeps its CONFIRMED row |
| BookingConverse.ConverseExact | backend/app/interviews/lifecycle.py:127-185 | over all runs: CONFIRMED events always belong to BOOKED or COMPLETED requests exactly when no such step is made |
| BookingConverse.SerialSettledExact | backend/app/interviews/lifecycle.py:164-185 | in serial histories the only such step declines a COMPLETED interview that still has its event |
| BookingConverse.RetriggerUnsettles | backend/app/interviews/lifecycle.py:130-134 | a retrigger overtaken by a booking writes READY over the booked request |
| BookingConverse.SerialHistorySettled | backend/app/interviews/lifecycle.py:164-185 | without such a decline, every CONFIRMED event of a serial history belongs to a BOOKED or COMPLETED request |
| BookingConverse.DeclineReopensCompleted | backend/app/interviews/lifecycle.py:173-175 | booking, recording the outcome and declining leave a READY request with a CONFIRMED event |
| BookingCounterexamples.InterleavedBooksCollide | backend/app/booking/service.py:111-113 | two interleaved bookings double-book a shared panelist |
| BookingCounterexamples.LatePanelChangeCollides | backend/app/interviews/service.py:186-195 | a panel change that overlaps a booking double-books a panelist |
| BookingCounterexamples.StaleRunBookedAgain | backend/app/booking/service.py:88-99 | a booking that looked its run up before a reschedule books an old run a second time |
| BookingCounterexamples.LatePanelChangeOrphans | backend/app/interviews/lifecycle.py:76-95 | a panel change committed after the booking makes a cancellation miss the event |
| BookingCounterexamples.EarlyPanelReadOrphans | backend/app/interviews/lifecycle.py:249-261 | a cancellation that read the panel before a timely change misses the event too |
| InterviewSystem.Service.ValidMeansSafe | backend/app/booking/service.py:72-207 | after any sequence of calls the tables show no double booking, no run booked twice, one CONFIRMED event per BOOKED request and no unaccounted calendar event |
| InterviewSystem.BookableRead | backend/app/booking/service.py:80-124 | everything `book` checks, written out |
| InterviewSystem.NobodyTwice | backend/app/booking/service.py:105-124 | in every serial history nobody, candidate or panelist, is in two CONFIRMED interviews at one instant |
| InterviewSystem.Service.Book | backend/app/booking/service.py:72-237 | succeeds exactly when everything it checks holds and calendar and database cooperate; success is one new CONFIRMED row, BOOKED and at most one calendar event; failure changes no request or row, and records a calendar event it could not undo |
| InterviewSystem.Service.LookUpSlot | backend/app/booking/service.py:80-91 | passes exactly when the slot exists for the request, its run is the latest and the request is RECOMMENDED |
| InterviewSystem.Service.CheckUnderLock | backend/app/booking/service.py:94-124 | passes exactly when the lock is free, the request has no CONFIRMED event and nobody involved is CONFIRMED elsewhere at that time |
| InterviewSystem.Service.CreateCalendarEvent | backend/app/booking/service.py:144-168 | adds one fresh calendar event on the organiser's calendar, or none when simulated or failed |
| InterviewSystem.Service.Persist | backend/app/booking/service.py:170-207 | the row, BOOKED and the commit together, or none of them and the compensation |
| InterviewSystem.Service.UndoCalendarEvent | backend/app/booking/service.py:240-270 | the event is deleted, else an OPEN task covers it, else the log names it |
| InterviewSystem.Service.Decline | backend/app/interviews/lifecycle.py:144-191 | refused exactly for others than the request's panelists or when the lock is busy; a BOOKED interview loses its event and is recommended again, any other request, finished ones included, becomes READY |
| InterviewSystem.Service.Reschedule | backend/app/interviews/lifecycle.py:197-234 | refused exactly unless BOOKED and the lock is free; withdraws the event and recommends again |
| InterviewSystem.Service.Cancel | backend/app/interviews/lifecycle.py:240-276 | refused exactly for finished requests or when the lock is busy; withdraws the event and moves to CANCELLED |
| InterviewSystem.Service.DeleteCalendarEvent | backend/app/interviews/lifecycle.py:76-84 | the delete goes to the organiser's calendar and, in serial histories, removes exactly the row's own event; a simulated one needs no deleting |
| InterviewSystem.Service.CommitCancellation | backend/app/interviews/lifecycle.py:86-95 | one transaction: exactly the request's CONFIRMED row, its status, and a task if the delete failed |
| InterviewSystem.Service.Retrigger | backend/app/interviews/lifecycle.py:127-138 | READY, then a new run and RECOMMENDED, or FAILED, or READY still when the generation raises; a failed first commit leaves the request as it was |
| InterviewSystem.Service.Generate | backend/app/scheduling/service.py:140-179 | a READY request gets one new run, or FAILED when there are no slots, or stays READY when the generation raises; any other keeps what it has |
| InterviewSystem.Service.GenerateLocked | backend/app/scheduling/service.py:172-179 | only a READY request is generated for; everything else is left alone |
| InterviewSystem.Service.CreateRequest | backend/app/interviews/service.py:71-105 | a new request awaiting availability, with the creating admin as its panel if none is named; nothing else changes |
| InterviewSystem.Service.SubmitAvailability | backend/app/availability/service.py:34-67 | accepted exactly while awaiting availability; the request becomes READY |
| InterviewSystem.Service.UpdatePanel | backend/app/interviews/service.py:180-195 | accepted exactly while editable and for a nonempty panel; only the panel changes |
| InterviewSystem.Service.RecordOutcome | backend/app/interviews/lifecycle.py:314-351 | accepted exactly for BOOKED and COMPLETED; the request becomes COMPLETED |
| RateLimit.WindowAdmits | backend/app/core/ratelimit.py:47-52 | the open counter window has admitted exactly min(count, limit) hits |
| RateLimit.BurstBound | backend/app/core/ratelimit.py:163-178 | any half-open interval of one window's length admits at most 2*limit - 1 requests, over any request sequence, rejected hits counted |
| RateLimit.BurstReached | backend/app/core/ratelimit.py:163-178 | for every limit and every window of at least two time units some sequence reaches that bound |
| RateLimit.RateLimiter.Admit | backend/app/core/ratelimit.py:145-178 | counts the request on its own key, in a new window exactly if the last one is over, and admits it exactly while the count is within the limit; uncounted and admitted without Redis |
| RateLimit.RateLimiter.KeyBurstBound | backend/app/core/ratelimit.py:157-178 | the burst bound for one key, whatever requests the other keys get |
| Locks.HoldersNeverOverlap | backend/app/core/locks.py:27-47 | over any run of acquisitions, expiries and releases, two holders never overlap if the earlier one ended within its TTL |
| Locks.HolderExcludesOthers | backend/app/core/locks.py:33-40 | while a holder is within its TTL nobody else gets the lock |
| Locks.ReleaseSparesOthers | backend/app/core/locks.py:17-20 | a release never removes a lock set by another holder, also not after expiry |
| Locks.EnteredBy | backend/app/core/locks.py:29-41 | in every run each section was entered by one acquisition, at that instant, and without the lock exactly if Redis was down then |
| Locks.Admitted | backend/app/core/locks.py:33-40 | whoever asks is let in exactly if Redis is down or holds no live entry |
| Locks.SecondRefused | backend/app/core/locks.py:33-40 | one who entered with Redis up keeps everybody else out until the TTL has passed or the section has ended |
| Locks.ExpiryFrees | backend/app/core/locks.py:27-34 | a lock nobody releases frees itself after its TTL |
| Locks.HolderReleases | backend/app/core/locks.py:42-47 | a holder that releases within its TTL leaves no entry, and the next one gets in |
| Locks.RedisLock.Enter | backend/app/core/locks.py:29-41 | with Redis up, refused exactly while a live entry exists and else entered with a new entry that lives for the TTL; without Redis entered unlocked |
| Locks.RedisLock.Exit | backend/app/core/locks.py:42-47 | ends the section and removes the entry exactly if it is live and carries the caller's token |
| Invitations.ResponseIsFinal | backend/app/invitations/service.py:103-106 | once answered, an invitation row is never changed by any later history |
| Invitations.AnswersAreRecorded | backend/app/invitations/service.py:248-254 | the answer given is the one recorded in the invitation row and in the participant's response status, for good, and every recorded response was given |
| Invitations.OneResolvingToken | backend/app/invitations/repository.py:51-82 | of all tokens, exactly the last one issued for a row resolves to it, so a re-issue replaces the token before |
| Invitations.RespondedInTime | backend/app/invitations/service.py:207-214 | every successful response was given strictly before the invitation expired |
| Invitations.ClaimedOnce | backend/app/invitations/service.py:270-283 | across all of a user's invitations the account is claimed at most once |
| Invitations.ResponseIsMirrored | backend/app/invitations/service.py:248-254 | the participant's response status is the response that was given |
| Invitations.AcceptedResponses | backend/app/invitations/service.py:237-248 | a response is accepted exactly when the token resolves to a PENDING row before its expiry, and UNAVAILABLE only from a panelist |
| Invitations.RefusedResponses | backend/app/invitations/service.py:207-246 | which refusal a response gets, told from the rows before the call |
| Invitations.AcceptedClaims | backend/app/invitations/service.py:270-281 | a claim is accepted exactly when the row has not expired, asks for account setup, and the user has no password yet |
| Invitations.RefusedClaims | backend/app/invitations/service.py:270-281 | which refusal a claim gets, told from the tables before the call |
| Invitations.InvitationService.IssueForRequest | backend/app/invitations/service.py:85-179 | afterwards every participant has answered or has a PENDING invitation with a fresh token, the new expiry, and account setup asked for exactly without a password |
| Invitations.InvitationService.IssueToOne | backend/app/invitations/service.py:103-149 | a new row, or the existing one rotated in place, each field written out; an answered one is left alone |
| Invitations.InvitationService.ResolveActive | backend/app/invitations/service.py:207-214 | finds the row by digest and marks a PENDING one past its expiry EXPIRED |
| Invitations.InvitationService.RespondTo | backend/app/invitations/service.py:237-267 | the reply for each case; on success exactly the given answer in the row and the participant, otherwise nothing but a lapse |
| Invitations.InvitationService.ClaimAccount | backend/app/invitations/service.py:270-294 | the reply for each case; on success exactly the invited user gets a password |

## Left out

- The frontend, Google HTTP, OAuth, free/busy caching and its retries: a calendar create or delete succeeds or fails, and a failed create is taken to have created nothing.
- Notifications, reminders, audit rows and logging, except the last-resort log of a failed compensation.
- Authentication, password hashing, encryption, roles and provisioning: single guards around library calls.
- The IANA time zone database: a zone is any pair of functions, and only the theorems about a participant's own local day and clock ask for more.
- Floating point and the rounding of stored scores: scores are exact reals.
- Explanation phrases, pagination, list endpoints, visibility filters and migrations: they would add easy members only.
- Process crashes, cancelled tasks, and commits that report failure but took effect.
- Ordering of runs by `generated_at`: the latest run is the last one inserted.
- The reply of a `book` whose insert lost the index race, which is reported like any failed persist.
- The polling loop of a `generate` that finds the recommendation lock held: it waits for another call's result and writes nothing.
- Engine.Validate: timestamps without a time zone, which the engine rejects, do not exist in the model.
- SchedulingTypes.ShiftingZoneConsistent: one clock change only; zones with more are covered by SteadyWorkConsistent.
- SchedulingService.GenerateLocked: a panelist's calendar connection is usable or missing, token refresh is not modelled; the status check, the stored run and the status change are those of Recommend.
- Scoring.WorkloadBalance: existing bookings are any map; the service always passes an empty one.
- BookingConservation.ConservationExact: a user is taken to keep one calendar. The source replaces a user's tokens without comparing Google accounts (backend/app/calendar/service.py:57-89), so a host who reconnects another account between booking and cancelling makes the delete miss the event too.
- BookingHosts.SettledNoOrphan: assumes the same.
- BookingHosts.SerialNoOrphan: assumes the same.
- BookingMachine: a lifecycle call reads status and panel in one step, and `book` reads the panel together with its guard, where the source awaits in between; a panel update assigns the panel whole, where two overlapping ones in the source, each editing the list it has loaded, can leave a union.
- InterviewSystem.Service.Decline: the participant's `response_status` is not modelled.
- InterviewSystem.Service.CreateRequest: role checks and the fields other than candidate and panel are not modelled.
- InterviewSystem.Service.SubmitAvailability: the check that the caller is the candidate and the stored windows are not modelled here.
- InterviewSystem.Service.UpdatePanel: role checks and the other editable fields are not modelled.
- InterviewSystem.Service.RecordOutcome: the recorded outcome, its notes, the NO_SHOW grace period and follow-up rounds are not modelled.
- InterviewSystem.Service.Generate: takes the outcome of the generation as a parameter; which outcome that is, is the subject of SchedulingService.GenerateLocked and RecommendedBooking.Recommend.
- RateLimit.RateLimiter.Admit: the rule table, path patterns, client identity and response headers are not modelled; the key and its limit are parameters.
- RateLimit.BurstBound: requests let through uncounted while Redis is unavailable are outside the bound.
- Locks.HoldersNeverOverlap: sections entered without Redis hold no lock and are not covered, and an entry is never lost before its TTL.
- Invitations.ResponseIsMirrored: a decline of the interview and the replacement of the panel also write or drop a participant's response status; the invitation histories contain neither.
- Invitations.InvitationService.IssueForRequest: the retry after a unique-constraint race is not modelled, and the participants of a request are fixed for the history.
- Invitations.InvitationService.RespondTo: the clock is read once per call.
