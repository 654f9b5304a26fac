/** The token-guarded Redis mutex, in time: acquisition, expiry and release. */
module Locks {
  import opened Wrappers

  type Token = nat

  datatype Entry = Entry(token: Token, expires: int)

  /** One critical section: who entered, when, with or without the lock, and when it ended. */
  datatype Section = Section(token: Token, degraded: bool, since: int, until: Option<int>)

  /** The key in Redis, the clock, and every section so far. */
  datatype LockState = LockState(entry: Option<Entry>, now: int, nextToken: Token, sections: seq<Section>)

  datatype LockMove =
    | Tick(d: nat)
    | Acquire(redisUp: bool)
    | Release(section: nat, redisUp: bool)

  function Start(now: int): LockState {
    LockState(None, now, 0, [])
  }

  predicate Live(s: LockState) {
    s.entry.Some? && s.now < s.entry.value.expires
  }

  /** SET NX EX with a token never used before; without Redis the caller proceeds unlocked. */
  function AcquireStep(s: LockState, ttl: nat, redisUp: bool): LockState {
    if !redisUp then
      s.(nextToken := s.nextToken + 1, sections := s.sections + [Section(s.nextToken, true, s.now, None)])
    else if Live(s) then s.(nextToken := s.nextToken + 1)
    else s.(entry := Some(Entry(s.nextToken, s.now + ttl)),
            nextToken := s.nextToken + 1,
            sections := s.sections + [Section(s.nextToken, false, s.now, None)])
  }

  /** The section ends; the release script deletes the key only if it still carries its token. */
  function ReleaseStep(s: LockState, i: nat, redisUp: bool): LockState {
    if i >= |s.sections| || s.sections[i].until.Some? then s
    else
      var c := s.sections[i];
      s.(sections := s.sections[i := c.(until := Some(s.now))],
         entry := if redisUp && !c.degraded && Live(s) && s.entry.value.token == c.token then None else s.entry)
  }

  function LockStep(s: LockState, ttl: nat, m: LockMove): LockState {
    match m
    case Tick(d) => s.(now := s.now + d)
    case Acquire(up) => AcquireStep(s, ttl, up)
    case Release(i, up) => ReleaseStep(s, i, up)
  }

  function LockRun(s: LockState, ttl: nat, moves: seq<LockMove>): LockState
    decreases |moves|
  {
    if moves == [] then s else LockRun(LockStep(s, ttl, moves[0]), ttl, moves[1..])
  }

  /** The later section began after the earlier one ended, or after the earlier one's TTL. */
  ghost predicate Follows(ttl: nat, a: Section, b: Section) {
    b.since >= a.since + ttl || (a.until.Some? && a.until.value <= b.since)
  }

  /** An unexpired section that entered with the lock still has its entry in Redis. */
  ghost predicate SectionSound(s: LockState, ttl: nat, c: Section) {
    && c.token < s.nextToken && c.since <= s.now
    && (c.until.Some? ==> c.since <= c.until.value <= s.now)
    && (!c.degraded && c.until.None? && s.now < c.since + ttl ==> s.entry == Some(Entry(c.token, c.since + ttl)))
  }

  /** Two sections, the first of them earlier. */
  ghost predicate PairSound(ttl: nat, a: Section, b: Section) {
    a.token != b.token && (!a.degraded && !b.degraded ==> Follows(ttl, a, b))
  }

  ghost predicate LockInv(s: LockState, ttl: nat) {
    && (forall i :: 0 <= i < |s.sections| ==> SectionSound(s, ttl, s.sections[i]))
    && (forall i, j :: 0 <= i < j < |s.sections| ==> PairSound(ttl, s.sections[i], s.sections[j]))
  }

  lemma AcquireKeepsInv(s: LockState, ttl: nat, up: bool)
    requires LockInv(s, ttl)
    ensures LockInv(AcquireStep(s, ttl, up), ttl)
  {
  }

  lemma ReleaseKeepsInv(s: LockState, ttl: nat, k: nat, up: bool)
    requires LockInv(s, ttl)
    ensures LockInv(ReleaseStep(s, k, up), ttl)
  {
  }

  lemma StepKeepsInv(s: LockState, ttl: nat, m: LockMove)
    requires LockInv(s, ttl)
    ensures LockInv(LockStep(s, ttl, m), ttl)
  {
    match m {
      case Tick(d) =>
        forall i | 0 <= i < |s.sections| ensures SectionSound(LockStep(s, ttl, m), ttl, s.sections[i]) {
          assert SectionSound(s, ttl, s.sections[i]);
        }
      case Acquire(up) => AcquireKeepsInv(s, ttl, up);
      case Release(i, up) => ReleaseKeepsInv(s, ttl, i, up);
    }
  }

  lemma {:induction false} LockRunKeepsInv(s: LockState, ttl: nat, moves: seq<LockMove>)
    requires LockInv(s, ttl)
    ensures LockInv(LockRun(s, ttl, moves), ttl)
    decreases |moves|
  {
    if moves != [] {
      StepKeepsInv(s, ttl, moves[0]);
      LockRunKeepsInv(LockStep(s, ttl, moves[0]), ttl, moves[1..]);
    }
  }

  /** Over any run of acquisitions, expiries and releases, two holders of the lock never overlap
      if the first one's section ended within its TTL. */
  lemma HoldersNeverOverlap(start: int, ttl: nat, moves: seq<LockMove>, i: nat, j: nat)
    requires var s := LockRun(Start(start), ttl, moves);
             && i < j < |s.sections| && !s.sections[i].degraded && !s.sections[j].degraded
             && s.sections[i].until.Some? && s.sections[i].until.value <= s.sections[i].since + ttl
    ensures var s := LockRun(Start(start), ttl, moves); s.sections[i].until.value <= s.sections[j].since
  {
    LockRunKeepsInv(Start(start), ttl, moves);
    var s := LockRun(Start(start), ttl, moves);
    assert PairSound(ttl, s.sections[i], s.sections[j]);
  }

  /** While a holder is within its TTL, nobody else gets the lock. */
  lemma HolderExcludesOthers(start: int, ttl: nat, moves: seq<LockMove>, i: nat)
    requires var s := LockRun(Start(start), ttl, moves);
             && i < |s.sections| && !s.sections[i].degraded && s.sections[i].until.None?
             && s.now < s.sections[i].since + ttl
    ensures var s := LockRun(Start(start), ttl, moves); AcquireStep(s, ttl, true).sections == s.sections
  {
    LockRunKeepsInv(Start(start), ttl, moves);
    var s := LockRun(Start(start), ttl, moves);
    assert SectionSound(s, ttl, s.sections[i]);
  }

  /** A release never removes a lock set by another holder, even one that took over after expiry. */
  lemma ReleaseSparesOthers(start: int, ttl: nat, moves: seq<LockMove>, i: nat, k: nat, up: bool)
    requires var s := LockRun(Start(start), ttl, moves);
             i < |s.sections| && k < |s.sections| && i != k && Live(s) && s.entry.value.token == s.sections[k].token
    ensures var s := LockRun(Start(start), ttl, moves); ReleaseStep(s, i, up).entry == s.entry
  {
    LockRunKeepsInv(Start(start), ttl, moves);
    var s := LockRun(Start(start), ttl, moves);
    assert i < k ==> PairSound(ttl, s.sections[i], s.sections[k]);
    assert k < i ==> PairSound(ttl, s.sections[k], s.sections[i]);
  }

  // ------------------------------------------------------------ the lock is really taken

  lemma {:induction false} LockRunAppend(s: LockState, ttl: nat, moves: seq<LockMove>, m: LockMove)
    ensures LockRun(s, ttl, moves + [m]) == LockStep(LockRun(s, ttl, moves), ttl, m)
    decreases |moves|
  {
    if moves == [] {
      assert [] + [m] == [m];
      assert LockRun(LockStep(s, ttl, m), ttl, []) == LockStep(s, ttl, m);
    } else {
      assert (moves + [m])[1..] == moves[1..] + [m];
      LockRunAppend(LockStep(s, ttl, moves[0]), ttl, moves[1..], m);
    }
  }

  /** Sections are only added, and keep how they were entered. */
  ghost predicate SameEntries(a: LockState, b: LockState) {
    && |a.sections| <= |b.sections|
    && forall i :: 0 <= i < |a.sections| ==>
         && b.sections[i].token == a.sections[i].token && b.sections[i].degraded == a.sections[i].degraded
         && b.sections[i].since == a.sections[i].since
         && (a.sections[i].until.Some? ==> b.sections[i].until == a.sections[i].until)
  }

  lemma {:induction false} LockRunKeepsEntries(s: LockState, ttl: nat, moves: seq<LockMove>)
    ensures SameEntries(s, LockRun(s, ttl, moves))
    decreases |moves|
  {
    if moves != [] {
      LockRunKeepsEntries(LockStep(s, ttl, moves[0]), ttl, moves[1..]);
    }
  }

  /** In every run each section was entered by one of the acquisitions, at that instant, and without
      the lock exactly if Redis was down then. */
  lemma {:induction false} EnteredBy(start: int, ttl: nat, moves: seq<LockMove>, i: nat) returns (k: nat)
    requires i < |LockRun(Start(start), ttl, moves).sections|
    ensures k < |moves| && moves[k].Acquire?
    ensures var before, c := LockRun(Start(start), ttl, moves[..k]), LockRun(Start(start), ttl, moves).sections[i];
            && |before.sections| == i && c.since == before.now && c.token == before.nextToken
            && (c.degraded <==> !moves[k].redisUp)
            && (moves[k].redisUp ==> before.entry.None? || before.entry.value.expires <= before.now)
    decreases |moves|
  {
    var n := |moves| - 1;
    var earlier := moves[..n];
    assert moves == earlier + [moves[n]];
    LockRunAppend(Start(start), ttl, earlier, moves[n]);
    if i < |LockRun(Start(start), ttl, earlier).sections| {
      k := EnteredBy(start, ttl, earlier, i);
      assert earlier[..k] == moves[..k];
    } else {
      k := n;
    }
  }

  /** Whoever asks is let in unless Redis is up and holds a live entry. */
  lemma Admitted(s: LockState, ttl: nat, redisUp: bool)
    ensures |LockStep(s, ttl, Acquire(redisUp)).sections| == |s.sections| + 1 <==>
              !redisUp || s.entry.None? || s.entry.value.expires <= s.now
    ensures |LockStep(s, ttl, Acquire(redisUp)).sections| in {|s.sections|, |s.sections| + 1}
  {
  }

  /** A lock that nobody releases frees itself when its TTL has passed. */
  lemma ExpiryFrees(s: LockState, ttl: nat)
    requires |LockStep(s, ttl, Acquire(true)).sections| == |s.sections| + 1
    ensures var later := LockStep(LockStep(s, ttl, Acquire(true)), ttl, Tick(ttl));
            && later.now == s.now + ttl
            && |LockStep(later, ttl, Acquire(true)).sections| == |later.sections| + 1
  {
  }

  /** From every reached state: one who entered with Redis up keeps everybody else out until the TTL has
      passed or the section has ended. */
  lemma SecondRefused(start: int, ttl: nat, before: seq<LockMove>, after: seq<LockMove>)
    requires var s := LockRun(Start(start), ttl, before);
             |LockStep(s, ttl, Acquire(true)).sections| == |s.sections| + 1
    ensures var s := LockRun(Start(start), ttl, before);
            var later := LockRun(LockStep(s, ttl, Acquire(true)), ttl, after);
            var i := |s.sections|;
            && i < |later.sections|
            && (later.now < s.now + ttl && later.sections[i].until.None? ==>
                  LockStep(later, ttl, Acquire(true)).sections == later.sections)
  {
    var s := LockRun(Start(start), ttl, before);
    var entered := LockStep(s, ttl, Acquire(true));
    LockRunKeepsInv(Start(start), ttl, before);
    StepKeepsInv(s, ttl, Acquire(true));
    LockRunKeepsInv(entered, ttl, after);
    LockRunKeepsEntries(entered, ttl, after);
    var later := LockRun(entered, ttl, after);
    assert SectionSound(later, ttl, later.sections[|s.sections|]);
  }

  /** A holder that releases within its TTL with Redis up leaves no entry, so the next one gets in. */
  lemma HolderReleases(start: int, ttl: nat, moves: seq<LockMove>, i: nat)
    requires var s := LockRun(Start(start), ttl, moves);
             && i < |s.sections| && !s.sections[i].degraded && s.sections[i].until.None?
             && s.now < s.sections[i].since + ttl
    ensures var s := LockRun(Start(start), ttl, moves);
            var released := LockStep(s, ttl, Release(i, true));
            && released.entry.None? && released.sections[i].until == Some(s.now)
            && |LockStep(released, ttl, Acquire(true)).sections| == |s.sections| + 1
  {
    LockRunKeepsInv(Start(start), ttl, moves);
    var s := LockRun(Start(start), ttl, moves);
    assert SectionSound(s, ttl, s.sections[i]);
  }

  /** `redis_lock` as the source has it: `held` is true, false, or undecided without Redis. */
  datatype Held = Locked | Busy | Degraded

  class RedisLock {
    const ttl: nat
    var entry: Option<Entry>
    var now: int
    var nextToken: Token
    ghost var sections: seq<Section>

    ghost function State(): LockState
      reads this
    {
      LockState(entry, now, nextToken, sections)
    }

    constructor (ttl: nat, now: int)
      ensures State() == Start(now) && this.ttl == ttl
    {
      this.ttl, this.now := ttl, now;
      entry, nextToken, sections := None, 0, [];
    }

    method Enter(redisUp: bool) returns (held: Held, token: Token)
      modifies this`entry, this`nextToken, this`sections
      ensures State() == LockStep(old(State()), ttl, Acquire(redisUp))
      ensures token == old(nextToken)
      ensures held.Degraded? <==> !redisUp
      ensures held.Busy? <==> redisUp && old(entry).Some? && now < old(entry).value.expires
      ensures entry == if held.Locked? then Some(Entry(token, now + ttl)) else old(entry)
      ensures held.Busy? ==> sections == old(sections)
      ensures !held.Busy? ==> sections == old(sections) + [Section(token, held.Degraded?, now, None)]
    {
      token := nextToken;
      nextToken := nextToken + 1;
      if !redisUp {
        held := Degraded;
      } else if entry.Some? && now < entry.value.expires {
        held := Busy;
      } else {
        entry := Some(Entry(token, now + ttl));
        held := Locked;
      }
      if held != Busy {
        sections := sections + [Section(token, held == Degraded, now, None)];
      }
    }

    method Exit(held: Held, token: Token, redisUp: bool, ghost i: nat)
      requires i < |sections| && sections[i] == Section(token, held.Degraded?, sections[i].since, None)
      requires !held.Busy?
      modifies this`entry, this`sections
      ensures State() == LockStep(old(State()), ttl, Release(i, redisUp))
      ensures sections == old(sections)[i := Section(token, held.Degraded?, old(sections)[i].since, Some(now))]
      ensures entry == if held.Locked? && redisUp && old(entry).Some? && old(entry).value.token == token
                          && now < old(entry).value.expires
                       then None else old(entry)
    {
      sections := sections[i := sections[i].(until := Some(now))];
      if held == Locked && redisUp {
        if entry.Some? && now < entry.value.expires && entry.value.token == token {
          entry := None;
        }
      }
    }
  }
}
