/** Participant invitations: issue and re-issue, token resolution, response and account claim. */
module Invitations {
  import opened Wrappers
  import opened Lists

  type Id = nat
  type Token = nat
  type Digest = nat

  datatype Key = Key(request: Id, user: Id)

  datatype Role = Candidate | Panelist

  datatype Response = Accepted | Declined | Unavailable

  datatype Status = Pending | Expired | Responded(response: Response)

  /** One participant_invitations row: only the digest of the token is stored. */
  datatype Row = Row(
    key: Key, role: Role, digest: Digest, status: Status, requiresSetup: bool, expiresAt: int, sendCount: nat)

  /** A successful response, with the instant it was given and the row's expiry at that moment. */
  datatype Answer = Answer(row: nat, response: Response, at: int, expiresAt: int)

  datatype Person = Person(user: Id, role: Role)

  /** The tables, and what the proofs remember: tokens issued per row, answers, claims. Raw tokens
      are random and never repeat, so they are numbered as they are drawn. */
  datatype State = State(
    people: map<Id, seq<Person>>,
    rows: seq<Row>,
    mirrored: map<Key, Response>,  // response_status of the participant row
    withPassword: set<Id>,
    nextToken: Token,
    issued: seq<seq<Token>>,
    answers: seq<Answer>,
    claims: seq<Id>)

  datatype Move =
    | Issue(request: Id, now: int, ttl: nat)
    | Resolve(token: Token, now: int)
    | Respond(token: Token, response: Response, now: int)
    | Claim(token: Token, now: int)

  function Empty(people: map<Id, seq<Person>>, withPassword: set<Id>): State {
    State(people, [], map[], withPassword, 0, [], [], [])
  }

  // ----------------------------------------------------------------------- lookups

  function FindKey(rows: seq<Row>, k: Key, n: nat): (i: Option<nat>)
    requires n <= |rows|
    ensures i.Some? ==> i.value < n && rows[i.value].key == k
    ensures i.None? ==> forall j :: 0 <= j < n ==> rows[j].key != k
  {
    if n == 0 then None else if rows[n - 1].key == k then Some(n - 1) else FindKey(rows, k, n - 1)
  }

  function FindDigest(rows: seq<Row>, d: Digest, n: nat): (i: Option<nat>)
    requires n <= |rows|
    ensures i.Some? ==> i.value < n && rows[i.value].digest == d
    ensures i.None? ==> forall j :: 0 <= j < n ==> rows[j].digest != d
  {
    if n == 0 then None else if rows[n - 1].digest == d then Some(n - 1) else FindDigest(rows, d, n - 1)
  }

  // ------------------------------------------------------------------------- issue

  /** The resend path: new token, status and expiry reset, same row. */
  function Rotated(row: Row, d: Digest, requiresSetup: bool, expiresAt: int): Row {
    row.(digest := d, status := Pending, requiresSetup := requiresSetup, expiresAt := expiresAt,
         sendCount := row.sendCount + 1)
  }

  /** A fresh token for one participant, unless that participant has already responded. */
  function IssueOne(s: State, digest: Token -> Digest, r: Id, p: Person, expiresAt: int): State {
    var k, t, setup := Key(r, p.user), s.nextToken, p.user !in s.withPassword;
    var found := FindKey(s.rows, k, |s.rows|);
    if found.None? then
      s.(rows := s.rows + [Row(k, p.role, digest(t), Pending, setup, expiresAt, 1)],
         issued := s.issued + [[t]], nextToken := t + 1)
    else if s.rows[found.value].status.Responded? || found.value >= |s.issued| then s
    else
      var i := found.value;
      s.(rows := s.rows[i := Rotated(s.rows[i], digest(t), setup, expiresAt)],
         issued := s.issued[i := s.issued[i] + [t]], nextToken := t + 1)
  }

  /** The loop over the first n participants. */
  function IssueFirst(s: State, digest: Token -> Digest, r: Id, parts: seq<Person>, n: nat, expiresAt: int): State
    requires n <= |parts|
  {
    if n == 0 then s
    else IssueOne(IssueFirst(s, digest, r, parts, n - 1, expiresAt), digest, r, parts[n - 1], expiresAt)
  }

  function PeopleOf(s: State, r: Id): seq<Person> {
    if r in s.people then s.people[r] else []
  }

  // ------------------------------------------------------- resolve, respond, claim

  /** Finds the row; a PENDING one past its expiry becomes EXPIRED. */
  function ResolveStep(s: State, digest: Token -> Digest, token: Token, now: int): State {
    var i := FindDigest(s.rows, digest(token), |s.rows|);
    if i.Some? && s.rows[i.value].status.Pending? && s.rows[i.value].expiresAt <= now
    then s.(rows := s.rows[i.value := s.rows[i.value].(status := Expired)])
    else s
  }

  function RespondStep(s0: State, digest: Token -> Digest, token: Token, response: Response, now: int): State {
    var s := ResolveStep(s0, digest, token, now);
    var i := FindDigest(s.rows, digest(token), |s.rows|);
    if i.None? then s
    else
      var row := s.rows[i.value];
      if !row.status.Pending? || (response.Unavailable? && !row.role.Panelist?) then s
      else s.(rows := s.rows[i.value := row.(status := Responded(response))],
              mirrored := s.mirrored[row.key := response],
              answers := s.answers + [Answer(i.value, response, now, row.expiresAt)])
  }

  function ClaimStep(s0: State, digest: Token -> Digest, token: Token, now: int): State {
    var s := ResolveStep(s0, digest, token, now);
    var i := FindDigest(s.rows, digest(token), |s.rows|);
    if i.None? then s
    else
      var row := s.rows[i.value];
      if row.status.Expired? || !row.requiresSetup || row.key.user in s.withPassword then s
      else s.(withPassword := s.withPassword + {row.key.user}, claims := s.claims + [row.key.user])
  }

  function Step(s: State, digest: Token -> Digest, m: Move): State {
    match m
    case Issue(r, now, ttl) => IssueFirst(s, digest, r, PeopleOf(s, r), |PeopleOf(s, r)|, now + ttl)
    case Resolve(token, now) => ResolveStep(s, digest, token, now)
    case Respond(token, response, now) => RespondStep(s, digest, token, response, now)
    case Claim(token, now) => ClaimStep(s, digest, token, now)
  }

  function Run(s: State, digest: Token -> Digest, moves: seq<Move>): State
    decreases |moves|
  {
    if moves == [] then s else Run(Step(s, digest, moves[0]), digest, moves[1..])
  }

  // --------------------------------------------------------------------- invariant

  ghost predicate Injective(digest: Token -> Digest) {
    forall a, b :: digest(a) == digest(b) ==> a == b
  }

  function Last(ts: seq<Token>): Token
    requires ts != []
  {
    ts[|ts| - 1]
  }

  /** Each row stores the digest of the last token issued for it. */
  ghost predicate RowSound(s: State, digest: Token -> Digest, i: nat)
    requires i < |s.rows| && i < |s.issued|
  {
    var row, ts := s.rows[i], s.issued[i];
    && ts != [] && row.digest == digest(Last(ts))
    && (forall a :: 0 <= a < |ts| ==> ts[a] < s.nextToken)
    && (forall a, b :: 0 <= a < b < |ts| ==> ts[a] != ts[b])
    && (row.status.Responded? ==> row.key in s.mirrored && s.mirrored[row.key] == row.status.response)
  }

  ghost predicate Apart(s: State, i: nat, j: nat)
    requires i < |s.rows| && j < |s.rows| && i < |s.issued| && j < |s.issued|
  {
    && s.rows[i].key != s.rows[j].key
    && forall t :: t in s.issued[i] ==> t !in s.issued[j]
  }

  /** An answer was given in time, and its row shows it. */
  ghost predicate AnswerKept(s: State, a: Answer) {
    a.at < a.expiresAt && a.row < |s.rows| && s.rows[a.row].status == Responded(a.response)
  }

  /** Somebody answered row i. */
  ghost predicate Answered(s: State, i: nat) {
    exists a :: 0 <= a < |s.answers| && s.answers[a].row == i
  }

  ghost predicate Inv(s: State, digest: Token -> Digest) {
    && |s.issued| == |s.rows|
    && (forall i :: 0 <= i < |s.rows| ==> RowSound(s, digest, i))
    && (forall i, j :: 0 <= i < j < |s.rows| ==> Apart(s, i, j))
    && (forall a :: 0 <= a < |s.answers| ==> AnswerKept(s, s.answers[a]))
    && (forall i :: 0 <= i < |s.rows| && s.rows[i].status.Responded? ==> Answered(s, i))
    && NoDuplicates(s.claims) && (forall u :: u in s.claims ==> u in s.withPassword)
  }

  /** Rows are only added; a row that was responded to is never touched again. */
  ghost predicate Settled(a: State, b: State) {
    && |a.rows| <= |b.rows|
    && forall i :: 0 <= i < |a.rows| ==>
         && b.rows[i].key == a.rows[i].key
         && (a.rows[i].status.Responded? ==> b.rows[i] == a.rows[i])
  }

  lemma IssueOneRows(s: State, digest: Token -> Digest, r: Id, p: Person, expiresAt: int)
    requires Inv(s, digest)
    ensures var s' := IssueOne(s, digest, r, p, expiresAt);
            && |s'.issued| == |s'.rows|
            && (forall i :: 0 <= i < |s'.rows| ==> RowSound(s', digest, i))
            && forall i, j :: 0 <= i < j < |s'.rows| ==> Apart(s', i, j)
  {
    hide AnswerKept, Answered;
    var s' := IssueOne(s, digest, r, p, expiresAt);
    forall i | 0 <= i < |s'.rows| ensures RowSound(s', digest, i) {
      if i < |s.rows| {
        assert RowSound(s, digest, i);
      }
    }
    forall i, j | 0 <= i < j < |s'.rows| ensures Apart(s', i, j) {
      assert RowSound(s, digest, i);
      if j < |s.rows| {
        assert RowSound(s, digest, j) && Apart(s, i, j);
      }
    }
  }

  lemma IssueOneAnswers(s: State, digest: Token -> Digest, r: Id, p: Person, expiresAt: int)
    requires Inv(s, digest)
    ensures var s' := IssueOne(s, digest, r, p, expiresAt);
            && Settled(s, s') && s'.claims == s.claims && s'.withPassword == s.withPassword
            && (forall a :: 0 <= a < |s'.answers| ==> AnswerKept(s', s'.answers[a]))
            && forall i :: 0 <= i < |s'.rows| && s'.rows[i].status.Responded? ==> Answered(s', i)
  {
    hide RowSound, Apart;
    var s' := IssueOne(s, digest, r, p, expiresAt);
    forall i | 0 <= i < |s'.rows| && s'.rows[i].status.Responded? ensures Answered(s', i) {
      assert Answered(s, i);
    }
    forall a | 0 <= a < |s'.answers| ensures AnswerKept(s', s'.answers[a]) {
      assert AnswerKept(s, s.answers[a]);
    }
  }

  lemma IssueOneKeeps(s: State, digest: Token -> Digest, r: Id, p: Person, expiresAt: int)
    requires Inv(s, digest)
    ensures Inv(IssueOne(s, digest, r, p, expiresAt), digest) && Settled(s, IssueOne(s, digest, r, p, expiresAt))
  {
    IssueOneRows(s, digest, r, p, expiresAt);
    IssueOneAnswers(s, digest, r, p, expiresAt);
    hide IssueOne, RowSound, Apart, AnswerKept, Answered;
  }

  lemma {:induction false} IssueFirstKeeps(
    s: State, digest: Token -> Digest, r: Id, parts: seq<Person>, n: nat, expiresAt: int)
    requires Inv(s, digest) && n <= |parts|
    ensures var s' := IssueFirst(s, digest, r, parts, n, expiresAt); Inv(s', digest) && Settled(s, s')
  {
    if n > 0 {
      IssueFirstKeeps(s, digest, r, parts, n - 1, expiresAt);
      IssueOneKeeps(IssueFirst(s, digest, r, parts, n - 1, expiresAt), digest, r, parts[n - 1], expiresAt);
    }
  }

  /** A step that changes only the status of row i, and perhaps answers and claims. */
  lemma StatusOnlyKeeps(s: State, s': State, digest: Token -> Digest)
    requires Inv(s, digest)
    requires |s'.rows| == |s.rows| && s'.issued == s.issued && s'.nextToken == s.nextToken
    requires forall i :: 0 <= i < |s.rows| ==>
               && s'.rows[i].key == s.rows[i].key && s'.rows[i].digest == s.rows[i].digest
               && (s'.rows[i].status.Responded? ==>
                     s'.rows[i].key in s'.mirrored && s'.mirrored[s'.rows[i].key] == s'.rows[i].status.response)
    requires forall a :: 0 <= a < |s'.answers| ==> AnswerKept(s', s'.answers[a])
    requires forall i :: 0 <= i < |s'.rows| && s'.rows[i].status.Responded? ==> Answered(s', i)
    requires NoDuplicates(s'.claims) && forall u :: u in s'.claims ==> u in s'.withPassword
    ensures Inv(s', digest)
  {
    forall i | 0 <= i < |s'.rows| ensures RowSound(s', digest, i) {
      assert RowSound(s, digest, i);
    }
    forall i, j | 0 <= i < j < |s'.rows| ensures Apart(s', i, j) {
      assert Apart(s, i, j);
    }
  }

  lemma RowsMirrored(s: State, digest: Token -> Digest)
    requires Inv(s, digest)
    ensures forall i :: 0 <= i < |s.rows| && s.rows[i].status.Responded? ==>
              s.rows[i].key in s.mirrored && s.mirrored[s.rows[i].key] == s.rows[i].status.response
  {
    forall i | 0 <= i < |s.rows| && s.rows[i].status.Responded?
      ensures s.rows[i].key in s.mirrored && s.mirrored[s.rows[i].key] == s.rows[i].status.response
    {
      assert RowSound(s, digest, i);
    }
  }

  lemma ResolveKeeps(s: State, digest: Token -> Digest, token: Token, now: int)
    requires Inv(s, digest)
    ensures var s' := ResolveStep(s, digest, token, now);
            Inv(s', digest) && Settled(s, s') && s'.claims == s.claims && s'.answers == s.answers
  {
    RowsMirrored(s, digest);
    StatusOnlyKeeps(s, ResolveStep(s, digest, token, now), digest);
  }

  /** Resolving first means a row still PENDING afterwards has not reached its expiry. */
  lemma StillPending(s: State, digest: Token -> Digest, token: Token, now: int, i: nat)
    requires var s' := ResolveStep(s, digest, token, now);
             i < |s'.rows| && FindDigest(s'.rows, digest(token), |s'.rows|) == Some(i) && s'.rows[i].status.Pending?
    ensures now < ResolveStep(s, digest, token, now).rows[i].expiresAt
  {
    var s' := ResolveStep(s, digest, token, now);
    SameDigests(s.rows, s'.rows, digest(token), |s.rows|);
  }

  lemma {:induction false} SameDigests(a: seq<Row>, b: seq<Row>, d: Digest, n: nat)
    requires n <= |a| && |a| == |b| && forall i :: 0 <= i < |a| ==> a[i].digest == b[i].digest
    ensures FindDigest(a, d, n) == FindDigest(b, d, n)
  {
    if n > 0 {
      SameDigests(a, b, d, n - 1);
    }
  }

  lemma RespondKeeps(s: State, digest: Token -> Digest, token: Token, response: Response, now: int)
    requires Inv(s, digest)
    ensures var s' := RespondStep(s, digest, token, response, now); Inv(s', digest) && Settled(s, s')
  {
    var m := ResolveStep(s, digest, token, now);
    var s' := RespondStep(s, digest, token, response, now);
    ResolveKeeps(s, digest, token, now);
    if s' != m {
      var i := FindDigest(m.rows, digest(token), |m.rows|).value;
      StillPending(s, digest, token, now, i);
      forall j | 0 <= j < |m.rows|
        ensures s'.rows[j].status.Responded? ==>
                  s'.rows[j].key in s'.mirrored && s'.mirrored[s'.rows[j].key] == s'.rows[j].status.response
      {
        assert RowSound(m, digest, j);
        assert j < i ==> Apart(m, j, i);
        assert i < j ==> Apart(m, i, j);
      }
      AnswerJoins(m, s', i, response, now);
      StatusOnlyKeeps(m, s', digest);
    }
  }

  /** A PENDING row is answered: the answers so far keep their rows, and the new one has its own. */
  lemma AnswerJoins(m: State, s': State, i: nat, response: Response, now: int)
    requires i < |m.rows| && m.rows[i].status.Pending? && now < m.rows[i].expiresAt
    requires s'.rows == m.rows[i := m.rows[i].(status := Responded(response))]
    requires s'.answers == m.answers + [Answer(i, response, now, m.rows[i].expiresAt)]
    requires forall a :: 0 <= a < |m.answers| ==> AnswerKept(m, m.answers[a])
    requires forall j :: 0 <= j < |m.rows| && m.rows[j].status.Responded? ==> Answered(m, j)
    ensures forall a :: 0 <= a < |s'.answers| ==> AnswerKept(s', s'.answers[a])
    ensures forall j :: 0 <= j < |s'.rows| && s'.rows[j].status.Responded? ==> Answered(s', j)
  {
    forall a | 0 <= a < |s'.answers| ensures AnswerKept(s', s'.answers[a]) {
      assert a < |m.answers| ==> AnswerKept(m, m.answers[a]);
    }
    forall j | 0 <= j < |s'.rows| && s'.rows[j].status.Responded? ensures Answered(s', j) {
      if j == i {
        assert s'.answers[|m.answers|].row == i;
      } else {
        assert Answered(m, j);
        var a :| 0 <= a < |m.answers| && m.answers[a].row == j;
        assert s'.answers[a].row == j;
      }
    }
  }

  lemma ClaimKeeps(s: State, digest: Token -> Digest, token: Token, now: int)
    requires Inv(s, digest)
    ensures var s' := ClaimStep(s, digest, token, now); Inv(s', digest) && Settled(s, s')
  {
    var m := ResolveStep(s, digest, token, now);
    ResolveKeeps(s, digest, token, now);
    RowsMirrored(m, digest);
    StatusOnlyKeeps(m, ClaimStep(s, digest, token, now), digest);
  }

  lemma StepKeeps(s: State, digest: Token -> Digest, m: Move)
    requires Inv(s, digest)
    ensures Inv(Step(s, digest, m), digest) && Settled(s, Step(s, digest, m))
  {
    match m
    case Issue(r, now, ttl) => IssueFirstKeeps(s, digest, r, PeopleOf(s, r), |PeopleOf(s, r)|, now + ttl);
    case Resolve(token, now) => ResolveKeeps(s, digest, token, now);
    case Respond(token, response, now) => RespondKeeps(s, digest, token, response, now);
    case Claim(token, now) => ClaimKeeps(s, digest, token, now);
  }

  lemma {:induction false} RunKeeps(s: State, digest: Token -> Digest, moves: seq<Move>)
    requires Inv(s, digest)
    ensures Inv(Run(s, digest, moves), digest) && Settled(s, Run(s, digest, moves))
    decreases |moves|
  {
    if moves != [] {
      StepKeeps(s, digest, moves[0]);
      RunKeeps(Step(s, digest, moves[0]), digest, moves[1..]);
    }
  }

  // -------------------------------------------------------------- every serial history

  /** A state some history has led to. */
  ghost predicate Reached(s: State, digest: Token -> Digest) {
    exists people, withPassword, moves :: s == Run(Empty(people, withPassword), digest, moves)
  }

  lemma ReachedSound(s: State, digest: Token -> Digest)
    requires Reached(s, digest)
    ensures Inv(s, digest)
  {
    var people, withPassword, moves :| s == Run(Empty(people, withPassword), digest, moves);
    RunKeeps(Empty(people, withPassword), digest, moves);
  }

  /** A response, once given, is never changed: not its status, not its token, not its expiry. */
  lemma ResponseIsFinal(s: State, digest: Token -> Digest, moves: seq<Move>, i: nat)
    requires Reached(s, digest) && i < |s.rows| && s.rows[i].status.Responded?
    ensures i < |Run(s, digest, moves).rows| && Run(s, digest, moves).rows[i] == s.rows[i]
  {
    ReachedSound(s, digest);
    RunKeeps(s, digest, moves);
  }

  /** Whatever token is presented, a row resolves it exactly when it is the last one issued for
      that row; so each re-issue replaces the previous token, and no other row answers to it. */
  lemma OneResolvingToken(s: State, digest: Token -> Digest, i: nat, token: Token)
    requires Reached(s, digest) && Injective(digest) && i < |s.rows|
    ensures i < |s.issued| && s.issued[i] != []
    ensures FindDigest(s.rows, digest(token), |s.rows|) == Some(i) <==> token == Last(s.issued[i])
    ensures token in s.issued[i] && token != Last(s.issued[i]) ==>
              FindDigest(s.rows, digest(token), |s.rows|).None?
  {
    ReachedSound(s, digest);
    assert RowSound(s, digest, i);
    var found := FindDigest(s.rows, digest(token), |s.rows|);
    if found.Some? {
      var j := found.value;
      assert RowSound(s, digest, j);
      assert token == Last(s.issued[j]) && token in s.issued[j];
      assert i < j ==> Apart(s, i, j);
      assert j < i ==> Apart(s, j, i);
    } else {
      assert s.rows[i].digest != digest(token);
    }
  }

  /** The answer given is the answer recorded: in the row, in the participant's response status, and for
      good. Conversely every recorded response was given. */
  lemma AnswersAreRecorded(s: State, digest: Token -> Digest)
    requires Reached(s, digest)
    ensures forall a :: 0 <= a < |s.answers| ==>
              && s.answers[a].row < |s.rows| && s.rows[s.answers[a].row].status == Responded(s.answers[a].response)
              && s.rows[s.answers[a].row].key in s.mirrored
              && s.mirrored[s.rows[s.answers[a].row].key] == s.answers[a].response
    ensures forall i :: 0 <= i < |s.rows| && s.rows[i].status.Responded? ==>
              exists a :: 0 <= a < |s.answers| && s.answers[a].row == i
  {
    ReachedSound(s, digest);
    RowsMirrored(s, digest);
    forall a | 0 <= a < |s.answers|
      ensures s.answers[a].row < |s.rows| && s.rows[s.answers[a].row].status == Responded(s.answers[a].response)
    {
      assert AnswerKept(s, s.answers[a]);
    }
    forall i | 0 <= i < |s.rows| && s.rows[i].status.Responded?
      ensures exists a :: 0 <= a < |s.answers| && s.answers[a].row == i
    {
      assert Answered(s, i);
    }
  }

  /** Every successful response was given strictly before its invitation expired. */
  lemma RespondedInTime(s: State, digest: Token -> Digest, a: nat)
    requires Reached(s, digest) && a < |s.answers|
    ensures s.answers[a].at < s.answers[a].expiresAt
  {
    ReachedSound(s, digest);
  }

  /** Across all of a user's invitations, the account is claimed at most once. */
  lemma ClaimedOnce(s: State, digest: Token -> Digest, a: nat, b: nat)
    requires Reached(s, digest) && a < b < |s.claims|
    ensures s.claims[a] != s.claims[b]
  {
    ReachedSound(s, digest);
  }

  /** The participant row shows the response that was given. */
  lemma ResponseIsMirrored(s: State, digest: Token -> Digest, i: nat)
    requires Reached(s, digest) && i < |s.rows| && s.rows[i].status.Responded?
    ensures s.rows[i].key in s.mirrored && s.mirrored[s.rows[i].key] == s.rows[i].status.response
  {
    ReachedSound(s, digest);
    assert i < |s.issued| && RowSound(s, digest, i);
  }

  /** The participant has answered, or has a PENDING invitation with this expiry, a token drawn from
      `from` on, and account setup asked for exactly if there is no password yet. */
  ghost predicate Invited(s: State, digest: Token -> Digest, r: Id, p: Person, expiresAt: int, from: Token) {
    exists i :: 0 <= i < |s.rows| && s.rows[i].key == Key(r, p.user) && InvitedBy(s, digest, s.rows[i], expiresAt, from)
  }

  ghost predicate InvitedBy(s: State, digest: Token -> Digest, row: Row, expiresAt: int, from: Token) {
    row.status.Responded?
    || (&& row.status.Pending? && row.expiresAt == expiresAt && row.sendCount >= 1
        && (row.requiresSetup <==> row.key.user !in s.withPassword)
        && exists t: Token :: from <= t < s.nextToken && row.digest == digest(t))
  }

  /** Inviting one participant invites that one and leaves the others invited. */
  lemma IssueOneInvites(s: State, digest: Token -> Digest, r: Id, p: Person, expiresAt: int, from: Token)
    requires |s.issued| == |s.rows| && from <= s.nextToken
    ensures var s' := IssueOne(s, digest, r, p, expiresAt);
            && from <= s'.nextToken && s'.people == s.people && Invited(s', digest, r, p, expiresAt, from)
            && forall q :: Invited(s, digest, r, q, expiresAt, from) ==> Invited(s', digest, r, q, expiresAt, from)
  {
    var s' := IssueOne(s, digest, r, p, expiresAt);
    var found := FindKey(s.rows, Key(r, p.user), |s.rows|);
    var i := if found.Some? then found.value else |s.rows|;
    assert s'.rows[i].key == Key(r, p.user);
    assert InvitedBy(s', digest, s'.rows[i], expiresAt, from) by {
      if s' != s {
        assert from <= s.nextToken < s'.nextToken && s'.rows[i].digest == digest(s.nextToken);
      }
    }
    forall q | Invited(s, digest, r, q, expiresAt, from) ensures Invited(s', digest, r, q, expiresAt, from) {
      var k :| 0 <= k < |s.rows| && s.rows[k].key == Key(r, q.user) && InvitedBy(s, digest, s.rows[k], expiresAt, from);
      if k != i {
        assert s'.rows[k] == s.rows[k] && InvitedBy(s', digest, s'.rows[k], expiresAt, from);
      } else {
        assert s'.rows[i].key == Key(r, q.user);
      }
    }
  }

  lemma {:induction false} IssueFirstInvites(
    s: State, digest: Token -> Digest, r: Id, parts: seq<Person>, n: nat, expiresAt: int)
    requires Inv(s, digest) && n <= |parts|
    ensures var s' := IssueFirst(s, digest, r, parts, n, expiresAt);
            && s.nextToken <= s'.nextToken && s'.people == s.people
            && forall k :: 0 <= k < n ==> Invited(s', digest, r, parts[k], expiresAt, s.nextToken)
  {
    hide IssueOne, Invited, Inv;
    if n > 0 {
      var before := IssueFirst(s, digest, r, parts, n - 1, expiresAt);
      IssueFirstInvites(s, digest, r, parts, n - 1, expiresAt);
      IssueFirstKeeps(s, digest, r, parts, n - 1, expiresAt);
      InvAligned(before, digest);
      IssueOneInvites(before, digest, r, parts[n - 1], expiresAt, s.nextToken);
    }
  }

  lemma InvAligned(s: State, digest: Token -> Digest)
    requires Inv(s, digest)
    ensures |s.issued| == |s.rows|
  {
  }

  // ------------------------------------------------------------------- the service

  lemma {:induction false} RunAppend(s: State, digest: Token -> Digest, a: seq<Move>, m: Move)
    ensures Run(s, digest, a + [m]) == Step(Run(s, digest, a), digest, m)
    decreases |a|
  {
    if a == [] {
      assert [] + [m] == [m];
      assert Run(s, digest, [m]) == Run(Step(s, digest, m), digest, []);
    } else {
      assert (a + [m])[1..] == a[1..] + [m];
      RunAppend(Step(s, digest, a[0]), digest, a[1..], m);
    }
  }

  lemma ReachedStep(s: State, digest: Token -> Digest, m: Move)
    requires Reached(s, digest)
    ensures Reached(Step(s, digest, m), digest)
  {
    var people, withPassword, moves :| s == Run(Empty(people, withPassword), digest, moves);
    RunAppend(Empty(people, withPassword), digest, moves, m);
    assert Step(s, digest, m) == Run(Empty(people, withPassword), digest, moves + [m]);
  }

  /** Nothing has changed but that some PENDING rows past their expiry are EXPIRED. */
  ghost predicate OnlyLapsed(a: seq<Row>, b: seq<Row>, now: int) {
    && |a| == |b|
    && forall i :: 0 <= i < |a| ==>
         b[i] == a[i] || (a[i].status.Pending? && a[i].expiresAt <= now && b[i] == a[i].(status := Expired))
  }

  lemma ReachedAligned(s: State, digest: Token -> Digest)
    requires Reached(s, digest)
    ensures |s.issued| == |s.rows|
  {
    ReachedSound(s, digest);
  }

  /** What a response is told, once the token has been resolved. */
  function RespondReply(s: State, digest: Token -> Digest, token: Token, response: Response): Reply {
    var i := FindDigest(s.rows, digest(token), |s.rows|);
    if i.None? then NotFound
    else if s.rows[i.value].status.Expired? then HasExpired
    else if s.rows[i.value].status.Responded? then AlreadyResponded
    else if response.Unavailable? && !s.rows[i.value].role.Panelist? then InvalidParticipant
    else Reply.Ok
  }

  function ClaimReply(s: State, digest: Token -> Digest, token: Token): Reply {
    var i := FindDigest(s.rows, digest(token), |s.rows|);
    if i.None? then NotFound
    else if s.rows[i.value].status.Expired? then HasExpired
    else if !s.rows[i.value].requiresSetup then SetupNotRequired
    else if s.rows[i.value].key.user in s.withPassword then AlreadyClaimed
    else Reply.Ok
  }

  /** A row that has expired, whether or not anybody has noticed yet. */
  predicate Lapsed(row: Row, now: int) {
    row.status.Expired? || (row.status.Pending? && row.expiresAt <= now)
  }

  lemma ResolvedRow(s: State, digest: Token -> Digest, token: Token, now: int)
    ensures var s' := ResolveStep(s, digest, token, now);
            var i := FindDigest(s.rows, digest(token), |s.rows|);
            && |s'.rows| == |s.rows| && FindDigest(s'.rows, digest(token), |s'.rows|) == i
            && (i.Some? ==> s'.rows[i.value] == if Lapsed(s.rows[i.value], now)
                                                then s.rows[i.value].(status := Expired) else s.rows[i.value])
  {
    SameDigests(s.rows, ResolveStep(s, digest, token, now).rows, digest(token), |s.rows|);
  }

  /** Exactly which responses are accepted, told from the rows before the call. */
  lemma AcceptedResponses(s: State, digest: Token -> Digest, token: Token, response: Response, now: int)
    ensures RespondReply(ResolveStep(s, digest, token, now), digest, token, response).Ok? <==>
              var i := FindDigest(s.rows, digest(token), |s.rows|);
              && i.Some? && s.rows[i.value].status.Pending? && now < s.rows[i.value].expiresAt
              && (response.Unavailable? ==> s.rows[i.value].role.Panelist?)
  {
    ResolvedRow(s, digest, token, now);
  }

  /** What a refused response is told, from the rows before the call: there is no such row, it has lapsed,
      it was answered, or UNAVAILABLE is not the candidate's to say. */
  lemma RefusedResponses(s: State, digest: Token -> Digest, token: Token, response: Response, now: int)
    ensures var reply := RespondReply(ResolveStep(s, digest, token, now), digest, token, response);
            var i := FindDigest(s.rows, digest(token), |s.rows|);
            && (reply.NotFound? <==> i.None?)
            && (reply.HasExpired? <==>
                  i.Some? && (s.rows[i.value].status == Expired
                              || (s.rows[i.value].status == Pending && s.rows[i.value].expiresAt <= now)))
            && (reply.AlreadyResponded? <==> i.Some? && s.rows[i.value].status.Responded?)
            && (reply.InvalidParticipant? <==>
                  i.Some? && s.rows[i.value].status == Pending && now < s.rows[i.value].expiresAt
                  && response == Unavailable && s.rows[i.value].role == Candidate)
  {
    ResolvedRow(s, digest, token, now);
  }

  /** What a refused claim is told. */
  lemma RefusedClaims(s: State, digest: Token -> Digest, token: Token, now: int)
    ensures var reply := ClaimReply(ResolveStep(s, digest, token, now), digest, token);
            var i := FindDigest(s.rows, digest(token), |s.rows|);
            && (reply.NotFound? <==> i.None?)
            && (reply.HasExpired? <==> i.Some? && Lapsed(s.rows[i.value], now))
            && (reply.SetupNotRequired? <==>
                  i.Some? && !Lapsed(s.rows[i.value], now) && !s.rows[i.value].requiresSetup)
            && (reply.AlreadyClaimed? <==>
                  i.Some? && !Lapsed(s.rows[i.value], now) && s.rows[i.value].requiresSetup
                  && s.rows[i.value].key.user in s.withPassword)
  {
    ResolvedRow(s, digest, token, now);
  }

  /** Exactly which claims are accepted, told from the tables before the call. */
  lemma AcceptedClaims(s: State, digest: Token -> Digest, token: Token, now: int)
    ensures ClaimReply(ResolveStep(s, digest, token, now), digest, token).Ok? <==>
              var i := FindDigest(s.rows, digest(token), |s.rows|);
              && i.Some? && !Lapsed(s.rows[i.value], now)
              && s.rows[i.value].requiresSetup && s.rows[i.value].key.user !in s.withPassword
  {
    ResolvedRow(s, digest, token, now);
  }

  datatype Reply =
    | NotFound | HasExpired | AlreadyResponded | InvalidParticipant | SetupNotRequired | AlreadyClaimed | Ok

  class InvitationService {
    const digest: Token -> Digest
    var people: map<Id, seq<Person>>
    var rows: seq<Row>
    var mirrored: map<Key, Response>
    var withPassword: set<Id>
    var nextToken: Token
    ghost var issued: seq<seq<Token>>
    ghost var answers: seq<Answer>
    ghost var claims: seq<Id>

    ghost function Now(): State
      reads this
    {
      State(people, rows, mirrored, withPassword, nextToken, issued, answers, claims)
    }

    /** The tables are those some serial history leads to. */
    ghost predicate Valid()
      reads this
    {
      Reached(Now(), digest)
    }

    constructor (digest: Token -> Digest, people: map<Id, seq<Person>>, withPassword: set<Id>)
      ensures Valid() && this.digest == digest && Now() == Empty(people, withPassword)
    {
      this.digest, this.people, this.withPassword := digest, people, withPassword;
      rows, mirrored, nextToken, issued, answers, claims := [], map[], 0, [], [], [];
      new;
      assert Now() == Run(Empty(people, withPassword), digest, []);
    }

    /** One invitation per participant: issued, re-issued in place, or left alone once answered. */
    method IssueForRequest(r: Id, now: int, ttl: nat)
      requires Valid()
      modifies this
      ensures Valid() && Now() == Step(old(Now()), digest, Issue(r, now, ttl))
      ensures forall p :: p in PeopleOf(Now(), r) ==> Invited(Now(), digest, r, p, now + ttl, old(nextToken))
    {
      hide IssueOne, Invited, RowSound, Apart;
      ghost var before := Now();
      ReachedAligned(before, digest);
      var expiresAt := now + ttl;
      var parts := if r in people then people[r] else [];
      for n := 0 to |parts|
        invariant Now() == IssueFirst(before, digest, r, parts, n, expiresAt)
        invariant |issued| == |rows|
      {
        IssueToOne(r, parts[n], expiresAt);
      }
      ReachedStep(before, digest, Issue(r, now, ttl));
      ReachedSound(before, digest);
      IssueFirstInvites(before, digest, r, parts, |parts|, expiresAt);
    }

    method IssueToOne(r: Id, p: Person, expiresAt: int)
      requires |issued| == |rows|
      modifies this`rows, this`nextToken, this`issued
      ensures Now() == IssueOne(old(Now()), digest, r, p, expiresAt) && |issued| == |rows|
      ensures var i := FindKey(old(rows), Key(r, p.user), |old(rows)|);
              var setup := p.user !in withPassword;
              && (i.None? ==>
                    rows == old(rows) + [Row(Key(r, p.user), p.role, digest(old(nextToken)), Pending, setup,
                                             expiresAt, 1)])
              && (i.Some? && old(rows)[i.value].status.Responded? ==> rows == old(rows) && nextToken == old(nextToken))
              && (i.Some? && !old(rows)[i.value].status.Responded? ==>
                    var row := old(rows)[i.value];
                    rows == old(rows)[i.value := Row(row.key, row.role, digest(old(nextToken)), Pending, setup,
                                                     expiresAt, row.sendCount + 1)])
    {
      var existing := FindKey(rows, Key(r, p.user), |rows|);
      if existing.Some? && rows[existing.value].status.Responded? {
        return;
      }
      var token := nextToken;
      nextToken := nextToken + 1;
      var setup := p.user !in withPassword;
      if existing.None? {
        rows := rows + [Row(Key(r, p.user), p.role, digest(token), Pending, setup, expiresAt, 1)];
        issued := issued + [[token]];
      } else {
        var i := existing.value;
        rows := rows[i := rows[i].(digest := digest(token), status := Pending, requiresSetup := setup,
                                   expiresAt := expiresAt, sendCount := rows[i].sendCount + 1)];
        issued := issued[i := issued[i] + [token]];
      }
    }

    method ResolveActive(token: Token, now: int) returns (found: Option<nat>)
      requires Valid()
      modifies this`rows
      ensures Valid() && Now() == Step(old(Now()), digest, Resolve(token, now))
      ensures found == FindDigest(rows, digest(token), |rows|)
      ensures found == FindDigest(old(rows), digest(token), |old(rows)|) && OnlyLapsed(old(rows), rows, now)
    {
      ReachedStep(Now(), digest, Resolve(token, now));
      found := FindDigest(rows, digest(token), |rows|);
      if found.Some? && rows[found.value].status.Pending? && rows[found.value].expiresAt <= now {
        SameDigests(rows, rows[found.value := rows[found.value].(status := Expired)], digest(token), |rows|);
        rows := rows[found.value := rows[found.value].(status := Expired)];
      }
    }

    /** Only a PENDING, unexpired invitation can be answered, and UNAVAILABLE only by a panelist. */
    method RespondTo(token: Token, response: Response, now: int) returns (reply: Reply)
      requires Valid()
      modifies this
      ensures Valid() && Now() == Step(old(Now()), digest, Respond(token, response, now))
      ensures reply == RespondReply(ResolveStep(old(Now()), digest, token, now), digest, token, response)
      ensures reply.Ok? <==> answers != old(answers)
      ensures reply.Ok? ==>
                && var i := FindDigest(old(rows), digest(token), |old(rows)|);
                   i.Some? && rows == old(rows)[i.value := old(rows)[i.value].(status := Responded(response))]
                   && mirrored == old(mirrored)[old(rows)[i.value].key := response]
                   && answers == old(answers) + [Answer(i.value, response, now, old(rows)[i.value].expiresAt)]
      ensures !reply.Ok? ==> mirrored == old(mirrored) && OnlyLapsed(old(rows), rows, now)
    {
      ReachedStep(Now(), digest, Respond(token, response, now));
      var found := ResolveActive(token, now);
      if found.None? {
        return NotFound;
      }
      var i := found.value;
      if rows[i].status.Expired? {
        return HasExpired;
      }
      if !rows[i].status.Pending? {
        return AlreadyResponded;
      }
      if response.Unavailable? && !rows[i].role.Panelist? {
        return InvalidParticipant;
      }
      answers := answers + [Answer(i, response, now, rows[i].expiresAt)];
      mirrored := mirrored[rows[i].key := response];
      rows := rows[i := rows[i].(status := Responded(response))];
      return Ok;
    }

    method ClaimAccount(token: Token, now: int) returns (reply: Reply)
      requires Valid()
      modifies this
      ensures Valid() && Now() == Step(old(Now()), digest, Claim(token, now))
      ensures reply == ClaimReply(ResolveStep(old(Now()), digest, token, now), digest, token)
      ensures reply.Ok? <==> withPassword != old(withPassword)
      ensures reply.Ok? ==>
                && var i := FindDigest(old(rows), digest(token), |old(rows)|);
                   i.Some? && withPassword == old(withPassword) + {old(rows)[i.value].key.user}
      ensures mirrored == old(mirrored) && OnlyLapsed(old(rows), rows, now)
    {
      ReachedStep(Now(), digest, Claim(token, now));
      var found := ResolveActive(token, now);
      if found.None? {
        return NotFound;
      }
      var row := rows[found.value];
      if row.status.Expired? {
        return HasExpired;
      }
      if !row.requiresSetup {
        return SetupNotRequired;
      }
      if row.key.user in withPassword {
        return AlreadyClaimed;
      }
      withPassword := withPassword + {row.key.user};
      claims := claims + [row.key.user];
      return Ok;
    }
  }
}
