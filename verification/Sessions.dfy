/** Refresh-token rotation: the database statements of many interleaved requests, one step each. */
module Sessions {
  import opened Wrappers
  import opened Sets

  type Id = nat

  datatype Status = Active | Inactive | Suspended | Pending | Rejected | Paused

  datatype User = User(status: Status, verified: bool, deleted: bool)

  datatype Session = Session(user: Id, hash: string, revoked: bool, expiresAt: int)

  /** Where a request stands between two of its statements. */
  datatype Phase =
    | Checked(session: Id)         // refresh: the status check has passed, the claim comes next
    | Refused(session: Id)         // refresh: the account is blocked, the revocation comes next
    | Rotating(user: Id)           // refresh: the session is claimed, the new row comes next
    | Authenticated(user: Id)      // login or verification: the new row comes next

  /** The tables and the open requests; `claims` and `issued` record what has happened. */
  datatype State = State(
    users: map<Id, User>, sessions: map<Id, Session>, nextSession: Id,
    requests: map<Id, Phase>, claims: seq<Id>, issued: nat)

  datatype Step =
    | RefreshRead(request: Id, hash: string, now: int)
    | RefreshRefuse(request: Id)
    | RefreshClaim(request: Id)
    | Insert(request: Id, hash: string, expiresAt: int)
    | Login(request: Id, user: Id)
    | Verify(request: Id, user: Id)
    | Abandon(request: Id)
    | Logout(user: Id, hash: string)
    | LogoutAll(user: Id)
    | Suspend(user: Id)
    | Reject(user: Id)
    | SuspendDepartment(members: set<Id>)
    | Reactivate(user: Id)
    | Approve(user: Id)
    | Register(user: Id)

  predicate IsBlocked(status: Status) {
    status == Suspended || status == Rejected
  }

  predicate Blocked(s: State, user: Id) {
    user in s.users && IsBlocked(s.users[user].status)
  }

  /** The first session below `n` with the hash. */
  function FindByHash(sessions: map<Id, Session>, hash: string, n: nat): Option<Id> {
    if n == 0 then None
    else
      var earlier := FindByHash(sessions, hash, n - 1);
      if earlier.Some? then earlier
      else if n - 1 in sessions && sessions[n - 1].hash == hash then Some(n - 1)
      else None
  }

  function Revoke(sessions: map<Id, Session>, id: Id): map<Id, Session>
    requires id in sessions
  {
    sessions[id := sessions[id].(revoked := true)]
  }

  /** Every session of the users is revoked. */
  function RevokeOf(sessions: map<Id, Session>, users: set<Id>): map<Id, Session> {
    map id | id in sessions :: if sessions[id].user in users then sessions[id].(revoked := true) else sessions[id]
  }

  function RevokeToken(sessions: map<Id, Session>, user: Id, hash: string): map<Id, Session> {
    map id | id in sessions ::
      if sessions[id].user == user && sessions[id].hash == hash then sessions[id].(revoked := true) else sessions[id]
  }

  predicate InFlight(s: State, request: Id) {
    request in s.requests
  }

  predicate CanManage(s: State, user: Id) {
    user in s.users && !s.users[user].deleted
  }

  function AfterRead(s: State, request: Id, hash: string, now: int): State {
    var found := FindByHash(s.sessions, hash, s.nextSession);
    if found == None || found.value !in s.sessions || now > s.sessions[found.value].expiresAt then s
    else if Blocked(s, s.sessions[found.value].user) then s.(requests := s.requests[request := Refused(found.value)])
    else s.(requests := s.requests[request := Checked(found.value)])
  }

  function Close(s: State, request: Id): State {
    s.(requests := s.requests - {request})
  }

  /** The claim wins only while the session is not revoked. */
  predicate Claims(s: State, request: Id) {
    && request in s.requests && s.requests[request].Checked?
    && s.requests[request].session in s.sessions && !s.sessions[s.requests[request].session].revoked
  }

  function AfterClaim(s: State, request: Id): State {
    if !Claims(s, request) then Close(s, request)
    else
      var id := s.requests[request].session;
      s.(sessions := Revoke(s.sessions, id),
         requests := s.requests[request := Rotating(s.sessions[id].user)],
         claims := s.claims + [id])
  }

  function AfterInsert(s: State, request: Id, user: Id, hash: string, expiresAt: int): State {
    Close(s, request).(
      sessions := s.sessions[s.nextSession := Session(user, hash, false, expiresAt)],
      nextSession := s.nextSession + 1)
  }

  predicate IsFresh(s: State, hash: string) {
    forall id | id in s.sessions :: s.sessions[id].hash != hash
  }

  predicate MayLogin(user: User) {
    !user.deleted && !IsBlocked(user.status) && (user.status == Active ==> user.verified)
  }

  function SetStatus(s: State, user: Id, status: Status): State
    requires user in s.users
  {
    s.(users := s.users[user := s.users[user].(status := status)])
  }

  function SuspendActive(users: map<Id, User>, members: set<Id>): map<Id, User> {
    map u | u in users :: if u in members && users[u].status == Active then users[u].(status := Suspended) else users[u]
  }

  function ActiveMembers(s: State, members: set<Id>): set<Id> {
    set u | u in members && u in s.users && s.users[u].status == Active
  }

  /** One statement (or one transaction) against the tables; a step that does not apply changes nothing. */
  function Next(s: State, step: Step): State {
    match step
    case RefreshRead(r, hash, now) => if InFlight(s, r) then s else AfterRead(s, r, hash, now)
    case RefreshRefuse(r) =>
      if InFlight(s, r) && s.requests[r].Refused? && s.requests[r].session in s.sessions
      then Close(s, r).(sessions := Revoke(s.sessions, s.requests[r].session)) else s
    case RefreshClaim(r) => if InFlight(s, r) && s.requests[r].Checked? then AfterClaim(s, r) else s
    case Insert(r, hash, expiresAt) =>
      if !InFlight(s, r) || !IsFresh(s, hash) then s
      else (match s.requests[r]
            case Rotating(u) => AfterInsert(s, r, u, hash, expiresAt)
            case Authenticated(u) => AfterInsert(s, r, u, hash, expiresAt).(issued := s.issued + 1)
            case _ => s)
    case Login(r, u) =>
      if !InFlight(s, r) && u in s.users && MayLogin(s.users[u])
      then s.(requests := s.requests[r := Authenticated(u)]) else s
    case Verify(r, u) =>
      if !InFlight(s, r) && CanManage(s, u) && !s.users[u].verified
      then s.(users := s.users[u := s.users[u].(verified := true)],
              requests := s.requests[r := Authenticated(u)])
      else s
    case Abandon(r) => Close(s, r)
    case Logout(u, hash) => s.(sessions := RevokeToken(s.sessions, u, hash))
    case LogoutAll(u) => s.(sessions := RevokeOf(s.sessions, {u}))
    case Suspend(u) => if CanManage(s, u) then SetStatus(s, u, Suspended).(sessions := RevokeOf(s.sessions, {u})) else s
    case Reject(u) =>
      if CanManage(s, u)
      then s.(users := s.users[u := s.users[u].(status := Rejected, deleted := true)],
              sessions := RevokeOf(s.sessions, {u}))
      else s
    case SuspendDepartment(members) =>
      s.(users := SuspendActive(s.users, members), sessions := RevokeOf(s.sessions, ActiveMembers(s, members)))
    case Reactivate(u) => if CanManage(s, u) then SetStatus(s, u, Active) else s
    case Approve(u) =>
      if CanManage(s, u) then s.(users := s.users[u := s.users[u].(status := Active, verified := false)]) else s
    case Register(u) => if u in s.users then s else s.(users := s.users[u := User(Pending, false, false)])
  }

  function Run(s: State, steps: seq<Step>): State {
    if steps == [] then s else Next(Run(s, steps[..|steps| - 1]), steps[|steps| - 1])
  }

  predicate Initial(s: State) {
    s.sessions == map[] && s.requests == map[] && s.claims == [] && s.issued == 0
  }

  // ---------- what every interleaving keeps ----------

  predicate RefersToRows(s: State, phase: Phase) {
    match phase
    case Checked(id) => id in s.sessions
    case Refused(id) => id in s.sessions
    case Rotating(u) => u in s.users
    case Authenticated(u) => u in s.users
  }

  /** Ids stay below the counter, and what is referred to exists. */
  ghost predicate Referenced(s: State) {
    && (forall id :: id in s.sessions ==> id < s.nextSession && s.sessions[id].user in s.users)
    && (forall r :: r in s.requests ==> RefersToRows(s, s.requests[r]))
  }

  ghost predicate UniqueHashes(s: State) {
    forall x, y :: x in s.sessions && y in s.sessions && x != y ==> s.sessions[x].hash != s.sessions[y].hash
  }

  ghost predicate Shaped(s: State) {
    Referenced(s) && UniqueHashes(s)
  }

  /** A refresh that passed its status check before the account was blocked holds a revoked session. */
  ghost predicate Guarded(s: State) {
    forall r :: r in s.requests && s.requests[r].Checked? && s.requests[r].session in s.sessions
                && Blocked(s, s.sessions[s.requests[r].session].user)
                ==> s.sessions[s.requests[r].session].revoked
  }

  /** Claimed sessions are revoked, and none is claimed twice. */
  ghost predicate ClaimedOnce(s: State) {
    && (forall n :: 0 <= n < |s.claims| ==> s.claims[n] in s.sessions && s.sessions[s.claims[n]].revoked)
    && (forall m, n :: 0 <= m < n < |s.claims| ==> s.claims[m] != s.claims[n])
  }

  function Live(s: State): set<Id> {
    set id | id in s.sessions && !s.sessions[id].revoked
  }

  function Rotators(s: State): set<Id> {
    set r | r in s.requests && s.requests[r].Rotating?
  }

  /** Usable sessions and rotations in progress are never more than the sessions issued. */
  predicate Counted(s: State) {
    |Live(s)| + |Rotators(s)| <= s.issued
  }

  ghost predicate Inv(s: State) {
    Shaped(s) && Guarded(s) && ClaimedOnce(s) && Counted(s)
  }

  /** Old session rows stay, keep owner and hash, and a revoked one stays revoked. */
  ghost predicate Persists(s: State, s': State) {
    forall id :: id in s.sessions ==>
      && id in s'.sessions && s'.sessions[id].user == s.sessions[id].user
      && s'.sessions[id].hash == s.sessions[id].hash && s'.sessions[id].expiresAt == s.sessions[id].expiresAt
      && (s.sessions[id].revoked ==> s'.sessions[id].revoked)
  }

  lemma StepPersists(s: State, step: Step)
    requires Referenced(s)
    ensures Persists(s, Next(s, step))
  {
  }

  lemma StepKeepsHashes(s: State, step: Step)
    requires Shaped(s)
    ensures UniqueHashes(Next(s, step))
  {
  }

  lemma StepKeepsReferences(s: State, step: Step)
    requires Referenced(s)
    ensures Referenced(Next(s, step))
  {
    if step.RefreshRead? {
      FindByHashFinds(s.sessions, step.hash, s.nextSession);
    }
  }

  /** The lookup finds a session with the hash exactly when there is one. */
  lemma {:induction false} FindByHashFinds(sessions: map<Id, Session>, hash: string, n: nat)
    ensures var found := FindByHash(sessions, hash, n);
            && (found.Some? ==> found.value < n && found.value in sessions && sessions[found.value].hash == hash)
            && (found.None? ==> forall id :: id in sessions && id < n ==> sessions[id].hash != hash)
  {
    if n > 0 {
      FindByHashFinds(sessions, hash, n - 1);
    }
  }

  lemma StepKeepsGuard(s: State, step: Step)
    requires Referenced(s) && Guarded(s)
    ensures Guarded(Next(s, step))
  {
  }

  lemma StepKeepsClaims(s: State, step: Step)
    requires Referenced(s) && ClaimedOnce(s)
    ensures ClaimedOnce(Next(s, step))
  {
    StepPersists(s, step);
    if step.RefreshClaim? && Claims(s, step.request) {
      ClaimIsNew(s, step.request);
    } else {
      assert Next(s, step).claims == s.claims;
    }
  }

  lemma ClaimIsNew(s: State, r: Id)
    requires ClaimedOnce(s) && Claims(s, r)
    ensures ClaimedOnce(AfterClaim(s, r))
  {
    assert s.requests[r].session !in s.claims;
  }

  lemma ClaimTradesSessionForRotation(s: State, r: Id)
    requires Claims(s, r)
    ensures var s' := AfterClaim(s, r);
            Live(s') == Live(s) - {s.requests[r].session} && Rotators(s') == Rotators(s) + {r}
  {
  }

  lemma InsertAddsSession(s: State, r: Id, user: Id, hash: string, expiresAt: int)
    requires Referenced(s)
    ensures var s' := AfterInsert(s, r, user, hash, expiresAt);
            Live(s') == Live(s) + {s.nextSession} && Rotators(s') == Rotators(s) - {r}
  {
  }

  /** Neither a claim nor an insertion: nothing becomes usable and no rotation starts. */
  lemma OtherStepsOnlyShrink(s: State, step: Step)
    requires !(step.RefreshClaim? && Claims(s, step.request)) && !step.Insert?
    ensures var s' := Next(s, step);
            Live(s') <= Live(s) && Rotators(s') <= Rotators(s) && s'.issued == s.issued
  {
  }

  lemma StepKeepsCount(s: State, step: Step)
    requires Referenced(s) && Counted(s)
    ensures Counted(Next(s, step))
  {
    var s' := Next(s, step);
    if step.RefreshClaim? && Claims(s, step.request) {
      ClaimTradesSessionForRotation(s, step.request);
    } else if step.Insert? {
      if s' != s {
        InsertAddsSession(s, step.request, s.requests[step.request].user, step.hash, step.expiresAt);
      }
    } else {
      OtherStepsOnlyShrink(s, step);
      SubsetIsSmaller(Live(s'), Live(s));
      SubsetIsSmaller(Rotators(s'), Rotators(s));
    }
  }

  lemma StepKeepsInv(s: State, step: Step)
    requires Inv(s)
    ensures Inv(Next(s, step))
  {
    StepKeepsReferences(s, step);
    StepKeepsHashes(s, step);
    StepKeepsGuard(s, step);
    StepKeepsClaims(s, step);
    StepKeepsCount(s, step);
  }

  // ---------- over whole runs ----------

  lemma {:induction false} RunKeepsInv(s: State, steps: seq<Step>)
    requires Inv(s)
    ensures Inv(Run(s, steps))
  {
    if steps != [] {
      RunKeepsInv(s, steps[..|steps| - 1]);
      StepKeepsInv(Run(s, steps[..|steps| - 1]), steps[|steps| - 1]);
    }
  }

  lemma ReachableStatesSatisfyInv(s: State, steps: seq<Step>)
    requires Initial(s)
    ensures Inv(Run(s, steps))
  {
    RunKeepsInv(s, steps);
  }

  /** In every interleaving, a claim that wins is for an account that is not blocked at that moment, and for
      a session that was never claimed before. */
  lemma WinningClaims(s: State, steps: seq<Step>, request: Id)
    requires Initial(s) && Claims(Run(s, steps), request)
    ensures var now := Run(s, steps);
            var id := now.requests[request].session;
            && now.sessions[id].user in now.users
            && now.users[now.sessions[id].user].status != Suspended
            && now.users[now.sessions[id].user].status != Rejected
            && id !in now.claims
  {
    ReachableStatesSatisfyInv(s, steps);
  }

  /** In every interleaving, a login starts a request exactly for an account that exists, is not deleted, is
      neither suspended nor rejected at that moment and, when active, is verified. */
  lemma LoginsStartIff(s: State, steps: seq<Step>, request: Id, user: Id)
    requires Initial(s) && request !in Run(s, steps).requests
    ensures var now := Run(s, steps);
            var after := Next(now, Login(request, user));
            && (request in after.requests <==>
                  && user in now.users && !now.users[user].deleted
                  && now.users[user].status != Suspended && now.users[user].status != Rejected
                  && (now.users[user].status == Active ==> now.users[user].verified))
            && (request in after.requests ==> after.requests[request] == Authenticated(user))
  {
  }

  lemma NeverMoreThanIssued(s: State, steps: seq<Step>)
    requires Initial(s)
    ensures var now := Run(s, steps); |Live(now)| + |Rotators(now)| <= now.issued
  {
    ReachableStatesSatisfyInv(s, steps);
  }

  /** No later step brings a revoked session back. */
  lemma {:induction false} RevocationIsPermanent(s: State, steps: seq<Step>)
    requires Inv(s)
    ensures Persists(s, Run(s, steps))
  {
    if steps != [] {
      var front := steps[..|steps| - 1];
      RevocationIsPermanent(s, front);
      RunKeepsInv(s, front);
      StepPersists(Run(s, front), steps[|steps| - 1]);
    }
  }

  /** A session that was claimed, so a token that was rotated out, never wins a claim again. */
  lemma ReplayedTokensFail(s: State, later: seq<Step>, id: Id, request: Id)
    requires Inv(s) && id in s.claims
    requires var then' := Run(s, later); request in then'.requests && then'.requests[request] == Checked(id)
    ensures !Claims(Run(s, later), request)
  {
    RevocationIsPermanent(s, later);
    var n :| 0 <= n < |s.claims| && s.claims[n] == id;
  }

  predicate Blocks(s: State, step: Step, user: Id) {
    match step
    case Suspend(u) => u == user && CanManage(s, user)
    case Reject(u) => u == user && CanManage(s, user)
    case SuspendDepartment(members) => user in ActiveMembers(s, members)
    case _ => false
  }

  /** Blocking an account ends each of its sessions for good: whatever happens later, a reactivation
      included, a winning claim for the user is of a session inserted after the block. */
  lemma BlockingEndsSessions(s: State, step: Step, user: Id, later: seq<Step>, request: Id)
    requires Inv(s) && Blocks(s, step, user)
    requires Claims(Run(Next(s, step), later), request)
    ensures var now := Run(Next(s, step), later);
            var id := now.requests[request].session;
            now.sessions[id].user == user ==> id !in s.sessions
  {
    StepKeepsInv(s, step);
    RevocationIsPermanent(Next(s, step), later);
  }

  /** A refresh with the token of a usable, unexpired session of an account that is not blocked can claim it. */
  lemma UsableSessionCanBeClaimed(s: State, id: Id, request: Id, now: int)
    requires Inv(s) && id in Live(s) && request !in s.requests
    requires !Blocked(s, s.sessions[id].user) && now <= s.sessions[id].expiresAt
    ensures Claims(Next(s, RefreshRead(request, s.sessions[id].hash, now)), request)
  {
    FindByHashFinds(s.sessions, s.sessions[id].hash, s.nextSession);
  }

  // ---------- when a block is complete ----------

  predicate IsInFlightFor(phase: Phase, user: Id) {
    phase == Rotating(user) || phase == Authenticated(user)
  }

  /** Some request has yet to insert a session of the user's: a refresh past its claim, or a login or a
      verification past its checks. */
  predicate InFlightFor(s: State, user: Id) {
    exists r | r in s.requests :: IsInFlightFor(s.requests[r], user)
  }

  predicate StartsSession(step: Step, user: Id) {
    (step.Login? || step.Verify?) && step.user == user
  }

  ghost predicate NoneStarts(steps: seq<Step>, user: Id) {
    forall k :: 0 <= k < |steps| ==> !StartsSession(steps[k], user)
  }

  predicate WinsFor(s: State, request: Id, user: Id) {
    Claims(s, request) && s.sessions[s.requests[request].session].user == user
  }

  /** Without a new login or verification, some later refresh of the user's still succeeds. */
  ghost predicate AccessReturns(s: State, user: Id) {
    exists later, request :: NoneStarts(later, user) && WinsFor(Run(s, later), request, user)
  }

  /** All of the user's sessions are revoked and no request is about to insert one. */
  ghost predicate Quiet(s: State, user: Id) {
    && user in s.users && !InFlightFor(s, user)
    && (forall id :: id in s.sessions && s.sessions[id].user == user ==> s.sessions[id].revoked)
  }

  lemma StepKeepsQuiet(s: State, step: Step, user: Id)
    requires Referenced(s) && Quiet(s, user) && !StartsSession(step, user)
    ensures Quiet(Next(s, step), user)
  {
    var s' := Next(s, step);
    QuietRequests(s, step, user);
    if step.Insert? && s' != s {
      assert !IsInFlightFor(s.requests[step.request], user);
    }
  }

  lemma QuietRequests(s: State, step: Step, user: Id)
    requires Referenced(s) && Quiet(s, user) && !StartsSession(step, user)
    ensures forall r :: r in Next(s, step).requests ==> !IsInFlightFor(Next(s, step).requests[r], user)
  {
    forall r | r in Next(s, step).requests ensures !IsInFlightFor(Next(s, step).requests[r], user) {
      assert r in s.requests ==> !IsInFlightFor(s.requests[r], user);
    }
  }

  /** Deleted and blocked: no step that changes a status applies any more. */
  predicate Gone(s: State, user: Id) {
    user in s.users && s.users[user].deleted && IsBlocked(s.users[user].status)
  }

  lemma StepKeepsGone(s: State, step: Step, user: Id)
    requires Gone(s, user)
    ensures Gone(Next(s, step), user)
  {
  }

  lemma {:induction false} RunKeepsQuiet(s: State, later: seq<Step>, user: Id)
    requires Inv(s) && Quiet(s, user) && NoneStarts(later, user)
    ensures Quiet(Run(s, later), user)
  {
    if later != [] {
      var front := later[..|later| - 1];
      RunKeepsQuiet(s, front, user);
      RunKeepsInv(s, front);
      StepKeepsQuiet(Run(s, front), later[|later| - 1], user);
    }
  }

  lemma {:induction false} RunKeepsGone(s: State, later: seq<Step>, user: Id)
    requires Gone(s, user)
    ensures Gone(Run(s, later), user)
  {
    if later != [] {
      RunKeepsGone(s, later[..|later| - 1], user);
      StepKeepsGone(Run(s, later[..|later| - 1]), later[|later| - 1], user);
    }
  }

  /** A rejection is final: no refresh of the user's succeeds again, whatever the later steps are. */
  lemma RejectionIsFinal(s: State, user: Id, later: seq<Step>, request: Id)
    requires Inv(s) && CanManage(s, user)
    ensures !WinsFor(Run(Next(s, Reject(user)), later), request, user)
  {
    var rejected := Next(s, Reject(user));
    StepKeepsInv(s, Reject(user));
    RunKeepsInv(rejected, later);
    RunKeepsGone(rejected, later, user);
  }

  lemma BlockingQuietens(s: State, step: Step, user: Id)
    requires Referenced(s) && Blocks(s, step, user) && !InFlightFor(s, user)
    ensures Quiet(Next(s, step), user)
  {
    forall r | r in s.requests ensures !IsInFlightFor(s.requests[r], user) {
    }
  }

  lemma {:induction false} LongerThanHashes(sessions: map<Id, Session>, n: nat) returns (length: nat)
    ensures forall id :: id in sessions && id < n ==> |sessions[id].hash| < length
  {
    length := 0;
    if n > 0 {
      length := LongerThanHashes(sessions, n - 1);
      if n - 1 in sessions && length <= |sessions[n - 1].hash| {
        length := |sessions[n - 1].hash| + 1;
      }
    }
  }

  lemma SomeHashIsFresh(s: State) returns (hash: string)
    requires Referenced(s)
    ensures IsFresh(s, hash)
  {
    var length := LongerThanHashes(s.sessions, s.nextSession);
    hash := seq(length, _ => 'a');
  }

  lemma RunSnoc(s: State, steps: seq<Step>, step: Step)
    ensures Run(s, steps + [step]) == Next(Run(s, steps), step)
  {
    assert (steps + [step])[..|steps|] == steps;
  }

  lemma InsertThenReactivate(s: State, user: Id, request: Id, hash: string)
    requires CanManage(s, user) && request in s.requests && IsInFlightFor(s.requests[request], user) && IsFresh(s, hash)
    ensures var later := Next(Next(s, Insert(request, hash, 0)), Reactivate(user));
            && s.nextSession in later.sessions && later.sessions[s.nextSession] == Session(user, hash, false, 0)
            && !Blocked(later, user) && request !in later.requests
  {
    assert Next(s, Insert(request, hash, 0)).users == s.users;
  }

  /** A session still to be inserted is usable after a reactivation. */
  lemma InFlightReturns(s: State, user: Id)
    requires Inv(s) && CanManage(s, user) && InFlightFor(s, user)
    ensures AccessReturns(s, user)
  {
    var request :| request in s.requests && IsInFlightFor(s.requests[request], user);
    var hash := SomeHashIsFresh(s);
    var a, b, c := Insert(request, hash, 0), Reactivate(user), RefreshRead(request, hash, 0);
    var s2 := Next(Next(s, a), b);
    StepKeepsInv(s, a);
    StepKeepsInv(Next(s, a), b);
    InsertThenReactivate(s, user, request, hash);
    UsableSessionCanBeClaimed(s2, s.nextSession, request, 0);
    ClaimIsOf(s2, s.nextSession, request);
    RunSnoc(s, [], a);
    RunSnoc(s, [a], b);
    RunSnoc(s, [a, b], c);
    assert NoneStarts([a, b] + [c], user);
    assert WinsFor(Run(s, [a, b] + [c]), request, user);
  }

  /** The refresh that presents a session's token is checked for that session. */
  lemma ClaimIsOf(s: State, id: Id, request: Id)
    requires Inv(s) && id in Live(s) && request !in s.requests && 0 <= s.sessions[id].expiresAt
    requires !Blocked(s, s.sessions[id].user)
    ensures var read := Next(s, RefreshRead(request, s.sessions[id].hash, 0));
            && read.sessions == s.sessions && request in read.requests && read.requests[request] == Checked(id)
  {
    FindByHashFinds(s.sessions, s.sessions[id].hash, s.nextSession);
  }

  /** After a block, and without a new login or verification, access ever returns exactly when the block is
      not a rejection (nor the account deleted before) and some request was in flight for the user. */
  lemma BlockIsCompleteUnless(s: State, step: Step, user: Id)
    requires Inv(s) && Blocks(s, step, user)
    ensures AccessReturns(Next(s, step), user) <==>
            InFlightFor(s, user) && !step.Reject? && !s.users[user].deleted
  {
    var blocked := Next(s, step);
    StepKeepsInv(s, step);
    if !InFlightFor(s, user) {
      BlockingQuietens(s, step, user);
      forall later, request | NoneStarts(later, user) ensures !WinsFor(Run(blocked, later), request, user) {
        RunKeepsQuiet(blocked, later, user);
      }
    } else if step.Reject? || s.users[user].deleted {
      forall later, request ensures !WinsFor(Run(blocked, later), request, user) {
        RunKeepsInv(blocked, later);
        RunKeepsGone(blocked, later, user);
      }
    } else {
      BlockKeepsRequests(s, step, user);
      InFlightReturns(blocked, user);
    }
  }

  lemma BlockKeepsRequests(s: State, step: Step, user: Id)
    requires Blocks(s, step, user) && InFlightFor(s, user) && !step.Reject? && !s.users[user].deleted
    ensures CanManage(Next(s, step), user) && InFlightFor(Next(s, step), user)
  {
    var r :| r in s.requests && IsInFlightFor(s.requests[r], user);
    assert Next(s, step).requests == s.requests;
  }

  /** Verification looks at no status: for a blocked account it starts a session like any other. */
  lemma VerificationReopens(s: State, user: Id, request: Id)
    requires Inv(s) && CanManage(s, user) && !s.users[user].verified && request !in s.requests
    ensures AccessReturns(Next(s, Verify(request, user)), user)
  {
    var verified := Next(s, Verify(request, user));
    StepKeepsInv(s, Verify(request, user));
    assert request in verified.requests && IsInFlightFor(verified.requests[request], user);
    InFlightReturns(verified, user);
  }

  // ---------- the tables ----------

  class AuthTables {
    var users: map<Id, User>
    var sessions: map<Id, Session>
    var nextSession: Id
    var requests: map<Id, Phase>
    ghost var claims: seq<Id>
    ghost var issued: nat

    ghost function Snapshot(): State
      reads this
    {
      State(users, sessions, nextSession, requests, claims, issued)
    }

    constructor ()
      ensures Initial(Snapshot()) && Inv(Snapshot())
    {
      users, sessions, nextSession, requests := map[], map[], 1, map[];
      claims, issued := [], 0;
    }

    method FindFirst(hash: string) returns (found: Option<Id>)
      ensures found == FindByHash(sessions, hash, nextSession)
    {
      for id := 0 to nextSession
        invariant FindByHash(sessions, hash, id) == None
      {
        if id in sessions && sessions[id].hash == hash {
          FindStays(sessions, hash, id + 1, nextSession);
          return Some(id);
        }
      }
      return None;
    }

    /** `login` after the password check, up to the session row; an unknown account is refused too. */
    method Login(request: Id, user: Id) returns (accepted: bool)
      requires Inv(Snapshot()) && request !in requests
      modifies this`requests
      ensures Inv(Snapshot()) && Snapshot() == Next(old(Snapshot()), Step.Login(request, user))
      ensures accepted <==>
                && user in users && !users[user].deleted
                && users[user].status != Suspended && users[user].status != Rejected
                && (users[user].status == Active ==> users[user].verified)
      ensures if accepted then requests == old(requests)[request := Authenticated(user)] else requests == old(requests)
    {
      StepKeepsInv(Snapshot(), Step.Login(request, user));
      if user !in users || users[user].deleted {
        return false;
      }
      var row := users[user];
      if row.status == Suspended {
        return false;
      }
      if row.status == Rejected {
        return false;
      }
      if row.status == Active && !row.verified {
        return false;
      }
      requests := requests[request := Authenticated(user)];
      return true;
    }

    /** `refresh` up to its status check: an unexpired session goes on to its claim, or to its revocation when
        the account is suspended or rejected; an unknown or expired one goes nowhere. */
    method RefreshRead(request: Id, hash: string, now: int)
      requires Inv(Snapshot()) && request !in requests
      modifies this`requests
      ensures Inv(Snapshot()) && Snapshot() == Next(old(Snapshot()), Step.RefreshRead(request, hash, now))
      ensures forall id :: id in sessions && sessions[id].hash == hash ==>
                && sessions[id].user in users
                && requests ==
                   if now > sessions[id].expiresAt then old(requests)
                   else if users[sessions[id].user].status in {Suspended, Rejected}
                   then old(requests)[request := Refused(id)]
                   else old(requests)[request := Checked(id)]
      ensures (forall id :: id in sessions ==> sessions[id].hash != hash) ==> requests == old(requests)
    {
      StepKeepsInv(Snapshot(), Step.RefreshRead(request, hash, now));
      var found := FindFirst(hash);
      FindByHashFinds(sessions, hash, nextSession);
      if found == None {
        return;
      }
      var session := sessions[found.value];
      if now > session.expiresAt {
        return;
      }
      var status := users[session.user].status;
      if status == Suspended || status == Rejected {
        requests := requests[request := Refused(found.value)];
      } else {
        requests := requests[request := Checked(found.value)];
      }
    }

    /** The conditional update of one row; the count tells whether this request won. */
    method UpdateIfUnrevoked(id: Id) returns (count: nat)
      requires id in sessions
      modifies this`sessions
      ensures sessions == Revoke(old(sessions), id)
      ensures count == if old(sessions)[id].revoked then 0 else 1
    {
      count := 0;
      if !sessions[id].revoked {
        sessions := sessions[id := sessions[id].(revoked := true)];
        count := 1;
      } else {
        assert sessions == sessions[id := sessions[id]];
      }
    }

    method RefreshRefuse(request: Id)
      requires Inv(Snapshot()) && request in requests && requests[request].Refused?
      modifies this
      ensures Inv(Snapshot()) && Snapshot() == Next(old(Snapshot()), Step.RefreshRefuse(request))
      ensures old(requests)[request].session !in Live(Snapshot())
    {
      StepKeepsInv(Snapshot(), Step.RefreshRefuse(request));
      var count := UpdateIfUnrevoked(requests[request].session);
      requests := requests - {request};
    }

    /** A claim wins only for an account that is not blocked and a session never claimed before; after it,
        won or lost, the session is of no more use. */
    method RefreshClaim(request: Id) returns (claimed: bool)
      requires Inv(Snapshot()) && request in requests && requests[request].Checked?
      modifies this
      ensures Inv(Snapshot()) && Snapshot() == Next(old(Snapshot()), Step.RefreshClaim(request))
      ensures claimed <==> old(requests)[request].session in old(Live(Snapshot()))
      ensures old(requests)[request].session in sessions
      ensures sessions[old(requests)[request].session].user in users
      ensures var id := old(requests)[request].session;
              && id !in Live(Snapshot())
              && (claimed ==> id !in old(claims) && users[sessions[id].user].status !in {Suspended, Rejected})
              && requests == (if claimed then old(requests)[request := Rotating(sessions[id].user)]
                              else old(requests) - {request})
              && (forall other :: other in sessions && other != id ==>
                    other in old(sessions) && sessions[other] == old(sessions)[other])
    {
      StepKeepsInv(Snapshot(), Step.RefreshClaim(request));
      var id := requests[request].session;
      var count := UpdateIfUnrevoked(id);
      claimed := count != 0;
      if claimed {
        requests := requests[request := Rotating(sessions[id].user)];
        claims := claims + [id];
      } else {
        requests := requests - {request};
        assert sessions == old(sessions);
      }
    }

    /** The new row of a rotation, a login or a verification: its token finds it, and it is usable. */
    method CreateSession(request: Id, hash: string, expiresAt: int)
      requires Inv(Snapshot()) && IsFresh(Snapshot(), hash)
      requires request in requests && (requests[request].Rotating? || requests[request].Authenticated?)
      modifies this
      ensures Inv(Snapshot()) && Snapshot() == Next(old(Snapshot()), Insert(request, hash, expiresAt))
      ensures sessions
              == old(sessions)[old(nextSession) := Session(old(requests)[request].user, hash, false, expiresAt)]
      ensures requests == old(requests) - {request}
      ensures FindByHash(sessions, hash, nextSession) == Some(old(nextSession))
      ensures Live(Snapshot()) == old(Live(Snapshot())) + {old(nextSession)}
    {
      StepKeepsInv(Snapshot(), Insert(request, hash, expiresAt));
      InsertedIsFound(Snapshot(), request, hash, expiresAt);
      InsertRow(request, hash, expiresAt);
    }

    method InsertRow(request: Id, hash: string, expiresAt: int)
      requires IsFresh(Snapshot(), hash)
      requires request in requests && (requests[request].Rotating? || requests[request].Authenticated?)
      modifies this
      ensures Snapshot() == Next(old(Snapshot()), Insert(request, hash, expiresAt))
    {
      var phase := requests[request];
      sessions := sessions[nextSession := Session(phase.user, hash, false, expiresAt)];
      nextSession := nextSession + 1;
      requests := requests - {request};
      if phase.Authenticated? {
        issued := issued + 1;
      }
    }

    /** Exactly the user's sessions with that token stop being usable. */
    method Logout(user: Id, hash: string)
      requires Inv(Snapshot())
      modifies this`sessions
      ensures Inv(Snapshot()) && Snapshot() == Next(old(Snapshot()), Step.Logout(user, hash))
      ensures forall id :: id in Live(Snapshot()) <==>
                id in old(Live(Snapshot())) && !(sessions[id].user == user && sessions[id].hash == hash)
    {
      StepKeepsInv(Snapshot(), Step.Logout(user, hash));
      sessions := map id | id in sessions ::
        if sessions[id].user == user && sessions[id].hash == hash then sessions[id].(revoked := true) else sessions[id];
    }

    /** Exactly the user's sessions stop being usable. */
    method LogoutAll(user: Id)
      requires Inv(Snapshot())
      modifies this`sessions
      ensures Inv(Snapshot()) && Snapshot() == Next(old(Snapshot()), Step.LogoutAll(user))
      ensures LosesSessionsOf(old(Snapshot()), Snapshot(), {user})
    {
      StepKeepsInv(Snapshot(), Step.LogoutAll(user));
      RevokeSessions({user});
    }

    /** Revoke what is not revoked yet of the users' sessions. */
    method RevokeSessions(owners: set<Id>)
      modifies this`sessions
      ensures sessions == RevokeOf(old(sessions), owners)
      ensures LosesSessionsOf(old(Snapshot()), Snapshot(), owners)
    {
      sessions := map id | id in sessions ::
        if sessions[id].user in owners && !sessions[id].revoked then sessions[id].(revoked := true) else sessions[id];
    }

    /** The account is blocked and its sessions are over; with nothing in flight, so is its access. */
    method SuspendUser(user: Id) returns (found: bool)
      requires Inv(Snapshot())
      modifies this`sessions, this`users
      ensures Inv(Snapshot()) && Snapshot() == Next(old(Snapshot()), Suspend(user))
      ensures found <==> user in old(users) && !old(users)[user].deleted
      ensures users == if found then old(users)[user := old(users)[user].(status := Suspended)] else old(users)
      ensures found ==> LosesSessionsOf(old(Snapshot()), Snapshot(), {user})
      ensures found && !InFlightFor(Snapshot(), user) ==> !AccessReturns(Snapshot(), user)
    {
      StepKeepsInv(Snapshot(), Suspend(user));
      if user !in users || users[user].deleted {
        return false;
      }
      BlockIsCompleteUnless(Snapshot(), Suspend(user), user);
      RevokeSessions({user});
      users := users[user := users[user].(status := Suspended)];
      return true;
    }

    /** The account is blocked, its sessions are over, and no access of its ever returns. */
    method RejectUser(user: Id) returns (found: bool)
      requires Inv(Snapshot())
      modifies this`sessions, this`users
      ensures Inv(Snapshot()) && Snapshot() == Next(old(Snapshot()), Reject(user))
      ensures found <==> user in old(users) && !old(users)[user].deleted
      ensures users == if found then old(users)[user := old(users)[user].(status := Rejected, deleted := true)]
                       else old(users)
      ensures found ==> Gone(Snapshot(), user) && LosesSessionsOf(old(Snapshot()), Snapshot(), {user})
      ensures found ==> !AccessReturns(Snapshot(), user)
    {
      StepKeepsInv(Snapshot(), Reject(user));
      if user !in users || users[user].deleted {
        return false;
      }
      BlockIsCompleteUnless(Snapshot(), Reject(user), user);
      RevokeSessions({user});
      users := users[user := users[user].(status := Rejected, deleted := true)];
      return true;
    }

    /** A valid code verifies the account, whatever its status, and starts a session. */
    method VerifyAccount(request: Id, user: Id) returns (accepted: bool)
      requires Inv(Snapshot()) && request !in requests
      modifies this`users, this`requests
      ensures Inv(Snapshot()) && Snapshot() == Next(old(Snapshot()), Step.Verify(request, user))
      ensures accepted <==> user in old(users) && !old(users)[user].deleted && !old(users)[user].verified
      ensures users == if accepted then old(users)[user := old(users)[user].(verified := true)] else old(users)
      ensures requests == if accepted then old(requests)[request := Authenticated(user)] else old(requests)
    {
      StepKeepsInv(Snapshot(), Step.Verify(request, user));
      if user !in users || users[user].deleted || users[user].verified {
        return false;
      }
      users := users[user := users[user].(verified := true)];
      requests := requests[request := Authenticated(user)];
      return true;
    }

    /** An approved account is active, and must be verified before it can log in. */
    method ApproveUser(user: Id) returns (found: bool)
      requires Inv(Snapshot())
      modifies this`users
      ensures Inv(Snapshot()) && Snapshot() == Next(old(Snapshot()), Approve(user))
      ensures found <==> user in old(users) && !old(users)[user].deleted
      ensures users == if found then old(users)[user := old(users)[user].(status := Active, verified := false)]
                       else old(users)
      ensures forall r :: found && r !in requests ==> r !in Next(Snapshot(), Step.Login(r, user)).requests
    {
      StepKeepsInv(Snapshot(), Approve(user));
      if user !in users || users[user].deleted {
        return false;
      }
      users := users[user := users[user].(status := Active, verified := false)];
      return true;
    }

    /** The account is no longer blocked, and no session of its, or of anyone's, comes back to life. */
    method ReactivateUser(user: Id) returns (found: bool)
      requires Inv(Snapshot())
      modifies this`users
      ensures Inv(Snapshot()) && Snapshot() == Next(old(Snapshot()), Reactivate(user))
      ensures found <==> user in old(users) && !old(users)[user].deleted
      ensures users == if found then old(users)[user := old(users)[user].(status := Active)] else old(users)
      ensures Live(Snapshot()) == old(Live(Snapshot()))
    {
      StepKeepsInv(Snapshot(), Reactivate(user));
      if user !in users || users[user].deleted {
        return false;
      }
      users := users[user := users[user].(status := Active)];
      return true;
    }

    /** The user half of suspending a department: every active member is blocked and nobody else's status or
        session is touched. */
    method SuspendMembers(members: set<Id>)
      requires Inv(Snapshot())
      modifies this`sessions, this`users
      ensures Inv(Snapshot()) && Snapshot() == Next(old(Snapshot()), SuspendDepartment(members))
      ensures var affected := set u | u in members && u in old(users) && old(users)[u].status == Active;
              && BlocksExactly(old(Snapshot()), Snapshot(), affected)
              && LosesSessionsOf(old(Snapshot()), Snapshot(), affected)
    {
      StepKeepsInv(Snapshot(), SuspendDepartment(members));
      ClosureBlocksMembers(Snapshot(), members);
      CloseAccounts(members);
    }

    method CloseAccounts(members: set<Id>)
      modifies this`sessions, this`users
      ensures Snapshot() == Next(old(Snapshot()), SuspendDepartment(members))
    {
      var affected := set u | u in members && u in users && users[u].status == Active;
      assert affected == ActiveMembers(Snapshot(), members);
      users := map u | u in users :: if u in affected then users[u].(status := Suspended) else users[u];
      sessions := map id | id in sessions ::
        if sessions[id].user in affected && !sessions[id].revoked then sessions[id].(revoked := true) else sessions[id];
    }
  }

  /** Every affected account was active and is suspended; every other is as it was. */
  ghost predicate BlocksExactly(before: State, after: State, affected: set<Id>) {
    && after.users.Keys == before.users.Keys
    && (forall u :: u in affected ==>
          && u in before.users && before.users[u].status == Active
          && after.users[u] == before.users[u].(status := Suspended))
    && (forall u :: u in after.users && u !in affected ==> u in before.users && after.users[u] == before.users[u])
  }

  lemma ClosureBlocksMembers(s: State, members: set<Id>)
    ensures var affected := set u | u in members && u in s.users && s.users[u].status == Active;
            && BlocksExactly(s, Next(s, SuspendDepartment(members)), affected)
            && LosesSessionsOf(s, Next(s, SuspendDepartment(members)), affected)
  {
    assert ActiveMembers(s, members) == set u | u in members && u in s.users && s.users[u].status == Active;
  }

  lemma InsertedIsFound(s: State, request: Id, hash: string, expiresAt: int)
    requires Inv(s) && IsFresh(s, hash)
    requires request in s.requests && (s.requests[request].Rotating? || s.requests[request].Authenticated?)
    ensures var after := Next(s, Insert(request, hash, expiresAt));
            && FindByHash(after.sessions, hash, after.nextSession) == Some(s.nextSession)
            && Live(after) == Live(s) + {s.nextSession}
  {
    InsertAddsSession(s, request, s.requests[request].user, hash, expiresAt);
    FindByHashFinds(Next(s, Insert(request, hash, expiresAt)).sessions, hash, s.nextSession);
  }

  /** Exactly the owners' sessions stop being usable. */
  ghost predicate LosesSessionsOf(before: State, after: State, owners: set<Id>) {
    forall id :: id in Live(after) <==> id in Live(before) && before.sessions[id].user !in owners
  }

  lemma {:induction false} FindStays(sessions: map<Id, Session>, hash: string, n: nat, m: nat)
    requires n <= m && FindByHash(sessions, hash, n).Some?
    ensures FindByHash(sessions, hash, m) == FindByHash(sessions, hash, n)
  {
    if n < m {
      FindStays(sessions, hash, n, m - 1);
    }
  }
}
