/**
  The locking repository refines the atomic one.

  `Invariant` ties the committed tables to the serial history in `log`; it
  holds after every run, whatever the interleaving.
 */
module RotationRefinement {
  import opened Prelude
  import opened SessionStore
  import opened SessionHistory
  import opened RotationProtocol

  // ----- What each request may rely on -----------------------------------------------------------

  ghost predicate SeenSession(db: Tables, session: Session) {
    session.id in db.sessions && SessionEvolves(session, db.sessions[session.id])
  }

  ghost predicate SeenToken(db: Tables, token: TokenRow) {
    token.id in db.tokens && TokenEvolves(token, db.tokens[token.id])
  }

  ghost predicate JobOk(db: Tables, job: Job) {
    && SeenSession(db, job.session) && job.now < job.session.expiresAt
    && job.tokenId in db.tokens && db.tokens[job.tokenId].sessionId == job.session.id
    && job.next.sessionId == job.session.id && job.next.createdAt == job.now
  }

  ghost predicate Unused(s: System, row: TokenRow) {
    && row.id in s.minted && row.tokenHash in s.digests && Fresh(s.db, row)
  }

  ghost predicate RefusalOk(db: Tables, session: Session, tokenId: Id, now: int, lost: Option<Job>) {
    && SeenSession(db, session)
    && tokenId in db.tokens && db.tokens[tokenId].sessionId == session.id
    && (lost.Some? ==> lost.value.session == session && lost.value.tokenId == tokenId && lost.value.now == now)
  }

  ghost predicate OutcomeOk(db: Tables, outcome: Outcome) {
    match outcome
    case Unknown => true
    case Expired(session, tokenId, now) =>
      session.expiresAt <= now && SeenSession(db, session)
      && tokenId in db.tokens && db.tokens[tokenId].sessionId == session.id
    case Replayed(session, tokenId, now, lost) => RefusalOk(db, session, tokenId, now, lost) && IsRevoked(db, session.id)
    case Refreshed(job) =>
      JobOk(db, job) && SeenToken(db, job.next) && db.tokens[job.tokenId].spentAt == Some(job.now)
    case LoggedIn(account, first) => SeenSession(db, account) && SeenToken(db, first) && first.sessionId == account.id
    case Failed(_) => true
  }

  ghost predicate PhaseOk(lifetimes: Lifetimes, s: System, p: Phase) {
    match p
    case Idle => true
    case Looking(_) => true
    case Deciding(session, token) => SeenSession(s.db, session) && SeenToken(s.db, token) && token.sessionId == session.id
    case Locking(job) => JobOk(s.db, job) && Unused(s, job.next)
    case Spending(job) => JobOk(s.db, job) && Unused(s, job.next) && SessionLive(s.db, job.session.id)
    case Inserting(job, spent) => WritingOk(s, job, spent)
    case Committing(job, spent) => WritingOk(s, job, spent)
    case Revoking(session, tokenId, now, lost) => RefusalOk(s.db, session, tokenId, now, lost)
    case RevokeWritten(session, tokenId, now, lost, written) =>
      && RefusalOk(s.db, session, tokenId, now, lost) && SessionLive(s.db, session.id)
      && written == s.db.sessions[session.id].(revokedAt := Some(now))
    case Creating(account, first) =>
      && account.id in s.minted && account.id !in s.db.sessions && account.revokedAt.None?
      && account.expiresAt == account.createdAt + lifetimes.refreshTokenMs
      && first.sessionId == account.id && Unused(s, first)
    case Done(outcome) => OutcomeOk(s.db, outcome)
  }

  /** While the locks are held, the version a rotation wrote is still the committed row, spent. */
  ghost predicate WritingOk(s: System, job: Job, spent: TokenRow) {
    && JobOk(s.db, job) && Unused(s, job.next) && SessionLive(s.db, job.session.id)
    && s.db.tokens[job.tokenId].spentAt.None? && spent == s.db.tokens[job.tokenId].(spentAt := Some(job.now))
  }

  // ----- What two requests may not do at once ----------------------------------------------------

  predicate LocksClash(p: Phase, q: Phase) {
    || (p.RevokeWritten? && (HoldsShare(q, p.session.id) || HoldsSession(q, p.session.id)))
    || ((p.Inserting? || p.Committing?) && HoldsToken(q, p.job.tokenId))
  }

  /** The token row a request has minted and not yet committed. */
  function PendingRow(p: Phase): Option<TokenRow> {
    match p
    case Locking(job) => Some(job.next)
    case Spending(job) => Some(job.next)
    case Inserting(job, _) => Some(job.next)
    case Committing(job, _) => Some(job.next)
    case Creating(_, first) => Some(first)
    case _ => None
  }

  function PendingIds(p: Phase): set<Id> {
    (if PendingRow(p).Some? then {PendingRow(p).value.id} else {}) + (if p.Creating? then {p.account.id} else {})
  }

  function PendingDigests(p: Phase): set<Digest> {
    if PendingRow(p).Some? then {PendingRow(p).value.tokenHash} else {}
  }

  ghost predicate Compatible(p: Phase, q: Phase) {
    && !LocksClash(p, q) && !LocksClash(q, p)
    && PendingIds(p) !! PendingIds(q) && PendingDigests(p) !! PendingDigests(q)
  }

  // ----- The calls each request has completed ----------------------------------------------------

  function CallsOf(log: seq<Entry>, who: nat): seq<Call> {
    if log == [] then []
    else
      var last := log[|log| - 1];
      CallsOf(log[..|log| - 1], who) + if last.caller == who then [last.call] else []
  }

  function LostCall(lost: Option<Job>): seq<Call> {
    if lost.None? then [] else [Rotated(lost.value.tokenId, lost.value.next, lost.value.now, false)]
  }

  /** The repository calls a request in this phase has completed, with their results. */
  function AnsweredCalls(p: Phase): seq<Call> {
    match p
    case Revoking(_, _, _, lost) => LostCall(lost)
    case RevokeWritten(_, _, _, lost, _) => LostCall(lost)
    case Done(Replayed(session, _, now, lost)) => LostCall(lost) + [Revoked(session.id, now)]
    case Done(Refreshed(job)) => [Rotated(job.tokenId, job.next, job.now, true)]
    case Done(LoggedIn(account, first)) => [Created(account, first)]
    case Done(Failed(attempted)) => LostCall(attempted)
    case _ => []
  }

  // ----- The invariant ---------------------------------------------------------------------------

  ghost predicate TablesOk(lifetimes: Lifetimes, s: System) {
    && WellFormed(s.db)
    && (forall sid :: sid in s.db.sessions ==>
                        && sid in s.minted
                        && s.db.sessions[sid].expiresAt == s.db.sessions[sid].createdAt + lifetimes.refreshTokenMs)
    && (forall t :: t in s.db.tokens ==> t in s.minted && s.db.tokens[t].tokenHash in s.digests)
  }

  /** The committed tables are the ones the completed calls, taken one at a time, produce. */
  ghost predicate Refines(s: System) {
    && Serial(s.log) && Replay(s.log) == s.db
    && (forall who :: CallsOf(s.log, who) == AnsweredCalls(PhaseOf(s, who)))
  }

  ghost predicate PhasesOk(lifetimes: Lifetimes, s: System) {
    forall r :: r in s.requests ==> PhaseOk(lifetimes, s, s.requests[r])
  }

  ghost predicate AllCompatible(s: System) {
    forall r, u :: r in s.requests && u in s.requests && r != u ==> Compatible(s.requests[r], s.requests[u])
  }

  ghost predicate Invariant(lifetimes: Lifetimes, s: System) {
    TablesOk(lifetimes, s) && Refines(s) && PhasesOk(lifetimes, s) && AllCompatible(s)
  }

  // ----- Preservation ----------------------------------------------------------------------------

  /** `p` can stand beside every request but `who`. */
  ghost predicate FitsIn(s: System, who: nat, p: Phase) {
    forall u :: u in s.requests && u != who ==> Compatible(p, s.requests[u])
  }

  lemma CallsOfExtend(log: seq<Entry>, e: Entry, who: nat)
    ensures CallsOf(log + [e], who) == CallsOf(log, who) + if e.caller == who then [e.call] else []
  {
    assert (log + [e])[..|log|] == log;
  }

  /** The other requests may still rely on what they relied on. */
  ghost predicate Undisturbed(lifetimes: Lifetimes, s: System, who: nat, s': System) {
    forall u :: u in s.requests && u != who ==> PhaseOk(lifetimes, s', s.requests[u])
  }

  /** `fx` acts on `s` as the atomic repository would, and what the request then relies on is true. */
  ghost predicate SoundEffects(lifetimes: Lifetimes, s: System, p: Phase, fx: Effects) {
    && (fx.call.Some? ==> Answers(s.db, fx.call.value))
    && fx.db == (if fx.call.Some? then Effect(s.db, fx.call.value) else s.db)
    && AnsweredCalls(fx.phase) == AnsweredCalls(p) + (if fx.call.Some? then [fx.call.value] else [])
    && PhaseOk(lifetimes, s.(db := fx.db, minted := s.minted + fx.ids, digests := s.digests + fx.digests), fx.phase)
  }

  lemma SoundStepRefines(lifetimes: Lifetimes, s: System, who: nat, p: Phase, fx: Effects, heard: bool, s': System)
    requires Refines(s) && p == PhaseOf(s, who) && SoundEffects(lifetimes, s, p, fx)
    requires s' == Install(s, who, fx, heard)
    ensures Refines(s')
  {
    if fx.call.Some? {
      Extend(s.log, Entry(who, fx.call.value));
    } else {
      assert s'.log == s.log;
    }
    forall w
      ensures CallsOf(s'.log, w) == AnsweredCalls(PhaseOf(s', w))
    {
      assert CallsOf(s.log, w) == AnsweredCalls(PhaseOf(s, w));
      if fx.call.Some? {
        CallsOfExtend(s.log, Entry(who, fx.call.value), w);
      }
    }
  }

  /** `s'` is `s` with one request moved to `p'`, maybe with new tables and more ids minted. */
  ghost predicate MovesOne(s: System, who: nat, p': Phase, s': System) {
    s'.requests == s.requests[who := p'] && s.minted <= s'.minted && s.digests <= s'.digests
  }

  lemma MintingKeepsTables(lifetimes: Lifetimes, s: System, s': System)
    requires TablesOk(lifetimes, s.(db := s'.db)) && s.minted <= s'.minted && s.digests <= s'.digests
    ensures TablesOk(lifetimes, s')
  {
  }

  lemma MovedPhasesOk(lifetimes: Lifetimes, s: System, who: nat, p': Phase, s': System)
    requires MovesOne(s, who, p', s') && PhaseOk(lifetimes, s', p') && Undisturbed(lifetimes, s, who, s')
    ensures PhasesOk(lifetimes, s')
  {
  }

  lemma MovedCompatible(s: System, who: nat, p': Phase, s': System)
    requires MovesOne(s, who, p', s') && AllCompatible(s) && FitsIn(s, who, p')
    ensures AllCompatible(s')
  {
    forall r, u | r in s'.requests && u in s'.requests && r != u
      ensures Compatible(s'.requests[r], s'.requests[u])
    {
      if r == who {
        assert Compatible(p', s.requests[u]);
      } else if u == who {
        assert Compatible(p', s.requests[r]);
      } else {
        assert Compatible(s.requests[r], s.requests[u]);
      }
    }
  }

  lemma SoundStepKeepsInvariant(lifetimes: Lifetimes, s: System, who: nat, p: Phase, fx: Effects, heard: bool, s': System)
    requires Invariant(lifetimes, s) && p == PhaseOf(s, who) && SoundEffects(lifetimes, s, p, fx)
    requires s' == Install(s, who, fx, heard)
    requires TablesOk(lifetimes, s.(db := fx.db)) && FitsIn(s, who, fx.phase) && Undisturbed(lifetimes, s, who, s')
    ensures Invariant(lifetimes, s')
  {
    SoundStepRefines(lifetimes, s, who, p, fx, heard, s');
    MintingKeepsTables(lifetimes, s, s');
    MovedPhasesOk(lifetimes, s, who, fx.phase, s');
    MovedCompatible(s, who, fx.phase, s');
  }

  // ----- Steps that commit nothing ----------------------------------------------------------------

  lemma PhaseStays(lifetimes: Lifetimes, s: System, who: nat, s': System)
    requires PhasesOk(lifetimes, s)
    requires s'.db == s.db && s.minted <= s'.minted && s.digests <= s'.digests
    ensures Undisturbed(lifetimes, s, who, s')
  {
    forall u | u in s.requests && u != who
      ensures PhaseOk(lifetimes, s', s.requests[u])
    {
      assert PhaseOk(lifetimes, s, s.requests[u]);
    }
  }

  /** Giving up locks and pending ids never conflicts with anyone. */
  lemma IdleFitsIn(s: System, who: nat, p: Phase)
    requires p.Looking? || p.Deciding? || p.Revoking? || p.Done?
    ensures FitsIn(s, who, p)
  {
  }

  lemma NewIdsFitIn(lifetimes: Lifetimes, s: System, who: nat, p: Phase)
    requires PhasesOk(lifetimes, s)
    requires p.Locking? || p.Creating?
    requires PendingIds(p) !! s.minted && PendingDigests(p) !! s.digests
    ensures FitsIn(s, who, p)
  {
    forall u | u in s.requests && u != who
      ensures Compatible(p, s.requests[u])
    {
      assert PhaseOk(lifetimes, s, s.requests[u]);
    }
  }

  /** A request keeps its place beside the others when it takes only a lock nobody holds. */
  lemma LockFitsIn(s: System, who: nat, p: Phase, p': Phase)
    requires FitsIn(s, who, p) && PendingIds(p') == PendingIds(p) && PendingDigests(p') == PendingDigests(p)
    requires || (p.Locking? && p' == Spending(p.job) && ShareAvailable(s, who, p.job.next.sessionId))
             || (p.Spending? && p'.Inserting? && p'.job == p.job && TokenAvailable(s, who, p.job.tokenId))
             || (p.Inserting? && p' == Committing(p.job, p.spent))
    ensures FitsIn(s, who, p')
  {
    forall u | u in s.requests && u != who
      ensures Compatible(p', s.requests[u])
    {
      assert Compatible(p, s.requests[u]);
    }
  }

  lemma SessionAvailableFits(s: System, who: nat, p: Phase)
    requires p.RevokeWritten? && SessionAvailable(s, who, p.session.id)
    ensures FitsIn(s, who, p)
  {
    forall u | u in s.requests && u != who
      ensures Compatible(p, s.requests[u])
    {
      assert !HoldsSession(s.requests[u], p.session.id) && !HoldsShare(s.requests[u], p.session.id);
    }
  }

  /** Where a step can take a request, and what it needed for that. */
  lemma StepShape(lifetimes: Lifetimes, s: System, e: Event, p: Phase, p': Phase)
    requires Enabled(s, e) && p == PhaseOf(s, e.who)
    requires p' == Step(lifetimes, s.db, e.at, p, e.action).phase
    ensures || p'.Looking? || p'.Deciding? || p'.Revoking? || p'.Done?
            || ((p'.Locking? || p'.Creating?) && PendingIds(p') !! s.minted && PendingDigests(p') !! s.digests)
            || (p'.RevokeWritten? && SessionAvailable(s, e.who, p'.session.id))
            || (p.Locking? && p' == Spending(p.job) && ShareAvailable(s, e.who, p.job.next.sessionId))
            || (p.Spending? && p'.Inserting? && p'.job == p.job && TokenAvailable(s, e.who, p.job.tokenId))
            || (p.Inserting? && p' == Committing(p.job, p.spent))
  {
  }

  lemma StepFitsIn(lifetimes: Lifetimes, s: System, e: Event, p: Phase, p': Phase)
    requires PhasesOk(lifetimes, s) && FitsIn(s, e.who, p) && Enabled(s, e) && p == PhaseOf(s, e.who)
    requires p' == Step(lifetimes, s.db, e.at, p, e.action).phase
    ensures FitsIn(s, e.who, p')
  {
    StepShape(lifetimes, s, e, p, p');
    if p'.Looking? || p'.Deciding? || p'.Revoking? || p'.Done? {
      IdleFitsIn(s, e.who, p');
    } else if p'.Locking? || p'.Creating? {
      NewIdsFitIn(lifetimes, s, e.who, p');
    } else if p'.RevokeWritten? {
      SessionAvailableFits(s, e.who, p');
    } else {
      LockFitsIn(s, e.who, p, p');
    }
  }

  lemma ReadIsSound(lifetimes: Lifetimes, s: System, e: Event, p: Phase)
    requires TablesOk(lifetimes, s) && PhaseOk(lifetimes, s, p) && Enabled(s, e) && p == PhaseOf(s, e.who)
    requires e.action.Present? || e.action.LogIn? || e.action.Look? || e.action.Decide? || e.action.Fail?
    ensures SoundEffects(lifetimes, s, p, Step(lifetimes, s.db, e.at, p, e.action))
    ensures Step(lifetimes, s.db, e.at, p, e.action).db == s.db
  {
  }

  /** A rotation refused under the lock is one the atomic repository refuses at that moment. */
  lemma LockIsSound(lifetimes: Lifetimes, s: System, e: Event, p: Phase)
    requires TablesOk(lifetimes, s) && PhaseOk(lifetimes, s, p) && Enabled(s, e) && p == PhaseOf(s, e.who)
    requires e.action.LockSession? || e.action.SpendToken? || e.action.InsertNext?
    ensures SoundEffects(lifetimes, s, p, Step(lifetimes, s.db, e.at, p, e.action))
    ensures Step(lifetimes, s.db, e.at, p, e.action).db == s.db
  {
  }

  /** Revoking a revoked session matches no row, as in the atomic repository. */
  lemma RevocationWriteIsSound(lifetimes: Lifetimes, s: System, e: Event, p: Phase)
    requires TablesOk(lifetimes, s) && PhaseOk(lifetimes, s, p) && Enabled(s, e) && p == PhaseOf(s, e.who)
    requires e.action.WriteRevocation?
    ensures SoundEffects(lifetimes, s, p, Step(lifetimes, s.db, e.at, p, e.action))
    ensures Step(lifetimes, s.db, e.at, p, e.action).db == s.db
  {
  }

  /** The insert never violates a unique constraint: minted ids and digests are unused until they commit. */
  lemma InsertNeverCollides(lifetimes: Lifetimes, s: System, e: Event)
    requires PhaseOk(lifetimes, s, PhaseOf(s, e.who)) && Enabled(s, e) && e.action.InsertNext?
    ensures Step(lifetimes, s.db, e.at, PhaseOf(s, e.who), e.action).phase.Committing?
  {
  }

  // ----- Steps that commit --------------------------------------------------------------------------

  /** The committed versions are exactly what the atomic call writes at that moment. */
  lemma CommittedIsAtomic(lifetimes: Lifetimes, s: System, e: Event, p: Phase)
    requires TablesOk(lifetimes, s) && PhaseOk(lifetimes, s, p) && Enabled(s, e) && p == PhaseOf(s, e.who)
    requires Commits(e.action)
    ensures var fx := Step(lifetimes, s.db, e.at, p, e.action);
            && fx.call.Some? && CommitsCall(p, fx.call.value)
            && Answers(s.db, fx.call.value) && fx.db == Effect(s.db, fx.call.value)
            && fx.ids == {} && fx.digests == {}
            && AnsweredCalls(p) + [fx.call.value] == AnsweredCalls(fx.phase)
  {
  }

  lemma CommitKeepsTables(lifetimes: Lifetimes, s: System, p: Phase, call: Call)
    requires TablesOk(lifetimes, s) && PhaseOk(lifetimes, s, p) && CommitsCall(p, call) && Answers(s.db, call)
    ensures TablesOk(lifetimes, s.(db := Effect(s.db, call)))
  {
    CallIsWellFormed(s.db, call);
  }

  lemma CommitGivesOutcome(lifetimes: Lifetimes, s: System, p: Phase, call: Call, outcome: Outcome)
    requires PhaseOk(lifetimes, s, p) && CommitsCall(p, call) && Answers(s.db, call)
    requires match p
             case Committing(job, _) => outcome == Refreshed(job)
             case RevokeWritten(session, tokenId, now, lost, _) => outcome == Replayed(session, tokenId, now, lost)
             case Creating(account, first) => outcome == LoggedIn(account, first)
             case _ => true
    ensures OutcomeOk(Effect(s.db, call), outcome)
  {
  }

  lemma CommitIsSound(lifetimes: Lifetimes, s: System, e: Event, p: Phase)
    requires TablesOk(lifetimes, s) && PhaseOk(lifetimes, s, p) && Enabled(s, e) && p == PhaseOf(s, e.who)
    requires Commits(e.action)
    ensures SoundEffects(lifetimes, s, p, Step(lifetimes, s.db, e.at, p, e.action))
    ensures TablesOk(lifetimes, s.(db := Step(lifetimes, s.db, e.at, p, e.action).db))
  {
    var fx := Step(lifetimes, s.db, e.at, p, e.action);
    CommittedIsAtomic(lifetimes, s, e, p);
    CommitKeepsTables(lifetimes, s, p, fx.call.value);
    CommitGivesOutcome(lifetimes, s, p, fx.call.value, fx.phase.outcome);
  }

  /** What of the old tables the phase of a request depends on beyond rows being written once. */
  ghost predicate KeepsFor(s: System, q: Phase, s': System) {
    && (match PendingRow(q) case Some(row) => Unused(s', row) case None => true)
    && (q.Creating? ==> q.account.id !in s'.db.sessions)
    && (forall sid :: sid in s.db.sessions && (HoldsShare(q, sid) || HoldsSession(q, sid)) ==>
                        sid in s'.db.sessions && s'.db.sessions[sid] == s.db.sessions[sid])
    && (forall t :: t in s.db.tokens && HoldsToken(q, t) ==> t in s'.db.tokens && s'.db.tokens[t] == s.db.tokens[t])
  }

  lemma PhaseSurvives(lifetimes: Lifetimes, s: System, q: Phase, s': System)
    requires PhaseOk(lifetimes, s, q) && KeepsFor(s, q, s')
    requires s.minted <= s'.minted && s.digests <= s'.digests && Evolves(s.db, s'.db)
    ensures PhaseOk(lifetimes, s', q)
  {
  }

  /** The locks a rotation holds keep its commit out of every other request's way. */
  lemma RotationKeeps(s: System, p: Phase, q: Phase, s': System, lifetimes: Lifetimes)
    requires p.Committing? && PhaseOk(lifetimes, s, p) && PhaseOk(lifetimes, s, q) && Compatible(p, q)
    requires s'.minted == s.minted && s'.digests == s.digests
    requires s'.db == RotateIn(s.db, p.job.tokenId, p.job.next, p.job.now).0
    ensures KeepsFor(s, q, s')
  {
  }

  /** Nobody is rotating a session whose revocation commits. */
  lemma RevocationKeeps(s: System, p: Phase, q: Phase, s': System, lifetimes: Lifetimes)
    requires p.RevokeWritten? && PhaseOk(lifetimes, s, p) && PhaseOk(lifetimes, s, q) && Compatible(p, q)
    requires s'.minted == s.minted && s'.digests == s.digests
    requires s'.db == RevokeIn(s.db, p.session.id, p.now)
    ensures KeepsFor(s, q, s')
  {
  }

  lemma CreationKeeps(s: System, p: Phase, q: Phase, s': System, lifetimes: Lifetimes)
    requires p.Creating? && PhaseOk(lifetimes, s, p) && PhaseOk(lifetimes, s, q) && Compatible(p, q)
    requires s'.minted == s.minted && s'.digests == s.digests
    requires s'.db == CreateIn(s.db, p.account, p.first)
    ensures KeepsFor(s, q, s')
  {
  }

  predicate CommitsCall(p: Phase, call: Call) {
    match p
    case Committing(job, _) => call == Rotated(job.tokenId, job.next, job.now, true)
    case RevokeWritten(session, _, now, _, _) => call == Revoked(session.id, now)
    case Creating(account, first) => call == Created(account, first)
    case _ => false
  }

  lemma CommitKeeps(lifetimes: Lifetimes, s: System, p: Phase, q: Phase, call: Call, s': System)
    requires PhaseOk(lifetimes, s, p) && PhaseOk(lifetimes, s, q) && Compatible(p, q) && CommitsCall(p, call)
    requires s'.minted == s.minted && s'.digests == s.digests && s'.db == Effect(s.db, call)
    ensures KeepsFor(s, q, s')
  {
    if p.Committing? {
      RotationKeeps(s, p, q, s', lifetimes);
    } else if p.RevokeWritten? {
      RevocationKeeps(s, p, q, s', lifetimes);
    } else {
      CreationKeeps(s, p, q, s', lifetimes);
    }
  }

  lemma CommitDisturbsNobody(lifetimes: Lifetimes, s: System, who: nat, p: Phase, call: Call, s': System)
    requires PhasesOk(lifetimes, s) && PhaseOk(lifetimes, s, p) && FitsIn(s, who, p)
    requires s'.minted == s.minted && s'.digests == s.digests && s'.db == Effect(s.db, call)
    requires CommitsCall(p, call) && Evolves(s.db, s'.db)
    ensures Undisturbed(lifetimes, s, who, s')
  {
    forall u | u in s.requests && u != who
      ensures PhaseOk(lifetimes, s', s.requests[u])
    {
      assert PhaseOk(lifetimes, s, s.requests[u]) && Compatible(p, s.requests[u]);
      CommitKeeps(lifetimes, s, p, s.requests[u], call, s');
      PhaseSurvives(lifetimes, s, s.requests[u], s');
    }
  }

  // ----- Every run ------------------------------------------------------------------------------------

  lemma StepIsSound(lifetimes: Lifetimes, s: System, e: Event, p: Phase, fx: Effects)
    requires TablesOk(lifetimes, s) && PhaseOk(lifetimes, s, p) && Enabled(s, e) && p == PhaseOf(s, e.who)
    requires fx == Step(lifetimes, s.db, e.at, p, e.action)
    ensures SoundEffects(lifetimes, s, p, fx)
    ensures Commits(e.action) || fx.db == s.db
    ensures TablesOk(lifetimes, s.(db := fx.db))
  {
    if Commits(e.action) {
      CommitIsSound(lifetimes, s, e, p);
    } else if e.action.LockSession? || e.action.SpendToken? || e.action.InsertNext? {
      LockIsSound(lifetimes, s, e, p);
    } else if e.action.WriteRevocation? {
      RevocationWriteIsSound(lifetimes, s, e, p);
    } else {
      ReadIsSound(lifetimes, s, e, p);
    }
  }

  lemma OthersAreUndisturbed(lifetimes: Lifetimes, s: System, e: Event, p: Phase, fx: Effects, s': System)
    requires TablesOk(lifetimes, s) && PhasesOk(lifetimes, s) && PhaseOk(lifetimes, s, p) && FitsIn(s, e.who, p)
    requires Enabled(s, e) && p == PhaseOf(s, e.who)
    requires fx == Step(lifetimes, s.db, e.at, p, e.action) && SoundEffects(lifetimes, s, p, fx)
    requires Commits(e.action) || fx.db == s.db
    requires s'.db == fx.db && s'.minted == s.minted + fx.ids && s'.digests == s.digests + fx.digests
    ensures Undisturbed(lifetimes, s, e.who, s')
  {
    if Commits(e.action) {
      CommittedIsAtomic(lifetimes, s, e, p);
      CallEvolves(s.db, fx.call.value);
      CommitDisturbsNobody(lifetimes, s, e.who, p, fx.call.value, s');
    } else {
      PhaseStays(lifetimes, s, e.who, s');
    }
  }

  lemma StepKeepsInvariant(lifetimes: Lifetimes, s: System, e: Event)
    requires Invariant(lifetimes, s) && Enabled(s, e)
    ensures Invariant(lifetimes, Apply(lifetimes, s, e))
  {
    var p, s' := PhaseOf(s, e.who), Apply(lifetimes, s, e);
    var fx := Step(lifetimes, s.db, e.at, p, e.action);
    assert PhaseOk(lifetimes, s, p) && FitsIn(s, e.who, p);
    StepFitsIn(lifetimes, s, e, p, fx.phase);
    StepIsSound(lifetimes, s, e, p, fx);
    OthersAreUndisturbed(lifetimes, s, e, p, fx, s');
    SoundStepKeepsInvariant(lifetimes, s, e.who, p, fx, e.heard || !Commits(e.action), s');
  }

  lemma {:induction false} RunKeepsInvariant(lifetimes: Lifetimes, run: seq<Event>)
    requires Run(lifetimes, run)
    ensures Invariant(lifetimes, After(lifetimes, run))
  {
    if run != [] {
      RunKeepsInvariant(lifetimes, run[..|run| - 1]);
      StepKeepsInvariant(lifetimes, After(lifetimes, run[..|run| - 1]), run[|run| - 1]);
    }
  }
}
