/**
  Any number of login and refresh requests over shared, locked tables.

  A request is one `execute` call. It advances one statement at a time, and a
  statement that needs a row lock is enabled only while no other transaction
  holds a conflicting one; it then evaluates its WHERE on the committed row,
  which is what READ COMMITTED gives a statement that had to wait. Uncommitted
  writes stay with their transaction and reach the tables at its commit.

  An event carries `at`, the moment it happens; the clock reading a request
  takes is the `at` of the event that takes it. Nothing is assumed about these
  readings unless a theorem says so.

  A failed connection is either a `Fail`, which leaves nothing behind, or a
  commit that took effect and whose reply is not `heard`: the request's outcome
  is what it committed, and its caller gets an error all the same.
 */
module RotationProtocol {
  import opened Prelude
  import opened SessionStore
  import opened SessionHistory

  /** The arguments of one `rotate` call, and the snapshot of the session it was decided on. */
  datatype Job = Job(session: Session, tokenId: Id, next: TokenRow, now: int)

  /** Why a refresh is refused; the caller sees the same error for all of them. */
  datatype Outcome =
    | Unknown
    | Expired(session: Session, tokenId: Id, now: int)
    | Replayed(session: Session, tokenId: Id, now: int, lost: Option<Job>)
    | Refreshed(job: Job)
    | LoggedIn(account: Session, first: TokenRow)
    | Failed(attempted: Option<Job>)

  datatype Phase =
    | Idle
    | Looking(presented: Digest)
    | Deciding(session: Session, token: TokenRow)
    | Locking(job: Job)
      // holds the session row FOR SHARE
    | Spending(job: Job)
      // also holds the token row; `spent` is the version it wrote and has not committed
    | Inserting(job: Job, spent: TokenRow)
      // the successor row is inserted too, not committed
    | Committing(job: Job, spent: TokenRow)
      // about to run the revoking UPDATE; `lost` is the rotation that was refused, if there was one
    | Revoking(session: Session, tokenId: Id, now: int, lost: Option<Job>)
      // holds the session row exclusively; `written` is the version it wrote and has not committed
    | RevokeWritten(session: Session, tokenId: Id, now: int, lost: Option<Job>, written: Session)
    | Creating(account: Session, first: TokenRow)
    | Done(outcome: Outcome)

  datatype Lifetimes = Lifetimes(accessTokenMs: int, refreshTokenMs: int)

  /**
    `minted` and `digests` are every id and token digest ever generated.
    `unheard` are the requests whose commit took effect without a reply. `log`
    only records: the completed repository calls, in the order they took effect.
   */
  datatype System = System(
    db: Tables,
    requests: map<nat, Phase>,
    minted: set<Id>,
    digests: set<Digest>,
    unheard: set<nat>,
    log: seq<Entry>)

  const START := System(NO_ROWS, map[], {}, {}, {}, [])

  datatype Action =
    | Present(digest: Digest)
    | Look
    | Decide(freshId: Id, freshDigest: Digest)
    | LockSession
    | SpendToken
    | InsertNext
    | CommitRotation
    | WriteRevocation
    | CommitRevocation
    | LogIn(userId: Id, userAgent: Option<string>, sessionId: Id, freshId: Id, freshDigest: Digest)
    | CommitCreation
    | Fail

  /** `heard` says whether the reply to a commit arrives; it means nothing for other steps. */
  datatype Event = Event(at: int, who: nat, action: Action, heard: bool := true)

  predicate Commits(action: Action) {
    action.CommitRotation? || action.CommitRevocation? || action.CommitCreation?
  }

  /** Where a request is; one that has not begun is `Idle`. */
  function PhaseOf(s: System, who: nat): Phase {
    if who in s.requests then s.requests[who] else Idle
  }

  // ----- Row locks --------------------------------------------------------------------------------

  predicate HoldsShare(p: Phase, sid: Id) {
    (p.Spending? || p.Inserting? || p.Committing?) && p.job.next.sessionId == sid
  }

  predicate HoldsToken(p: Phase, tokenId: Id) {
    (p.Inserting? || p.Committing?) && p.job.tokenId == tokenId
  }

  predicate HoldsSession(p: Phase, sid: Id) {
    p.RevokeWritten? && p.session.id == sid
  }

  /** No other transaction is writing the session row. */
  predicate ShareAvailable(s: System, who: nat, sid: Id) {
    forall u :: u in s.requests && u != who ==> !HoldsSession(s.requests[u], sid)
  }

  /** No other transaction holds the session row in any mode. */
  predicate SessionAvailable(s: System, who: nat, sid: Id) {
    forall u :: u in s.requests && u != who ==> !HoldsSession(s.requests[u], sid) && !HoldsShare(s.requests[u], sid)
  }

  predicate TokenAvailable(s: System, who: nat, tokenId: Id) {
    forall u :: u in s.requests && u != who ==> !HoldsToken(s.requests[u], tokenId)
  }

  // ----- Steps ------------------------------------------------------------------------------------

  predicate SessionLive(db: Tables, sid: Id) {
    sid in db.sessions && db.sessions[sid].revokedAt.None?
  }

  predicate TokenUnspent(db: Tables, tokenId: Id, sid: Id) {
    tokenId in db.tokens && db.tokens[tokenId].sessionId == sid && db.tokens[tokenId].spentAt.None?
  }

  /** The freshness Snowflake ids and 256-bit random tokens give. */
  predicate NewlyMinted(s: System, id: Id, digest: Digest) {
    id !in s.minted && digest !in s.digests
  }

  /** The action fits the request's phase, its locks can be had and what it mints is new. */
  ghost predicate Enabled(s: System, e: Event) {
    var p := PhaseOf(s, e.who);
    match e.action
    case Present(_) => p.Idle?
    case Look => p.Looking?
    case Decide(freshId, freshDigest) => p.Deciding? && NewlyMinted(s, freshId, freshDigest)
    case LockSession => p.Locking? && ShareAvailable(s, e.who, p.job.next.sessionId)
    case SpendToken => p.Spending? && TokenAvailable(s, e.who, p.job.tokenId)
    case InsertNext => p.Inserting?
    case CommitRotation => p.Committing?
    case WriteRevocation => p.Revoking? && SessionAvailable(s, e.who, p.session.id)
    case CommitRevocation => p.RevokeWritten?
    case LogIn(_, _, sessionId, freshId, freshDigest) =>
      p.Idle? && sessionId !in s.minted && sessionId != freshId && NewlyMinted(s, freshId, freshDigest)
    case CommitCreation => p.Creating?
    case Fail => !p.Idle? && !p.Done?
  }

  /**
    What a step does: the request's next phase, the tables it leaves
    committed, the repository call it completes, and the ids and digests it
    mints.
   */
  datatype Effects = Effects(phase: Phase, db: Tables, call: Option<Call>, ids: set<Id>, digests: set<Digest>)

  function Moves(db: Tables, p: Phase): Effects {
    Effects(p, db, None, {}, {})
  }

  function Mints(db: Tables, p: Phase, ids: set<Id>, digest: Digest): Effects {
    Effects(p, db, None, ids, {digest})
  }

  function Completes(db: Tables, p: Phase, call: Call): Effects {
    Effects(p, db, Some(call), {}, {})
  }

  /** `rotate` answers false, having nothing to commit; the use case goes on to revoke. */
  function Refuses(db: Tables, job: Job): Effects {
    Completes(db, Revoking(job.session, job.tokenId, job.now, Some(job)), Rotated(job.tokenId, job.next, job.now, false))
  }

  ghost function Step(lifetimes: Lifetimes, db: Tables, at: int, p: Phase, action: Action): Effects {
    match (action, p)
    case (Present(digest), Idle) =>
      Moves(db, Looking(digest))
    case (Look, Looking(presented)) =>
      var found := FindIn(db, presented);
      Moves(db, if found.None? then Done(Unknown) else Deciding(found.value.session, found.value.token))
    case (Decide(freshId, freshDigest), Deciding(session, token)) =>
      if token.spentAt.Some? then
        Moves(db, Revoking(session, token.id, at, None))
      else if at >= session.expiresAt then
        Moves(db, Done(Expired(session, token.id, at)))
      else
        var next := TokenRow(freshId, session.id, freshDigest, None, at);
        Mints(db, Locking(Job(session, token.id, next, at)), {freshId}, freshDigest)
    case (LockSession, Locking(job)) =>
      if SessionLive(db, job.next.sessionId) then Moves(db, Spending(job)) else Refuses(db, job)
    case (SpendToken, Spending(job)) =>
      if TokenUnspent(db, job.tokenId, job.next.sessionId) then
        Moves(db, Inserting(job, db.tokens[job.tokenId].(spentAt := Some(job.now))))
      else
        Refuses(db, job)
    case (InsertNext, Inserting(job, spent)) =>
      // A duplicate id or hash is a unique violation: the transaction rolls back and the call throws.
      if job.next.id in db.tokens || Stored(db, job.next.tokenHash) then Moves(db, Done(Failed(None)))
      else Moves(db, Committing(job, spent))
    case (CommitRotation, Committing(job, spent)) =>
      Completes(db.(tokens := db.tokens[job.tokenId := spent][job.next.id := job.next]),
                Done(Refreshed(job)), Rotated(job.tokenId, job.next, job.now, true))
    case (WriteRevocation, Revoking(session, tokenId, now, lost)) =>
      if SessionLive(db, session.id) then
        Moves(db, RevokeWritten(session, tokenId, now, lost, db.sessions[session.id].(revokedAt := Some(now))))
      else
        Completes(db, Done(Replayed(session, tokenId, now, lost)), Revoked(session.id, now))
    case (CommitRevocation, RevokeWritten(session, tokenId, now, lost, written)) =>
      Completes(db.(sessions := db.sessions[session.id := written]),
                Done(Replayed(session, tokenId, now, lost)), Revoked(session.id, now))
    case (LogIn(userId, userAgent, sessionId, freshId, freshDigest), Idle) =>
      var session := Session(sessionId, userId, at + lifetimes.refreshTokenMs, None, userAgent, at);
      Mints(db, Creating(session, TokenRow(freshId, sessionId, freshDigest, None, at)), {sessionId, freshId}, freshDigest)
    case (CommitCreation, Creating(account, first)) =>
      Completes(Tables(db.sessions[account.id := account], db.tokens[first.id := first]),
                Done(LoggedIn(account, first)), Created(account, first))
    case (Fail, _) =>
      Moves(db, Done(Failed(if p.Revoking? || p.RevokeWritten? then p.lost else None)))
    case _ => Moves(db, p)
  }

  function Logged(who: nat, call: Option<Call>): seq<Entry> {
    if call.Some? then [Entry(who, call.value)] else []
  }

  function Install(s: System, who: nat, fx: Effects, heard: bool): System {
    s.(db := fx.db, requests := s.requests[who := fx.phase], minted := s.minted + fx.ids,
      digests := s.digests + fx.digests, unheard := s.unheard + (if heard then {} else {who}),
      log := s.log + Logged(who, fx.call))
  }

  ghost function Apply(lifetimes: Lifetimes, s: System, e: Event): System
    requires Enabled(s, e)
  {
    Install(s, e.who, Step(lifetimes, s.db, e.at, PhaseOf(s, e.who), e.action), e.heard || !Commits(e.action))
  }

  // ----- Runs -------------------------------------------------------------------------------------

  /** The state after a run, if every event of it was enabled when it happened. */
  ghost function Execute(lifetimes: Lifetimes, run: seq<Event>): Option<System> {
    if run == [] then Some(START)
    else
      var before, e := Execute(lifetimes, run[..|run| - 1]), run[|run| - 1];
      if before.Some? && Enabled(before.value, e) then Some(Apply(lifetimes, before.value, e)) else None
  }

  ghost predicate Run(lifetimes: Lifetimes, run: seq<Event>) {
    Execute(lifetimes, run).Some?
  }

  ghost function After(lifetimes: Lifetimes, run: seq<Event>): System
    requires Run(lifetimes, run)
  {
    Execute(lifetimes, run).value
  }
}
