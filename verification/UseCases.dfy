/**
  `LoginUseCase` and `RefreshSessionUseCase` as they run over the in-memory
  repository, and the lemma that a refresh which meets no rival in the locking
  protocol ends the same way.
 */
module UseCases {
  import opened Prelude
  import opened SessionStore
  import opened SessionHistory
  import opened RotationProtocol
  import opened RotationRefinement
  import opened RotationProgress
  import opened RotationSafety
  import opened Decimal
  import AccessToken

  /** `claims` are what the access token signs: its text is `AccessToken.Issue` of them. */
  datatype IssuedTokens = IssuedTokens(
    userId: Id,
    claims: AccessToken.Claims,
    accessTokenExpiresAt: int,
    refreshToken: nat,
    refreshTokenExpiresAt: int)

  datatype StoredCredentials = StoredCredentials(userId: Id, passwordHash: string)

  datatype UseCaseError = InvalidCredentials | InvalidRefreshToken

  function ClaimsFor(session: Session, now: int, lifetimes: Lifetimes): AccessToken.Claims {
    AccessToken.Claims(ToDecimal(session.userId), ToDecimal(session.id), now, now + lifetimes.accessTokenMs)
  }

  function IssueTokens(session: Session, refreshToken: nat, now: int, lifetimes: Lifetimes): IssuedTokens {
    var claims := ClaimsFor(session, now, lifetimes);
    IssuedTokens(session.userId, claims, claims.expiresAt, refreshToken, session.expiresAt)
  }

  /** What the caller is told is the truth about this row of the sessions table. */
  ghost predicate Tells(tokens: IssuedTokens, session: Session, refreshToken: nat, now: int, lifetimes: Lifetimes) {
    && tokens.userId == session.userId
    && tokens.refreshToken == refreshToken
    && tokens.accessTokenExpiresAt == now + lifetimes.accessTokenMs
    && tokens.refreshTokenExpiresAt == session.expiresAt
    && tokens.claims.issuedAt == now
    && IsGoodFor(tokens.claims, session.userId, session.id, tokens.accessTokenExpiresAt)
  }

  /** The access token speaks for exactly this user and session, exactly until the whole second of `expiresAt`. */
  ghost predicate IsGoodFor(claims: AccessToken.Claims, userId: Id, sessionId: Id, expiresAt: int) {
    AccessToken.IsGoodFor(claims, ToDecimal(userId), ToDecimal(sessionId), expiresAt)
  }

  lemma IssuedTokensTell(session: Session, refreshToken: nat, now: int, lifetimes: Lifetimes)
    ensures Tells(IssueTokens(session, refreshToken, now, lifetimes), session, refreshToken, now, lifetimes)
  {
    AccessToken.IssuedIsGood(ClaimsFor(session, now, lifetimes));
  }

  /** A refresh over the atomic repository: the tables it leaves and how it ends. */
  ghost function RefreshAlone(db: Tables, digest: Digest, now: int, freshId: Id, freshDigest: Digest): (Tables, Outcome) {
    var found := FindIn(db, digest);
    if found.None? then (db, Unknown) else DecidedAlone(db, found.value, now, freshId, freshDigest)
  }

  ghost function DecidedAlone(db: Tables, found: SessionWithToken, now: int, freshId: Id, freshDigest: Digest): (Tables, Outcome) {
    var session, token := found.session, found.token;
    if token.spentAt.Some? then
      (RevokeIn(db, session.id, now), Replayed(session, token.id, now, None))
    else if now >= session.expiresAt then (db, Expired(session, token.id, now))
    else
      var job := Job(session, token.id, TokenRow(freshId, session.id, freshDigest, None, now), now);
      var (db', ok) := RotateIn(db, token.id, job.next, now);
      if ok then (db', Refreshed(job))
      else (RevokeIn(db, session.id, now), Replayed(session, token.id, now, Some(job)))
  }

  /** It succeeds exactly for an unspent token of a live session before its expiry, and works on that session's row. */
  lemma RefreshesExactlyWhen(db: Tables, digest: Digest, now: int, freshId: Id, freshDigest: Digest)
    requires WellFormed(db)
    ensures var (found, outcome) := (FindIn(db, digest), RefreshAlone(db, digest, now, freshId, freshDigest).1);
            && (outcome.Refreshed? <==> found.Some? && IsGood(found.value, now))
            && (outcome.Refreshed? ==> outcome.job.session == found.value.session && outcome.job.now == now)
  {
  }

  predicate IsGood(found: SessionWithToken, now: int) {
    found.token.spentAt.None? && found.session.revokedAt.None? && now < found.session.expiresAt
  }

  /** With a new id and digest the rows stay well formed, so refreshes can follow one another. */
  lemma RefreshKeepsWellFormed(db: Tables, digest: Digest, now: int, freshId: Id, freshDigest: Digest)
    requires WellFormed(db) && freshId !in db.tokens && !Stored(db, freshDigest)
    ensures WellFormed(RefreshAlone(db, digest, now, freshId, freshDigest).0)
  {
    var found := FindIn(db, digest);
    if found.Some? {
      var session, token := found.value.session, found.value.token;
      var next := TokenRow(freshId, session.id, freshDigest, None, now);
      CallIsWellFormed(db, Revoked(session.id, now));
      CallIsWellFormed(db, Rotated(token.id, next, now, RotateIn(db, token.id, next, now).1));
    }
  }

  /** If the id and the digest are new, the tables are well formed afterwards. */
  ghost predicate StaysWellFormed(db: Tables, freshId: Id, freshDigest: Digest, db': Tables) {
    freshId !in db.tokens && !Stored(db, freshDigest) ==> WellFormed(db')
  }

  lemma RefreshStaysWellFormed(db: Tables, digest: Digest, now: int, freshId: Id, freshDigest: Digest)
    requires WellFormed(db)
    ensures StaysWellFormed(db, freshId, freshDigest, RefreshAlone(db, digest, now, freshId, freshDigest).0)
  {
    if freshId !in db.tokens && !Stored(db, freshDigest) {
      RefreshKeepsWellFormed(db, digest, now, freshId, freshDigest);
    }
  }

  class IdGenerator {
    var last: nat

    constructor ()
      ensures last == 0
    {
      last := 0;
    }

    method Next() returns (id: Id)
      modifies this
      ensures id == last == old(last) + 1
    {
      last := last + 1;
      id := last;
    }
  }

  class RefreshTokenFactory {
    var last: nat
    const digestOf: nat -> Digest

    constructor (digestOf: nat -> Digest)
      ensures last == 0 && this.digestOf == digestOf
    {
      last := 0;
      this.digestOf := digestOf;
    }

    method Create() returns (token: nat, digest: Digest)
      modifies this
      ensures token == last == old(last) + 1 && digest == digestOf(token)
    {
      last := last + 1;
      token, digest := last, digestOf(last);
    }
  }

  method MintRefreshToken(factory: RefreshTokenFactory, ids: IdGenerator, sessionId: Id, now: int)
    returns (token: nat, row: TokenRow)
    modifies factory, ids
    ensures token == factory.last == old(factory.last) + 1 && ids.last == old(ids.last) + 1
    ensures row == TokenRow(ids.last, sessionId, factory.digestOf(token), None, now)
  {
    var digest;
    token, digest := factory.Create();
    var id := ids.Next();
    row := TokenRow(id, sessionId, digest, None, now);
  }

  /** Credentials by folded handle; `lower` is whatever folding the host has. */
  class InMemoryUserRepository {
    var credentials: map<string, StoredCredentials>
    var lookups: seq<string>
    const lower: string -> string

    constructor (lower: string -> string)
      ensures this.lower == lower && credentials == map[] && lookups == []
    {
      this.lower := lower;
      credentials, lookups := map[], [];
    }

    function Held(handle: string): Option<StoredCredentials>
      reads this
    {
      if lower(handle) in credentials then Some(credentials[lower(handle)]) else None
    }

    method Seed(handle: string, stored: StoredCredentials)
      modifies this`credentials
      ensures forall h :: Held(h) == if lower(h) == lower(handle) then Some(stored) else old(Held(h))
    {
      credentials := credentials[lower(handle) := stored];
    }

    method FindCredentialsByHandle(handle: string) returns (found: Option<StoredCredentials>)
      modifies this`lookups
      ensures found == Held(handle) && lookups == old(lookups) + [handle]
    {
      lookups := lookups + [handle];
      found := Held(handle);
    }
  }

  /** Records every call: each of them is the slow work of one password hash. */
  class PasswordHasher {
    var hashed: seq<string>
    var verified: seq<(string, string)>
    const digest: string -> string

    constructor (digest: string -> string)
      ensures this.digest == digest && hashed == [] && verified == []
    {
      this.digest := digest;
      hashed, verified := [], [];
    }

    function Work(): nat
      reads this
    {
      |hashed| + |verified|
    }

    method Hash(password: string) returns (hash: string)
      modifies this`hashed
      ensures hash == digest(password) && hashed == old(hashed) + [password]
    {
      hashed := hashed + [password];
      hash := digest(password);
    }

    method Verify(hash: string, password: string) returns (ok: bool)
      modifies this`verified
      ensures ok == (hash == digest(password)) && verified == old(verified) + [(hash, password)]
    {
      verified := verified + [(hash, password)];
      ok := hash == digest(password);
    }
  }

  class LoginUseCase {
    const users: InMemoryUserRepository
    const sessions: InMemorySessionRepository
    const hasher: PasswordHasher
    const refreshTokens: RefreshTokenFactory
    const ids: IdGenerator
    const lifetimes: Lifetimes

    constructor (users: InMemoryUserRepository, sessions: InMemorySessionRepository, hasher: PasswordHasher,
                 refreshTokens: RefreshTokenFactory, ids: IdGenerator, lifetimes: Lifetimes)
      ensures this.users == users && this.sessions == sessions && this.hasher == hasher
      ensures this.refreshTokens == refreshTokens && this.ids == ids && this.lifetimes == lifetimes
    {
      this.users, this.sessions, this.hasher := users, sessions, hasher;
      this.refreshTokens, this.ids, this.lifetimes := refreshTokens, ids, lifetimes;
    }

    /** The handle is somebody's and the password is theirs. */
    predicate Proves(handle: string, password: string)
      reads users
    {
      users.Held(handle).Some? && users.Held(handle).value.passwordHash == hasher.digest(password)
    }

    /**
      A refusal is one value whatever its reason, mints nothing and writes nothing.
      Every login, of a known handle or not, does the work of exactly one hash.
     */
    method Execute(handle: string, password: string, userAgent: Option<string>, now: int)
      returns (result: Result<IssuedTokens, UseCaseError>)
      modifies users`lookups, sessions, hasher, refreshTokens, ids
      ensures hasher.Work() == old(hasher.Work()) + 1 && users.lookups == old(users.lookups) + [handle]
      ensures hasher.hashed == old(hasher.hashed) + if users.Held(handle).None? then [password] else []
      ensures result.Ok? <==> Proves(handle, password)
      ensures result.Err? ==> result == Err(InvalidCredentials) && sessions.Contents() == old(sessions.Contents())
                              && ids.last == old(ids.last) && refreshTokens.last == old(refreshTokens.last)
      ensures result.Ok? ==>
                var userId := users.Held(handle).value.userId;
                var session := Session(old(ids.last) + 1, userId, now + lifetimes.refreshTokenMs, None, userAgent, now);
                var first := TokenRow(old(ids.last) + 2, session.id, refreshTokens.digestOf(refreshTokens.last), None, now);
                && sessions.Contents() == CreateIn(old(sessions.Contents()), session, first)
                && Tells(result.value, session, refreshTokens.last, now, lifetimes)
                && refreshTokens.last == old(refreshTokens.last) + 1
    {
      var credentials := users.FindCredentialsByHandle(handle);
      if credentials.None? {
        var _ := hasher.Hash(password);
        return Err(InvalidCredentials);
      }
      var matches := hasher.Verify(credentials.value.passwordHash, password);
      if !matches {
        return Err(InvalidCredentials);
      }
      var sessionId := ids.Next();
      var session := Session(sessionId, credentials.value.userId, now + lifetimes.refreshTokenMs, None, userAgent, now);
      var token, row := MintRefreshToken(refreshTokens, ids, session.id, now);
      sessions.Create(session, row);
      IssuedTokensTell(session, token, now, lifetimes);
      return Ok(IssueTokens(session, token, now, lifetimes));
    }
  }

  class RefreshSessionUseCase {
    const sessions: InMemorySessionRepository
    const refreshTokens: RefreshTokenFactory
    const ids: IdGenerator
    const lifetimes: Lifetimes

    constructor (sessions: InMemorySessionRepository, refreshTokens: RefreshTokenFactory, ids: IdGenerator, lifetimes: Lifetimes)
      ensures this.sessions == sessions && this.refreshTokens == refreshTokens
      ensures this.ids == ids && this.lifetimes == lifetimes
    {
      this.sessions, this.refreshTokens, this.ids, this.lifetimes := sessions, refreshTokens, ids, lifetimes;
    }

    method Execute(refreshToken: nat, now: int) returns (result: Result<IssuedTokens, UseCaseError>)
      requires WellFormed(sessions.Contents())
      modifies sessions, refreshTokens, ids
      ensures sessions.Contents() == RefreshAlone(old(sessions.Contents()), refreshTokens.digestOf(refreshToken), now,
                                                  old(ids.last) + 1, refreshTokens.digestOf(old(refreshTokens.last) + 1)).0
      ensures var found := FindIn(old(sessions.Contents()), refreshTokens.digestOf(refreshToken));
              && (result.Ok? <==> found.Some? && IsGood(found.value, now))
              && (result.Ok? ==> Tells(result.value, found.value.session, refreshTokens.last, now, lifetimes))
              && (result.Err? ==> result == Err(InvalidRefreshToken))
      ensures StaysWellFormed(old(sessions.Contents()), old(ids.last) + 1,
                              refreshTokens.digestOf(old(refreshTokens.last) + 1), sessions.Contents())
    {
      RefreshStaysWellFormed(sessions.Contents(), refreshTokens.digestOf(refreshToken), now,
                             ids.last + 1, refreshTokens.digestOf(refreshTokens.last + 1));
      RefreshesExactlyWhen(sessions.Contents(), refreshTokens.digestOf(refreshToken), now,
                           ids.last + 1, refreshTokens.digestOf(refreshTokens.last + 1));
      var found := sessions.FindByTokenHash(refreshTokens.digestOf(refreshToken));
      if found.None? {
        return Err(InvalidRefreshToken);
      }
      var session, token := found.value.session, found.value.token;
      if token.spentAt.Some? {
        result := RejectAsReuse(session.id, now);
        return;
      }
      if now >= session.expiresAt {
        return Err(InvalidRefreshToken);
      }
      var next, row := MintRefreshToken(refreshTokens, ids, session.id, now);
      var rotated := sessions.Rotate(token.id, row, now);
      if !rotated {
        result := RejectAsReuse(session.id, now);
        return;
      }
      IssuedTokensTell(session, next, now, lifetimes);
      return Ok(IssueTokens(session, next, now, lifetimes));
    }

    method RejectAsReuse(sessionId: Id, now: int) returns (result: Result<IssuedTokens, UseCaseError>)
      modifies sessions
      ensures sessions.Contents() == RevokeIn(old(sessions.Contents()), sessionId, now)
      ensures result == Err(InvalidRefreshToken)
    {
      sessions.Revoke(sessionId, now);
      return Err(InvalidRefreshToken);
    }
  }

  // ----- A refresh without rivals -------------------------------------------------------------------

  /** No other request is inside a transaction that holds a row lock. */
  ghost predicate OthersHoldNothing(s: System, who: nat) {
    forall u :: u in s.requests && u != who ==> HoldsNoLock(s.requests[u])
  }

  predicate HoldsNoLock(p: Phase) {
    !p.Spending? && !p.Inserting? && !p.Committing? && !p.RevokeWritten?
  }

  /** The run goes on with events of one request, all at one moment. */
  predicate OnlyBy(run: seq<Event>, run': seq<Event>, who: nat, at: int) {
    run <= run' && forall i :: |run| <= i < |run'| ==> run'[i].who == who && run'[i].at == at
  }

  /** One more event of a request nobody else is in the way of. */
  lemma StepAlone(lifetimes: Lifetimes, run: seq<Event>, e: Event) returns (run': seq<Event>)
    requires Run(lifetimes, run) && Enabled(After(lifetimes, run), e) && OthersHoldNothing(After(lifetimes, run), e.who)
    ensures run' == run + [e] && Run(lifetimes, run') && OthersHoldNothing(After(lifetimes, run'), e.who)
    ensures var fx := Step(lifetimes, After(lifetimes, run).db, e.at, PhaseOf(After(lifetimes, run), e.who), e.action);
            After(lifetimes, run').db == fx.db && PhaseOf(After(lifetimes, run'), e.who) == fx.phase
    ensures After(lifetimes, run').minted == After(lifetimes, run).minted || e.action.Decide? || e.action.LogIn?
    ensures After(lifetimes, run').digests == After(lifetimes, run).digests || e.action.Decide? || e.action.LogIn?
  {
    ExtendRun(lifetimes, run, e);
    run' := run + [e];
  }

  lemma RevokeAlone(lifetimes: Lifetimes, run: seq<Event>, who: nat, at: int) returns (run': seq<Event>)
    requires Run(lifetimes, run) && OthersHoldNothing(After(lifetimes, run), who) && PhaseOf(After(lifetimes, run), who).Revoking?
    ensures Run(lifetimes, run') && OnlyBy(run, run', who, at)
    ensures var s, p := After(lifetimes, run), PhaseOf(After(lifetimes, run), who);
            && After(lifetimes, run').db == RevokeIn(s.db, p.session.id, p.now)
            && PhaseOf(After(lifetimes, run'), who) == Done(Replayed(p.session, p.tokenId, p.now, p.lost))
  {
    run' := StepAlone(lifetimes, run, Event(at, who, WriteRevocation));
    if PhaseOf(After(lifetimes, run'), who).RevokeWritten? {
      run' := StepAlone(lifetimes, run', Event(at, who, CommitRevocation));
    }
  }

  /** The request has ended as `rotate`, and `revoke` if that was refused, end over tables `db`. */
  ghost predicate EndsAsAtomic(s': System, who: nat, db: Tables, job: Job) {
    var (rotated, ok) := RotateIn(db, job.tokenId, job.next, job.now);
    if ok then s'.db == rotated && PhaseOf(s', who) == Done(Refreshed(job))
    else s'.db == RevokeIn(db, job.session.id, job.now)
         && PhaseOf(s', who) == Done(Replayed(job.session, job.tokenId, job.now, Some(job)))
  }

  lemma WritingFacts(lifetimes: Lifetimes, run: seq<Event>, who: nat, at: int)
    requires Run(lifetimes, run) && PhaseOf(After(lifetimes, run), who).Inserting?
    ensures var s, p := After(lifetimes, run), PhaseOf(After(lifetimes, run), who);
            && WritingOk(s, p.job, p.spent)
            && Step(lifetimes, s.db, at, p, InsertNext).phase == Committing(p.job, p.spent)
  {
    RunKeepsInvariant(lifetimes, run);
    assert PhaseOk(lifetimes, After(lifetimes, run), PhaseOf(After(lifetimes, run), who));
  }

  lemma CommitAlone(lifetimes: Lifetimes, run: seq<Event>, who: nat, at: int) returns (run': seq<Event>)
    requires Run(lifetimes, run) && OthersHoldNothing(After(lifetimes, run), who) && PhaseOf(After(lifetimes, run), who).Inserting?
    ensures Run(lifetimes, run') && OnlyBy(run, run', who, at)
    ensures EndsAsAtomic(After(lifetimes, run'), who, After(lifetimes, run).db, PhaseOf(After(lifetimes, run), who).job)
  {
    WritingFacts(lifetimes, run, who, at);
    run' := StepAlone(lifetimes, run, Event(at, who, InsertNext));
    run' := StepAlone(lifetimes, run', Event(at, who, CommitRotation));
  }

  /** What a rotating request knows of the rows it works on. */
  lemma JobFacts(lifetimes: Lifetimes, run: seq<Event>, who: nat, job: Job)
    requires Run(lifetimes, run)
    requires PhaseOf(After(lifetimes, run), who) == Locking(job) || PhaseOf(After(lifetimes, run), who) == Spending(job)
    ensures JobOk(After(lifetimes, run).db, job)
    ensures PhaseOf(After(lifetimes, run), who).Spending? ==> SessionLive(After(lifetimes, run).db, job.session.id)
  {
    RunKeepsInvariant(lifetimes, run);
    assert PhaseOk(lifetimes, After(lifetimes, run), PhaseOf(After(lifetimes, run), who));
  }

  lemma SpendAlone(lifetimes: Lifetimes, run: seq<Event>, who: nat, at: int) returns (run': seq<Event>)
    requires Run(lifetimes, run) && OthersHoldNothing(After(lifetimes, run), who) && PhaseOf(After(lifetimes, run), who).Spending?
    ensures Run(lifetimes, run') && OnlyBy(run, run', who, at)
    ensures EndsAsAtomic(After(lifetimes, run'), who, After(lifetimes, run).db, PhaseOf(After(lifetimes, run), who).job)
  {
    JobFacts(lifetimes, run, who, PhaseOf(After(lifetimes, run), who).job);
    run' := StepAlone(lifetimes, run, Event(at, who, SpendToken));
    if PhaseOf(After(lifetimes, run'), who).Inserting? {
      run' := CommitAlone(lifetimes, run', who, at);
    } else {
      run' := RevokeAlone(lifetimes, run', who, at);
    }
  }

  lemma RotateAlone(lifetimes: Lifetimes, run: seq<Event>, who: nat, at: int) returns (run': seq<Event>)
    requires Run(lifetimes, run) && OthersHoldNothing(After(lifetimes, run), who) && PhaseOf(After(lifetimes, run), who).Locking?
    ensures Run(lifetimes, run') && OnlyBy(run, run', who, at)
    ensures EndsAsAtomic(After(lifetimes, run'), who, After(lifetimes, run).db, PhaseOf(After(lifetimes, run), who).job)
  {
    JobFacts(lifetimes, run, who, PhaseOf(After(lifetimes, run), who).job);
    run' := StepAlone(lifetimes, run, Event(at, who, LockSession));
    if PhaseOf(After(lifetimes, run'), who).Spending? {
      run' := SpendAlone(lifetimes, run', who, at);
    } else {
      run' := RevokeAlone(lifetimes, run', who, at);
    }
  }

  lemma DecideAlone(lifetimes: Lifetimes, run: seq<Event>, who: nat, at: int, freshId: Id, freshDigest: Digest)
    returns (run': seq<Event>)
    requires Run(lifetimes, run) && OthersHoldNothing(After(lifetimes, run), who) && PhaseOf(After(lifetimes, run), who).Deciding?
    requires NewlyMinted(After(lifetimes, run), freshId, freshDigest)
    ensures Run(lifetimes, run') && OnlyBy(run, run', who, at)
    ensures var s, p := After(lifetimes, run), PhaseOf(After(lifetimes, run), who);
            var (db, outcome) := DecidedAlone(s.db, SessionWithToken(p.session, p.token), at, freshId, freshDigest);
            After(lifetimes, run').db == db && PhaseOf(After(lifetimes, run'), who) == Done(outcome)
  {
    run' := StepAlone(lifetimes, run, Event(at, who, Decide(freshId, freshDigest)));
    if PhaseOf(After(lifetimes, run'), who).Revoking? {
      run' := RevokeAlone(lifetimes, run', who, at);
    } else if PhaseOf(After(lifetimes, run'), who).Locking? {
      run' := RotateAlone(lifetimes, run', who, at);
    }
  }

  /**
    A refresh that runs while no other request holds a row lock leaves the
    tables and ends as the use case does over the in-memory repository.
   */
  lemma RefreshWithoutRivals(lifetimes: Lifetimes, run: seq<Event>, who: nat, digest: Digest, at: int, freshId: Id, freshDigest: Digest)
    returns (run': seq<Event>)
    requires Run(lifetimes, run) && who !in After(lifetimes, run).requests && OthersHoldNothing(After(lifetimes, run), who)
    requires NewlyMinted(After(lifetimes, run), freshId, freshDigest)
    ensures Run(lifetimes, run') && OnlyBy(run, run', who, at)
    ensures var (db, outcome) := RefreshAlone(After(lifetimes, run).db, digest, at, freshId, freshDigest);
            After(lifetimes, run').db == db && PhaseOf(After(lifetimes, run'), who) == Done(outcome)
  {
    run' := StepAlone(lifetimes, run, Event(at, who, Present(digest)));
    run' := StepAlone(lifetimes, run', Event(at, who, Look));
    if PhaseOf(After(lifetimes, run'), who).Deciding? {
      run' := DecideAlone(lifetimes, run', who, at, freshId, freshDigest);
    }
  }

  /** A login stores and answers what the use case does over the in-memory repository, whoever else is at work. */
  lemma LoginAsInMemory(lifetimes: Lifetimes, run: seq<Event>, who: nat, userId: Id, userAgent: Option<string>,
                        at: int, sessionId: Id, freshId: Id, freshDigest: Digest)
    returns (run': seq<Event>)
    requires Run(lifetimes, run) && who !in After(lifetimes, run).requests
    requires NewlyMinted(After(lifetimes, run), freshId, freshDigest)
    requires sessionId !in After(lifetimes, run).minted && sessionId != freshId
    ensures Run(lifetimes, run') && OnlyBy(run, run', who, at)
    ensures var session := Session(sessionId, userId, at + lifetimes.refreshTokenMs, None, userAgent, at);
            var first := TokenRow(freshId, sessionId, freshDigest, None, at);
            && After(lifetimes, run').db == CreateIn(After(lifetimes, run).db, session, first)
            && PhaseOf(After(lifetimes, run'), who) == Done(LoggedIn(session, first))
  {
    var minted := LoginMints(lifetimes, run, who, userId, userAgent, at, sessionId, freshId, freshDigest);
    run' := CreateAlone(lifetimes, minted, who, at);
  }

  lemma LoginMints(lifetimes: Lifetimes, run: seq<Event>, who: nat, userId: Id, userAgent: Option<string>,
                   at: int, sessionId: Id, freshId: Id, freshDigest: Digest)
    returns (run': seq<Event>)
    requires Run(lifetimes, run) && who !in After(lifetimes, run).requests
    requires NewlyMinted(After(lifetimes, run), freshId, freshDigest)
    requires sessionId !in After(lifetimes, run).minted && sessionId != freshId
    ensures Run(lifetimes, run') && OnlyBy(run, run', who, at) && After(lifetimes, run').db == After(lifetimes, run).db
    ensures PhaseOf(After(lifetimes, run'), who)
         == Creating(Session(sessionId, userId, at + lifetimes.refreshTokenMs, None, userAgent, at),
                     TokenRow(freshId, sessionId, freshDigest, None, at))
  {
    var e := Event(at, who, LogIn(userId, userAgent, sessionId, freshId, freshDigest));
    run' := run + [e];
    ExtendRun(lifetimes, run, e);
  }

  lemma CreateAlone(lifetimes: Lifetimes, run: seq<Event>, who: nat, at: int) returns (run': seq<Event>)
    requires Run(lifetimes, run) && PhaseOf(After(lifetimes, run), who).Creating?
    ensures run' == run + [Event(at, who, CommitCreation)] && Run(lifetimes, run')
    ensures var p := PhaseOf(After(lifetimes, run), who);
            && After(lifetimes, run').db == CreateIn(After(lifetimes, run).db, p.account, p.first)
            && PhaseOf(After(lifetimes, run'), who) == Done(LoggedIn(p.account, p.first))
  {
    run' := run + [Event(at, who, CommitCreation)];
    ExtendRun(lifetimes, run, Event(at, who, CommitCreation));
  }

  // ----- What callers are told ----------------------------------------------------------------------

  /** The session a request was granted tokens for, as it saw it. */
  function SessionGranted(outcome: Outcome): Option<Session> {
    match outcome
    case Refreshed(job) => Some(job.session)
    case LoggedIn(account, _) => Some(account)
    case _ => None
  }

  lemma GrantedSessionIsStored(lifetimes: Lifetimes, run: seq<Event>, r: nat)
    requires Run(lifetimes, run) && r in After(lifetimes, run).requests && After(lifetimes, run).requests[r].Done?
    requires SessionGranted(After(lifetimes, run).requests[r].outcome).Some?
    ensures var s := After(lifetimes, run);
            var session := SessionGranted(s.requests[r].outcome).value;
            && SeenSession(s.db, session)
            && session.expiresAt == s.db.sessions[session.id].createdAt + lifetimes.refreshTokenMs
  {
    var s := After(lifetimes, run);
    RunKeepsInvariant(lifetimes, run);
    assert PhaseOk(lifetimes, s, s.requests[r]);
  }

  lemma SameSessionSameToken(told: IssuedTokens, session: Session, row: Session, refreshToken: nat, now: int, lifetimes: Lifetimes)
    requires Tells(told, session, refreshToken, now, lifetimes) && SessionEvolves(session, row)
    ensures told.userId == row.userId && told.refreshTokenExpiresAt == row.expiresAt == session.expiresAt && row.id == session.id
    ensures IsGoodFor(told.claims, told.userId, row.id, told.accessTokenExpiresAt)
  {
  }

  /**
    However requests interleave, what a login and every refresh of its session
    tell is of that session alone, and of one end: login time plus lifetime.
   */
  lemma AnswersReportOneEnd(lifetimes: Lifetimes, run: seq<Event>, r: nat, told: IssuedTokens, refreshToken: nat, now: int)
    requires Run(lifetimes, run) && r in After(lifetimes, run).requests && After(lifetimes, run).requests[r].Done?
    requires var granted := SessionGranted(After(lifetimes, run).requests[r].outcome);
             granted.Some? && Tells(told, granted.value, refreshToken, now, lifetimes)
    ensures var s := After(lifetimes, run);
            var sid := SessionGranted(s.requests[r].outcome).value.id;
            && sid in s.db.sessions && told.userId == s.db.sessions[sid].userId
            && told.refreshTokenExpiresAt == s.db.sessions[sid].createdAt + lifetimes.refreshTokenMs
            && IsGoodFor(told.claims, told.userId, sid, told.accessTokenExpiresAt)
  {
    var s := After(lifetimes, run);
    GrantedSessionIsStored(lifetimes, run, r);
    var session := SessionGranted(s.requests[r].outcome).value;
    SameSessionSameToken(told, session, s.db.sessions[session.id], refreshToken, now, lifetimes);
  }

  // ----- A lost reply -------------------------------------------------------------------------------

  lemma {:induction false} OthersUntouched(lifetimes: Lifetimes, run: seq<Event>, run': seq<Event>, who: nat, at: int, u: nat)
    requires Run(lifetimes, run) && Run(lifetimes, run') && OnlyBy(run, run', who, at) && u != who
    ensures PhaseOf(After(lifetimes, run'), u) == PhaseOf(After(lifetimes, run), u)
    decreases |run'|
  {
    if |run'| == |run| {
      assert run' == run;
    } else {
      var before, e := run'[..|run'| - 1], run'[|run'| - 1];
      OthersUntouched(lifetimes, run, before, who, at, u);
      StepMovesOne(lifetimes, After(lifetimes, before), e);
    }
  }

  /** Presented alone, a spent token brings its request to the revocation it has decided on. */
  lemma ReplayDecides(lifetimes: Lifetimes, run: seq<Event>, who: nat, tokenId: Id, at: int) returns (run': seq<Event>)
    requires Run(lifetimes, run) && who !in After(lifetimes, run).requests && OthersHoldNothing(After(lifetimes, run), who)
    requires tokenId in After(lifetimes, run).db.tokens && After(lifetimes, run).db.tokens[tokenId].spentAt.Some?
    ensures Run(lifetimes, run') && OnlyBy(run, run', who, at)
    ensures var db := After(lifetimes, run).db;
            && After(lifetimes, run').db == db && db.tokens[tokenId].sessionId in db.sessions
            && PhaseOf(After(lifetimes, run'), who) == Revoking(db.sessions[db.tokens[tokenId].sessionId], tokenId, at, None)
  {
    var s := After(lifetimes, run);
    RunKeepsInvariant(lifetimes, run);
    assert Stored(s.db, s.db.tokens[tokenId].tokenHash);
    run' := StepAlone(lifetimes, run, Event(at, who, Present(s.db.tokens[tokenId].tokenHash)));
    run' := StepAlone(lifetimes, run', Event(at, who, Look));
    var id := SomethingFresh(After(lifetimes, run').minted);
    var newDigest := SomethingFresh(After(lifetimes, run').digests);
    run' := StepAlone(lifetimes, run', Event(at, who, Decide(id, newDigest)));
  }

  lemma {:induction false} UnheardGrows(lifetimes: Lifetimes, run: seq<Event>, n: nat)
    requires Run(lifetimes, run) && n <= |run| && Run(lifetimes, run[..n])
    ensures After(lifetimes, run[..n]).unheard <= After(lifetimes, run).unheard
  {
    if n < |run| {
      var run0 := run[..|run| - 1];
      assert run0[..n] == run[..n];
      UnheardGrows(lifetimes, run0, n);
    } else {
      assert run[..n] == run;
    }
  }

  ghost predicate NobodyHoldsALock(s: System) {
    forall u :: u in s.requests ==> HoldsNoLock(s.requests[u])
  }

  lemma OthersStillHoldNothing(lifetimes: Lifetimes, run: seq<Event>, run': seq<Event>, who: nat, at: int)
    requires Run(lifetimes, run) && Run(lifetimes, run') && OnlyBy(run, run', who, at)
    requires NobodyHoldsALock(After(lifetimes, run))
    ensures OthersHoldNothing(After(lifetimes, run'), who)
  {
    forall u | u in After(lifetimes, run').requests && u != who
      ensures HoldsNoLock(After(lifetimes, run').requests[u])
    {
      OthersUntouched(lifetimes, run, run', who, at, u);
      assert HoldsNoLock(PhaseOf(After(lifetimes, run), u));
    }
  }

  lemma SameTokenSamePresented(lifetimes: Lifetimes, run: seq<Event>, r: nat, u: nat)
    requires Run(lifetimes, run) && r in After(lifetimes, run).requests && u in After(lifetimes, run).requests
    requires var s := After(lifetimes, run); TokenOf(s.requests[r]).Some? && TokenOf(s.requests[r]) == TokenOf(s.requests[u])
    ensures Presented(run, r) == Presented(run, u)
  {
    var s := After(lifetimes, run);
    RequestsHoldWhatTheyPresented(lifetimes, run);
    assert HoldsPresented(s.db, s.requests[r], Presented(run, r));
    assert HoldsPresented(s.db, s.requests[u], Presented(run, u));
  }

  /** The token a rotation is about to spend belongs to its session, and only the commit's reply is in doubt. */
  lemma CommitUnheard(lifetimes: Lifetimes, run: seq<Event>, who: nat, at: int) returns (run': seq<Event>)
    requires Run(lifetimes, run) && PhaseOf(After(lifetimes, run), who).Committing?
    requires OthersHoldNothing(After(lifetimes, run), who)
    ensures run' == run + [Event(at, who, CommitRotation, heard := false)] && Run(lifetimes, run')
    ensures var s, s', job := After(lifetimes, run), After(lifetimes, run'), PhaseOf(After(lifetimes, run), who).job;
            && who in s'.unheard && s'.requests == s.requests[who := Done(Refreshed(job))] && NobodyHoldsALock(s')
  {
    var e := Event(at, who, CommitRotation, heard := false);
    run' := run + [e];
    ExtendRun(lifetimes, run, e);
  }

  /** What a committed refresh leaves: its token spent, in its session. */
  lemma RefreshedFacts(lifetimes: Lifetimes, run: seq<Event>, who: nat, job: Job)
    requires Run(lifetimes, run) && PhaseOf(After(lifetimes, run), who) == Done(Refreshed(job))
    ensures var db := After(lifetimes, run).db;
            && job.tokenId in db.tokens && db.tokens[job.tokenId].spentAt.Some?
            && db.tokens[job.tokenId].sessionId == job.session.id
            && job.session.id in db.sessions && db.sessions[job.session.id].id == job.session.id
  {
    RunKeepsInvariant(lifetimes, run);
    assert PhaseOk(lifetimes, After(lifetimes, run), PhaseOf(After(lifetimes, run), who));
  }

  /** Presenting a spent token while nobody holds a lock ends in the revocation of its session. */
  lemma ReplayRevokes(lifetimes: Lifetimes, run: seq<Event>, retry: nat, tokenId: Id, at: int) returns (run': seq<Event>)
    requires Run(lifetimes, run) && retry !in After(lifetimes, run).requests && NobodyHoldsALock(After(lifetimes, run))
    requires tokenId in After(lifetimes, run).db.tokens && After(lifetimes, run).db.tokens[tokenId].spentAt.Some?
    requires var db := After(lifetimes, run).db;
             db.tokens[tokenId].sessionId in db.sessions
             && db.sessions[db.tokens[tokenId].sessionId].id == db.tokens[tokenId].sessionId
    ensures Run(lifetimes, run') && run <= run'
    ensures forall u :: u != retry ==> PhaseOf(After(lifetimes, run'), u) == PhaseOf(After(lifetimes, run), u)
    ensures PhaseOf(After(lifetimes, run'), retry).Done? && PhaseOf(After(lifetimes, run'), retry).outcome.Replayed?
    ensures PhaseOf(After(lifetimes, run'), retry).outcome.tokenId == tokenId
    ensures IsRevoked(After(lifetimes, run').db, After(lifetimes, run).db.tokens[tokenId].sessionId)
  {
    var decided := ReplayDecides(lifetimes, run, retry, tokenId, at);
    OthersStillHoldNothing(lifetimes, run, decided, retry, at);
    run' := RevokeAlone(lifetimes, decided, retry, at);
    forall u | u != retry
      ensures PhaseOf(After(lifetimes, run'), u) == PhaseOf(After(lifetimes, run), u)
    {
      OthersUntouched(lifetimes, run, decided, retry, at, u);
      OthersUntouched(lifetimes, decided, run', retry, at, u);
    }
  }

  /**
    The price of a lost reply: wherever a rotation is about to commit, it may
    commit unheard, and then its caller's own retry with the same token revokes
    the session.
   */
  lemma RetryAfterLostReply(lifetimes: Lifetimes, run: seq<Event>, who: nat, retry: nat, at: int)
    returns (run': seq<Event>)
    requires Run(lifetimes, run) && PhaseOf(After(lifetimes, run), who).Committing? && retry != who
    requires OthersHoldNothing(After(lifetimes, run), who) && retry !in After(lifetimes, run).requests
    ensures run <= run' && Run(lifetimes, run') && Presented(run', retry) == Presented(run', who)
    ensures var s', job := After(lifetimes, run'), PhaseOf(After(lifetimes, run), who).job;
            && who in s'.unheard && PhaseOf(s', who) == Done(Refreshed(job))
            && PhaseOf(s', retry).Done? && PhaseOf(s', retry).outcome.Replayed?
            && IsRevoked(s'.db, job.session.id)
  {
    var job := PhaseOf(After(lifetimes, run), who).job;
    var lost := CommitUnheard(lifetimes, run, who, at);
    RefreshedFacts(lifetimes, lost, who, job);
    run' := ReplayRevokes(lifetimes, lost, retry, job.tokenId, at);
    SameTokenSamePresented(lifetimes, run', retry, who);
    assert run'[..|lost|] == lost;
    UnheardGrows(lifetimes, run', |lost|);
  }
}
