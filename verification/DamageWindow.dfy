/**
  How long access tokens outlive the revocation of their session, across both
  services, under one clock that never goes backwards.
 */
module DamageWindow {
  import opened Prelude
  import opened SessionStore
  import opened SessionHistory
  import opened RotationProtocol
  import opened RotationRefinement
  import opened RotationSafety
  import opened RotationProgress
  import opened UseCases
  import AccessToken

  predicate ClockNeverGoesBack(run: seq<Event>) {
    forall i, j :: 0 <= i < j < |run| ==> run[i].at <= run[j].at
  }

  /** The clock reading behind the tokens a request was granted or is about to be. */
  function GrantReading(p: Phase): Option<int> {
    match p
    case Locking(job) => Some(job.now)
    case Spending(job) => Some(job.now)
    case Inserting(job, _) => Some(job.now)
    case Committing(job, _) => Some(job.now)
    case Creating(account, _) => Some(account.createdAt)
    case Done(Refreshed(job)) => Some(job.now)
    case Done(LoggedIn(account, _)) => Some(account.createdAt)
    case _ => None
  }

  /** The claims of the access token a finished request was given. */
  function GrantedClaims(lifetimes: Lifetimes, p: Phase): Option<AccessToken.Claims> {
    match p
    case Done(Refreshed(job)) => Some(ClaimsFor(job.session, job.now, lifetimes))
    case Done(LoggedIn(account, _)) => Some(ClaimsFor(account, account.createdAt, lifetimes))
    case _ => None
  }

  ghost predicate ReadingsBy(s: System, t: int) {
    forall r :: r in s.requests && GrantReading(s.requests[r]).Some? ==> GrantReading(s.requests[r]).value <= t
  }

  lemma StepReading(lifetimes: Lifetimes, s: System, e: Event, p: Phase)
    requires Enabled(s, e) && p == PhaseOf(s, e.who)
    ensures var p' := Step(lifetimes, s.db, e.at, p, e.action).phase;
            GrantReading(p').Some? ==> GrantReading(p') == GrantReading(p) || GrantReading(p') == Some(e.at)
  {
  }

  lemma {:induction false} ReadingsArePast(lifetimes: Lifetimes, run: seq<Event>)
    requires Run(lifetimes, run) && run != [] && ClockNeverGoesBack(run)
    ensures ReadingsBy(After(lifetimes, run), run[|run| - 1].at)
  {
    var run0, e := run[..|run| - 1], run[|run| - 1];
    if run0 != [] {
      ReadingsArePast(lifetimes, run0);
      assert run0[|run0| - 1] == run[|run| - 2];
    }
    var s := After(lifetimes, run0);
    StepReading(lifetimes, s, e, PhaseOf(s, e.who));
    StepMovesOne(lifetimes, s, e);
  }

  /**
    From the commit of its revocation plus one access-token lifetime, no
    access token ever granted for a session is accepted by the gateway. The
    commit is event `n`: before it the session is live, after it revoked.
   */
  lemma DamageIsBounded(lifetimes: Lifetimes, run: seq<Event>, n: nat, sid: Id, r: nat, mac: AccessToken.Mac, now: int)
    requires Run(lifetimes, run) && ClockNeverGoesBack(run) && n < |run|
    requires Run(lifetimes, run[..n + 1]) && IsRevoked(After(lifetimes, run[..n + 1]).db, sid)
    requires r in After(lifetimes, run).requests && Grants(After(lifetimes, run).requests[r], sid)
    requires run[n].at + lifetimes.accessTokenMs <= now
    ensures var claims := GrantedClaims(lifetimes, After(lifetimes, run).requests[r]);
            && claims.Some?
            && AccessToken.Verify(mac, AccessToken.Issue(mac, claims.value), now) == Err(AccessToken.InvalidAccessToken)
  {
    var p := After(lifetimes, run).requests[r];
    RevocationIsAbsorbing(lifetimes, run, n + 1, sid);
    assert PhaseOf(After(lifetimes, run[..n + 1]), r) == p;
    ReadingsArePast(lifetimes, run[..n + 1]);
    assert GrantReading(p).value <= run[n].at;
    AccessToken.IssuedTokenVerifies(mac, GrantedClaims(lifetimes, p).value, now);
  }

  // ----- When the stored time bounds it too ---------------------------------------------------------

  /** The access token of this request is refused from `t` on. */
  ghost predicate RefusedFrom(lifetimes: Lifetimes, p: Phase, mac: AccessToken.Mac, t: int)
    requires GrantedClaims(lifetimes, p).Some?
  {
    var token := AccessToken.Issue(mac, GrantedClaims(lifetimes, p).value);
    forall now :: t <= now ==> AccessToken.Verify(mac, token, now) == Err(AccessToken.InvalidAccessToken)
  }

  /** Every access token granted for the session is refused one access lifetime after the stored `revokedAt`. */
  ghost predicate StoredTimeBounds(lifetimes: Lifetimes, s: System, sid: Id, mac: AccessToken.Mac)
    requires IsRevoked(s.db, sid)
  {
    forall r :: r in s.requests && Grants(s.requests[r], sid) ==>
      RefusedFrom(lifetimes, s.requests[r], mac, s.db.sessions[sid].revokedAt.value + lifetimes.accessTokenMs)
  }

  /** The last whole second of a token granted on this reading is over one access lifetime after `revokedAt`. */
  predicate ReadInTime(lifetimes: Lifetimes, reading: int, revokedAt: int) {
    1000 * ((reading + lifetimes.accessTokenMs) / 1000) <= revokedAt + lifetimes.accessTokenMs
  }

  /** Every grant for the session read the clock early enough for the stored time. */
  ghost predicate GrantsReadInTime(lifetimes: Lifetimes, s: System, sid: Id)
    requires IsRevoked(s.db, sid)
  {
    forall r :: r in s.requests && Grants(s.requests[r], sid) ==>
      ReadInTime(lifetimes, GrantReading(s.requests[r]).value, s.db.sessions[sid].revokedAt.value)
  }

  lemma RefusedFromExactlyWhen(lifetimes: Lifetimes, p: Phase, mac: AccessToken.Mac, t: int)
    requires GrantedClaims(lifetimes, p).Some?
    ensures RefusedFrom(lifetimes, p, mac, t) == (AccessToken.LiveUntil(GrantedClaims(lifetimes, p).value) <= t)
  {
    var claims := GrantedClaims(lifetimes, p).value;
    forall now
      ensures AccessToken.Verify(mac, AccessToken.Issue(mac, claims), now) == AccessToken.Expected(claims, now)
    {
      AccessToken.IssuedTokenVerifies(mac, claims, now);
    }
    if RefusedFrom(lifetimes, p, mac, t) {
      assert AccessToken.Verify(mac, AccessToken.Issue(mac, claims), t) == Err(AccessToken.InvalidAccessToken);
    }
  }

  lemma LiveUntilReading(lifetimes: Lifetimes, p: Phase, sid: Id, revokedAt: int)
    requires Grants(p, sid)
    ensures GrantedClaims(lifetimes, p).Some? && GrantReading(p).Some?
    ensures (AccessToken.LiveUntil(GrantedClaims(lifetimes, p).value) <= revokedAt + lifetimes.accessTokenMs)
         == ReadInTime(lifetimes, GrantReading(p).value, revokedAt)
  {
  }

  lemma GrantIsRefusedExactlyWhen(lifetimes: Lifetimes, p: Phase, sid: Id, mac: AccessToken.Mac, revokedAt: int)
    requires Grants(p, sid)
    ensures RefusedFrom(lifetimes, p, mac, revokedAt + lifetimes.accessTokenMs)
         == ReadInTime(lifetimes, GrantReading(p).value, revokedAt)
  {
    LiveUntilReading(lifetimes, p, sid, revokedAt);
    RefusedFromExactlyWhen(lifetimes, p, mac, revokedAt + lifetimes.accessTokenMs);
  }

  lemma BoundsExactlyWhen(lifetimes: Lifetimes, s: System, sid: Id, mac: AccessToken.Mac)
    requires IsRevoked(s.db, sid)
    ensures StoredTimeBounds(lifetimes, s, sid, mac) == GrantsReadInTime(lifetimes, s, sid)
  {
    forall r | r in s.requests && Grants(s.requests[r], sid)
      ensures RefusedFrom(lifetimes, s.requests[r], mac, s.db.sessions[sid].revokedAt.value + lifetimes.accessTokenMs)
           == ReadInTime(lifetimes, GrantReading(s.requests[r]).value, s.db.sessions[sid].revokedAt.value)
    {
      GrantIsRefusedExactlyWhen(lifetimes, s.requests[r], sid, mac, s.db.sessions[sid].revokedAt.value);
    }
  }

  /**
    The stored time bounds the life of every token of the session, in every
    continuation of a run, if and only if every grant there was when the
    revocation committed read the clock in time.
   */
  lemma StoredTimeBoundsExactlyWhen(lifetimes: Lifetimes, run: seq<Event>, n: nat, sid: Id, mac: AccessToken.Mac)
    requires Run(lifetimes, run) && n <= |run|
    requires Run(lifetimes, run[..n]) && IsRevoked(After(lifetimes, run[..n]).db, sid)
    ensures IsRevoked(After(lifetimes, run).db, sid)
    ensures StoredTimeBounds(lifetimes, After(lifetimes, run), sid, mac)
         == GrantsReadInTime(lifetimes, After(lifetimes, run[..n]), sid)
  {
    RevocationIsAbsorbing(lifetimes, run, n, sid);
    GrantsStay(lifetimes, run, n, sid);
    SameGrants(lifetimes, After(lifetimes, run[..n]), After(lifetimes, run), sid);
    BoundsExactlyWhen(lifetimes, After(lifetimes, run), sid, mac);
  }

  ghost predicate KeepsGrants(s: System, s': System, sid: Id) {
    forall r :: r in s.requests && Grants(s.requests[r], sid) ==> r in s'.requests && s'.requests[r] == s.requests[r]
  }

  lemma SameGrants(lifetimes: Lifetimes, s: System, s': System, sid: Id)
    requires IsRevoked(s.db, sid) && RowsOf(s'.db, sid) == RowsOf(s.db, sid)
    requires NoNewGrant(s, s', sid) && KeepsGrants(s, s', sid)
    ensures IsRevoked(s'.db, sid)
    ensures GrantsReadInTime(lifetimes, s', sid) <==> GrantsReadInTime(lifetimes, s, sid)
  {
    assert s'.db.sessions[sid] == s.db.sessions[sid];
  }

  lemma {:induction false} GrantsStay(lifetimes: Lifetimes, run: seq<Event>, n: nat, sid: Id)
    requires Run(lifetimes, run) && n <= |run| && Run(lifetimes, run[..n])
    ensures KeepsGrants(After(lifetimes, run[..n]), After(lifetimes, run), sid)
  {
    if n == |run| {
      assert run[..n] == run;
    } else {
      var run0 := run[..|run| - 1];
      assert run0[..n] == run[..n];
      GrantsStay(lifetimes, run0, n, sid);
      StepMovesOne(lifetimes, After(lifetimes, run0), run[|run| - 1]);
    }
  }

  /** No token was granted on a later clock reading than the stored time. */
  ghost predicate GrantsReadBefore(s: System, sid: Id)
    requires IsRevoked(s.db, sid)
  {
    forall r :: r in s.requests && Grants(s.requests[r], sid) ==>
      GrantReading(s.requests[r]).value <= s.db.sessions[sid].revokedAt.value
  }

  /** Then the stored time is a bound. */
  lemma StoredTimeBoundsEarlierGrants(lifetimes: Lifetimes, run: seq<Event>, sid: Id, mac: AccessToken.Mac)
    requires Run(lifetimes, run) && IsRevoked(After(lifetimes, run).db, sid) && GrantsReadBefore(After(lifetimes, run), sid)
    ensures StoredTimeBounds(lifetimes, After(lifetimes, run), sid, mac)
  {
    EarlierGrantsReadInTime(lifetimes, After(lifetimes, run), sid);
    BoundsExactlyWhen(lifetimes, After(lifetimes, run), sid, mac);
  }

  lemma EarlierGrantsReadInTime(lifetimes: Lifetimes, s: System, sid: Id)
    requires IsRevoked(s.db, sid) && GrantsReadBefore(s, sid)
    ensures GrantsReadInTime(lifetimes, s, sid)
  {
  }

  // ----- A run in which it does not -----------------------------------------------------------------

  /** A live, unspent token that is found by its digest. */
  ghost predicate Spendable(db: Tables, tokenId: Id, digest: Digest, now: int) {
    && tokenId in db.tokens && db.tokens[tokenId].tokenHash == digest && db.tokens[tokenId].spentAt.None?
    && SessionLive(db, db.tokens[tokenId].sessionId) && now < db.sessions[db.tokens[tokenId].sessionId].expiresAt
  }

  /** Presented alone, such a token is refreshed; its successor is spendable in turn. */
  lemma RefreshSucceeds(lifetimes: Lifetimes, run: seq<Event>, who: nat, tokenId: Id, digest: Digest, at: int)
    returns (run': seq<Event>, next: TokenRow)
    requires Run(lifetimes, run) && who !in After(lifetimes, run).requests && OthersHoldNothing(After(lifetimes, run), who)
    requires Spendable(After(lifetimes, run).db, tokenId, digest, at)
    ensures Run(lifetimes, run') && OnlyBy(run, run', who, at)
    ensures var db, db' := After(lifetimes, run).db, After(lifetimes, run').db;
            && PhaseOf(After(lifetimes, run'), who)
            == Done(Refreshed(Job(db.sessions[db.tokens[tokenId].sessionId], tokenId, next, at)))
            && db'.sessions == db.sessions && next.sessionId == db.tokens[tokenId].sessionId && next.spentAt.None?
            && tokenId in db'.tokens && db'.tokens[tokenId] == db.tokens[tokenId].(spentAt := Some(at))
            && next.id in db'.tokens && db'.tokens[next.id] == next
  {
    var s := After(lifetimes, run);
    RunKeepsInvariant(lifetimes, run);
    var id := SomethingFresh(s.minted);
    var newDigest := SomethingFresh(s.digests);
    assert id !in s.db.tokens;
    assert Stored(s.db, digest);
    next := TokenRow(id, s.db.tokens[tokenId].sessionId, newDigest, None, at);
    run' := RefreshWithoutRivals(lifetimes, run, who, digest, at, id, newDigest);
  }

  function FirstLogin(lifetimes: Lifetimes): Session {
    Session(0, 9, lifetimes.refreshTokenMs, None, None, 0)
  }

  lemma LoginBegins(lifetimes: Lifetimes) returns (run: seq<Event>)
    ensures run == [Event(0, 1, LogIn(9, None, 0, 1, 0))] && Run(lifetimes, run)
    ensures After(lifetimes, run).db == NO_ROWS && After(lifetimes, run).requests.Keys == {1}
    ensures PhaseOf(After(lifetimes, run), 1) == Creating(FirstLogin(lifetimes), TokenRow(1, 0, 0, None, 0))
  {
    var e := Event(0, 1, LogIn(9, None, 0, 1, 0));
    ExtendRun(lifetimes, [], e);
    run := [] + [e];
  }

  lemma LoginAlone(lifetimes: Lifetimes) returns (run: seq<Event>)
    ensures Run(lifetimes, run) && OnlyBy([], run, 1, 0)
    ensures var s := After(lifetimes, run);
            && s.db == Tables(map[0 := FirstLogin(lifetimes)], map[1 := TokenRow(1, 0, 0, None, 0)])
            && PhaseOf(s, 1).Done?
  {
    run := LoginBegins(lifetimes);
    run := StepAlone(lifetimes, run, Event(0, 1, CommitCreation));
  }

  /** Between solo stretches: nobody holds a lock, the clock has kept order up to `at`, and later callers are new. */
  ghost predicate Calm(lifetimes: Lifetimes, run: seq<Event>, at: int, callers: nat) {
    && Run(lifetimes, run)
    && ClockNeverGoesBack(run) && (forall i :: 0 <= i < |run| ==> run[i].at <= at)
    && (forall u :: u in After(lifetimes, run).requests ==> u <= callers && HoldsNoLock(After(lifetimes, run).requests[u]))
  }

  lemma StaysCalm(lifetimes: Lifetimes, run: seq<Event>, run': seq<Event>, before: int, callers: nat, who: nat, at: int)
    requires Calm(lifetimes, run, before, callers) && before <= at && who <= callers + 1
    requires Run(lifetimes, run') && OnlyBy(run, run', who, at) && HoldsNoLock(PhaseOf(After(lifetimes, run'), who))
    ensures Calm(lifetimes, run', at, callers + 1)
  {
    forall u | u in After(lifetimes, run').requests
      ensures u <= callers + 1 && HoldsNoLock(After(lifetimes, run').requests[u])
    {
      if u != who {
        OthersUntouched(lifetimes, run, run', who, at, u);
        StartedRequestsAreNotIdle(lifetimes, run');
      }
    }
    forall i, j | 0 <= i < j < |run'|
      ensures run'[i].at <= run'[j].at
    {
      assert i < |run| ==> run'[i] == run[i];
      assert j < |run| ==> run'[j] == run[j];
    }
  }

  /** A login, its token refreshed, and the spent token presented again: a revocation is decided at 1, not written. */
  lemma SlowRevocation(lifetimes: Lifetimes) returns (run: seq<Event>, second: TokenRow)
    requires lifetimes.refreshTokenMs > 2000
    ensures Calm(lifetimes, run, 1, 3)
    ensures var s := After(lifetimes, run);
            && Spendable(s.db, second.id, second.tokenHash, 2000) && s.db.tokens[second.id].sessionId == 0
            && PhaseOf(s, 3) == Revoking(s.db.sessions[0], 1, 1, None) && s.db.sessions[0].id == 0
  {
    run := LoginAlone(lifetimes);
    StaysCalm(lifetimes, [], run, 0, 0, 1, 0);
    var run2, next := RefreshSucceeds(lifetimes, run, 2, 1, 0, 0);
    StaysCalm(lifetimes, run, run2, 0, 1, 2, 0);
    run := ReplayDecides(lifetimes, run2, 3, 1, 1);
    StaysCalm(lifetimes, run2, run, 0, 2, 3, 1);
    second := next;
  }

  /**
    The stored `revokedAt` does not bound the damage: a revocation decided at 1
    commits at 2000, after a refresh at 2000 was granted, and that grant is
    still accepted one access-token lifetime after 1.
   */
  lemma StoredTimeIsTooEarly(lifetimes: Lifetimes, mac: AccessToken.Mac) returns (run: seq<Event>, now: int)
    requires lifetimes.refreshTokenMs > 2000
    ensures Run(lifetimes, run) && ClockNeverGoesBack(run)
    ensures var s := After(lifetimes, run);
            && IsRevoked(s.db, 0) && s.db.sessions[0].revokedAt.value + lifetimes.accessTokenMs <= now
            && 4 in s.requests && Grants(s.requests[4], 0)
            && AccessToken.Verify(mac, AccessToken.Issue(mac, GrantedClaims(lifetimes, s.requests[4]).value), now).Ok?
  {
    var run3, second := SlowRevocation(lifetimes);
    var run4, next := RefreshSucceeds(lifetimes, run3, 4, second.id, second.tokenHash, 2000);
    StaysCalm(lifetimes, run3, run4, 1, 3, 4, 2000);
    OthersUntouched(lifetimes, run3, run4, 4, 2000, 3);
    run := RevokeAlone(lifetimes, run4, 3, 2000);
    StaysCalm(lifetimes, run4, run, 2000, 4, 3, 2000);
    OthersUntouched(lifetimes, run4, run, 3, 2000, 4);
    now := 1 + lifetimes.accessTokenMs;
    AccessToken.IssuedTokenVerifies(mac, GrantedClaims(lifetimes, PhaseOf(After(lifetimes, run), 4)).value, now);
  }
}
