/** What holds in every run of the locking protocol, whatever the interleaving and whatever the clocks read. */
module RotationSafety {
  import opened Prelude
  import opened SessionStore
  import opened SessionHistory
  import opened RotationProtocol
  import opened RotationRefinement

  // ----- Refinement -------------------------------------------------------------------------------

  /**
    The committed tables after any run are those of a serial history of the
    atomic repository, and the calls every request has completed, with their
    results, are its calls in that history, heard or not.
   */
  lemma LockingRefinesAtomic(lifetimes: Lifetimes, run: seq<Event>)
    requires Run(lifetimes, run)
    ensures var s := After(lifetimes, run);
            && Serial(s.log)
            && s.db == Replay(s.log)
            && (forall who :: CallsOf(s.log, who) == AnsweredCalls(PhaseOf(s, who)))
  {
    RunKeepsInvariant(lifetimes, run);
  }

  lemma {:induction false} PrefixRuns(lifetimes: Lifetimes, run: seq<Event>, n: nat)
    requires Run(lifetimes, run) && n <= |run|
    ensures Run(lifetimes, run[..n])
  {
    if n < |run| {
      PrefixRuns(lifetimes, run[..|run| - 1], n);
      assert run[..|run| - 1][..n] == run[..n];
    } else {
      assert run[..n] == run;
    }
  }

  /**
    The serial order respects real time: the history of a run extends that of
    each of its prefixes, so a call answered before another began comes first.
   */
  lemma {:induction false} HistoryRespectsRealTime(lifetimes: Lifetimes, run: seq<Event>, n: nat)
    requires Run(lifetimes, run) && n <= |run|
    ensures Run(lifetimes, run[..n])
    ensures After(lifetimes, run[..n]).log <= After(lifetimes, run).log
  {
    PrefixRuns(lifetimes, run, n);
    if n < |run| {
      HistoryRespectsRealTime(lifetimes, run[..|run| - 1], n);
      assert run[..|run| - 1][..n] == run[..n];
    } else {
      assert run[..n] == run;
    }
  }

  /** A step moves one unfinished request and no other. */
  ghost predicate OthersStay(s: System, who: nat, s': System) {
    && s'.requests.Keys == s.requests.Keys + {who}
    && (forall u :: u in s.requests && u != who ==> s'.requests[u] == s.requests[u])
    && !PhaseOf(s, who).Done?
  }

  lemma StepEvolves(lifetimes: Lifetimes, s: System, e: Event, p: Phase)
    requires TablesOk(lifetimes, s) && Enabled(s, e) && p == PhaseOf(s, e.who) && PhaseOk(lifetimes, s, p)
    ensures Evolves(s.db, Step(lifetimes, s.db, e.at, p, e.action).db)
  {
    var fx := Step(lifetimes, s.db, e.at, p, e.action);
    StepIsSound(lifetimes, s, e, p, fx);
    if fx.call.Some? {
      CallEvolves(s.db, fx.call.value);
    }
  }

  lemma StepMovesOne(lifetimes: Lifetimes, s: System, e: Event)
    requires Enabled(s, e)
    ensures OthersStay(s, e.who, Apply(lifetimes, s, e))
  {
  }

  // ----- History of the rows ------------------------------------------------------------------------

  /** Between any two moments of a run no row is lost and only NULL timestamps are filled in. */
  lemma RowsAreWriteOnce(lifetimes: Lifetimes, run: seq<Event>, n: nat)
    requires Run(lifetimes, run) && n <= |run|
    ensures Run(lifetimes, run[..n])
    ensures Evolves(After(lifetimes, run[..n]).db, After(lifetimes, run).db)
  {
    HistoryRespectsRealTime(lifetimes, run, n);
    RunKeepsInvariant(lifetimes, run);
    RunKeepsInvariant(lifetimes, run[..n]);
    var early, late := After(lifetimes, run[..n]).log, After(lifetimes, run).log;
    assert late[..|early|] == early;
    HistoryIsWriteOnce(late, |early|);
  }

  predicate Refreshes(p: Phase, sid: Id) {
    p.Done? && p.outcome.Refreshed? && p.outcome.job.session.id == sid
  }

  /** The request was granted a token pair for this session; its caller receives it if the reply is heard. */
  predicate Grants(p: Phase, sid: Id) {
    Refreshes(p, sid) || (p.Done? && p.outcome.LoggedIn? && p.outcome.account.id == sid)
  }

  lemma NoGrantAfterRevocation(lifetimes: Lifetimes, s: System, e: Event, p: Phase, sid: Id)
    requires Enabled(s, e) && p == PhaseOf(s, e.who) && PhaseOk(lifetimes, s, p) && IsRevoked(s.db, sid)
    ensures !Grants(Step(lifetimes, s.db, e.at, p, e.action).phase, sid)
  {
  }

  lemma RevokedRowsAreFrozen(lifetimes: Lifetimes, run: seq<Event>, n: nat, sid: Id)
    requires Run(lifetimes, run) && n <= |run|
    requires Run(lifetimes, run[..n]) && IsRevoked(After(lifetimes, run[..n]).db, sid)
    ensures RowsOf(After(lifetimes, run).db, sid) == RowsOf(After(lifetimes, run[..n]).db, sid)
  {
    HistoryRespectsRealTime(lifetimes, run, n);
    LockingRefinesAtomic(lifetimes, run);
    LockingRefinesAtomic(lifetimes, run[..n]);
    var early, late := After(lifetimes, run[..n]).log, After(lifetimes, run).log;
    assert late[..|early|] == early;
    RevocationAbsorbs(late, |early|, sid);
  }

  /** The token pairs of `sid` granted in `s'` had all been granted in `s`. */
  ghost predicate NoNewGrant(s: System, s': System, sid: Id) {
    forall r :: r in s'.requests && Grants(s'.requests[r], sid) ==> r in s.requests && s.requests[r] == s'.requests[r]
  }

  lemma NoNewGrantInStep(s0: System, s: System, who: nat, s': System, sid: Id)
    requires NoNewGrant(s0, s, sid) && OthersStay(s, who, s') && !Grants(PhaseOf(s', who), sid)
    ensures NoNewGrant(s0, s', sid)
  {
  }

  lemma {:induction false} RevokedSessionGrantsNothing(lifetimes: Lifetimes, run: seq<Event>, n: nat, sid: Id)
    requires Run(lifetimes, run) && n <= |run|
    requires Run(lifetimes, run[..n]) && IsRevoked(After(lifetimes, run[..n]).db, sid)
    ensures NoNewGrant(After(lifetimes, run[..n]), After(lifetimes, run), sid)
  {
    if n == |run| {
      assert run[..n] == run;
    } else {
      var run0, e := run[..|run| - 1], run[|run| - 1];
      assert run0[..n] == run[..n];
      RevokedSessionGrantsNothing(lifetimes, run0, n, sid);
      RunKeepsInvariant(lifetimes, run0);
      RowsAreWriteOnce(lifetimes, run0, n);
      var s0 := After(lifetimes, run0);
      assert IsRevoked(s0.db, sid) && PhaseOk(lifetimes, s0, PhaseOf(s0, e.who));
      StepMovesOne(lifetimes, s0, e);
      NoGrantAfterRevocation(lifetimes, s0, e, PhaseOf(s0, e.who), sid);
      NoNewGrantInStep(After(lifetimes, run[..n]), s0, e.who, After(lifetimes, run), sid);
    }
  }

  /**
    Revocation is absorbing: from the moment it commits, the session's rows
    are frozen, even to a rotation that began earlier, and the only requests
    ever granted tokens of it are those that already had been.
   */
  lemma RevocationIsAbsorbing(lifetimes: Lifetimes, run: seq<Event>, n: nat, sid: Id)
    requires Run(lifetimes, run) && n <= |run|
    requires Run(lifetimes, run[..n]) && IsRevoked(After(lifetimes, run[..n]).db, sid)
    ensures RowsOf(After(lifetimes, run).db, sid) == RowsOf(After(lifetimes, run[..n]).db, sid)
    ensures NoNewGrant(After(lifetimes, run[..n]), After(lifetimes, run), sid)
  {
    RevokedRowsAreFrozen(lifetimes, run, n, sid);
    RevokedSessionGrantsNothing(lifetimes, run, n, sid);
  }

  // ----- The chain ----------------------------------------------------------------------------------

  ghost function TokensOf(db: Tables, sid: Id): set<Id> {
    set t | t in db.tokens && db.tokens[t].sessionId == sid
  }

  ghost function UnspentOf(db: Tables, sid: Id): set<Id> {
    set t | t in db.tokens && db.tokens[t].sessionId == sid && db.tokens[t].spentAt.None?
  }

  /** The requests that exchanged a token of this session. */
  ghost function Winners(s: System, sid: Id): set<nat> {
    set r | r in s.requests && Refreshes(s.requests[r], sid)
  }

  lemma {:induction false} DistinctElements(c: seq<Id>, elements: set<Id>)
    requires forall i, j :: 0 <= i < j < |c| ==> c[i] != c[j]
    requires forall t :: t in elements <==> t in c
    ensures |elements| == |c|
  {
    if c == [] {
      assert elements == {};
    } else {
      var last := c[|c| - 1];
      assert c == c[..|c| - 1] + [last];
      DistinctElements(c[..|c| - 1], elements - {last});
    }
  }

  /** Exactly the step that grants a refresh logs a granted rotation. */
  lemma GrantIsLogged(lifetimes: Lifetimes, s: System, e: Event, p: Phase, sid: Id)
    requires Enabled(s, e) && p == PhaseOf(s, e.who) && PhaseOk(lifetimes, s, p)
    ensures var fx := Step(lifetimes, s.db, e.at, p, e.action);
            Refreshes(fx.phase, sid) <==> fx.call.Some? && Spends(fx.call.value, sid)
  {
  }

  lemma RotationsExtend(log: seq<Entry>, who: nat, call: Option<Call>, sid: Id)
    ensures Rotations(log + Logged(who, call), sid) ==
            Rotations(log, sid) + if call.Some? && Spends(call.value, sid) then 1 else 0
  {
    if call.Some? {
      assert (log + [Entry(who, call.value)])[..|log|] == log;
    } else {
      assert log + [] == log;
    }
  }

  lemma WinnersStep(s: System, who: nat, s': System, sid: Id)
    requires OthersStay(s, who, s')
    ensures |Winners(s', sid)| == |Winners(s, sid)| + if Refreshes(s'.requests[who], sid) then 1 else 0
  {
    var more := if Refreshes(s'.requests[who], sid) then {who} else {};
    assert who !in Winners(s, sid);
    forall r
      ensures r in Winners(s', sid) <==> r in Winners(s, sid) + more
    {
      if r != who {
        assert r in s'.requests.Keys <==> r in s.requests.Keys;
      }
    }
    assert Winners(s', sid) == Winners(s, sid) + more;
  }

  lemma {:induction false} WinnersAreRotations(lifetimes: Lifetimes, run: seq<Event>, sid: Id)
    requires Run(lifetimes, run)
    ensures Rotations(After(lifetimes, run).log, sid) == |Winners(After(lifetimes, run), sid)|
  {
    if run == [] {
      assert Winners(START, sid) == {};
    } else {
      WinnersAreRotations(lifetimes, run[..|run| - 1], sid);
      RunKeepsInvariant(lifetimes, run[..|run| - 1]);
      var s, e := After(lifetimes, run[..|run| - 1]), run[|run| - 1];
      var p := PhaseOf(s, e.who);
      GrantIsLogged(lifetimes, s, e, p, sid);
      RotationsExtend(s.log, e.who, Step(lifetimes, s.db, e.at, p, e.action).call, sid);
      StepMovesOne(lifetimes, s, e);
      WinnersStep(s, e.who, After(lifetimes, run), sid);
    }
  }

  lemma ChainCounts(db: Tables, sid: Id, chain: seq<Id>)
    requires IsChain(db, sid, chain)
    ensures UnspentOf(db, sid) == {chain[|chain| - 1]}
    ensures |TokensOf(db, sid)| == |chain|
  {
    DistinctElements(chain, TokensOf(db, sid));
    forall t
      ensures t in UnspentOf(db, sid) <==> t == chain[|chain| - 1]
    {
      if t in UnspentOf(db, sid) {
        assert t in chain;
        var i :| 0 <= i < |chain| && chain[i] == t;
      }
      assert chain[|chain| - 1] in chain;
    }
  }

  /**
    In every committed state each session's rows form one succession, exactly
    its newest token is unspent, and there is one row more than there are
    requests that committed a refresh, whether or not they were heard.
   */
  lemma SessionHasOneLiveToken(lifetimes: Lifetimes, run: seq<Event>, sid: Id)
    requires Run(lifetimes, run) && sid in After(lifetimes, run).db.sessions
    ensures var s := After(lifetimes, run);
            var chain := Chain(s.log, sid);
            && IsChain(s.db, sid, chain)
            && UnspentOf(s.db, sid) == {chain[|chain| - 1]}
            && |TokensOf(s.db, sid)| == 1 + |Winners(s, sid)|
  {
    var s := After(lifetimes, run);
    LockingRefinesAtomic(lifetimes, run);
    ChainNeverForks(s.log, sid);
    WinnersAreRotations(lifetimes, run, sid);
    ChainCounts(s.db, sid, Chain(s.log, sid));
  }

  // ----- Reuse --------------------------------------------------------------------------------------

  /** The digest a request came in with. */
  ghost function Presented(run: seq<Event>, who: nat): Option<Digest> {
    if run == [] then None
    else if run[|run| - 1].who == who && run[|run| - 1].action.Present? then Some(run[|run| - 1].action.digest)
    else Presented(run[..|run| - 1], who)
  }

  /** The stored token a refresh request was found to hold. */
  function TokenOf(p: Phase): Option<Id> {
    match p
    case Deciding(_, token) => Some(token.id)
    case Locking(job) => Some(job.tokenId)
    case Spending(job) => Some(job.tokenId)
    case Inserting(job, _) => Some(job.tokenId)
    case Committing(job, _) => Some(job.tokenId)
    case Revoking(_, tokenId, _, _) => Some(tokenId)
    case RevokeWritten(_, tokenId, _, _, _) => Some(tokenId)
    case Done(Expired(_, tokenId, _)) => Some(tokenId)
    case Done(Replayed(_, tokenId, _, _)) => Some(tokenId)
    case Done(Refreshed(job)) => Some(job.tokenId)
    case _ => None
  }

  ghost predicate HoldsPresented(db: Tables, p: Phase, digest: Option<Digest>) {
    && (p.Looking? ==> digest == Some(p.presented))
    && (TokenOf(p).Some? ==> TokenOf(p).value in db.tokens && digest == Some(db.tokens[TokenOf(p).value].tokenHash))
  }

  ghost predicate AllHoldPresented(s: System, run: seq<Event>) {
    forall r :: r in s.requests ==> HoldsPresented(s.db, s.requests[r], Presented(run, r))
  }

  /** A step does not change which token its request holds, except that the lookup finds it by its digest. */
  lemma StepHoldsPresented(lifetimes: Lifetimes, s: System, e: Event, p: Phase, digest: Option<Digest>)
    requires WellFormed(s.db) && Enabled(s, e) && p == PhaseOf(s, e.who) && HoldsPresented(s.db, p, digest)
    requires e.action.Present? ==> digest == Some(e.action.digest)
    ensures HoldsPresented(s.db, Step(lifetimes, s.db, e.at, p, e.action).phase, digest)
  {
  }

  lemma HoldsPresentedStays(db: Tables, db': Tables, p: Phase, digest: Option<Digest>)
    requires Evolves(db, db') && HoldsPresented(db, p, digest)
    ensures HoldsPresented(db', p, digest)
  {
    if TokenOf(p).Some? {
      assert TokenEvolves(db.tokens[TokenOf(p).value], db'.tokens[TokenOf(p).value]);
    }
  }

  lemma {:induction false} RequestsHoldWhatTheyPresented(lifetimes: Lifetimes, run: seq<Event>)
    requires Run(lifetimes, run)
    ensures AllHoldPresented(After(lifetimes, run), run)
  {
    if run != [] {
      var run0 := run[..|run| - 1];
      RequestsHoldWhatTheyPresented(lifetimes, run0);
      RunKeepsInvariant(lifetimes, run0);
      var s, s', e := After(lifetimes, run0), After(lifetimes, run), run[|run| - 1];
      StepMovesOne(lifetimes, s, e);
      assert PhaseOk(lifetimes, s, PhaseOf(s, e.who));
      StepEvolves(lifetimes, s, e, PhaseOf(s, e.who));
      assert HoldsPresented(s.db, PhaseOf(s, e.who), Presented(run0, e.who));
      StepHoldsPresented(lifetimes, s, e, PhaseOf(s, e.who), Presented(run, e.who));
      forall r | r in s'.requests
        ensures HoldsPresented(s'.db, s'.requests[r], Presented(run, r))
      {
        assert r != e.who ==> Presented(run, r) == Presented(run0, r) && s'.requests[r] == s.requests[r];
        HoldsPresentedStays(s.db, s'.db, s'.requests[r], Presented(run, r));
      }
    }
  }

  lemma {:induction false} FindCall(log: seq<Entry>, who: nat, call: Call) returns (i: nat)
    requires call in CallsOf(log, who)
    ensures i < |log| && log[i] == Entry(who, call)
  {
    var last := log[|log| - 1];
    if last == Entry(who, call) {
      i := |log| - 1;
    } else {
      i := FindCall(log[..|log| - 1], who, call);
    }
  }

  /** A refreshed request stands in the log with the spend of the token it presented. */
  lemma RefreshIsLogged(lifetimes: Lifetimes, run: seq<Event>, r: nat) returns (i: nat)
    requires Run(lifetimes, run) && r in After(lifetimes, run).requests
    requires After(lifetimes, run).requests[r].Done? && After(lifetimes, run).requests[r].outcome.Refreshed?
    ensures var s := After(lifetimes, run);
            && i < |s.log| && s.log[i].caller == r && s.log[i].call.Rotated? && s.log[i].call.ok
            && s.log[i].call.spentId in s.db.tokens
            && Presented(run, r) == Some(s.db.tokens[s.log[i].call.spentId].tokenHash)
  {
    var s := After(lifetimes, run);
    var job := s.requests[r].outcome.job;
    LockingRefinesAtomic(lifetimes, run);
    assert AnsweredCalls(PhaseOf(s, r)) == [Rotated(job.tokenId, job.next, job.now, true)];
    i := FindCall(s.log, r, Rotated(job.tokenId, job.next, job.now, true));
    RequestsHoldWhatTheyPresented(lifetimes, run);
    assert HoldsPresented(s.db, s.requests[r], Presented(run, r));
  }

  lemma OneSpendPerDigest(db: Tables, h: seq<Entry>, i: nat, j: nat)
    requires WellFormed(db) && Serial(h) && i < |h| && j < |h|
    requires h[i].call.Rotated? && h[i].call.ok && h[j].call.Rotated? && h[j].call.ok
    requires h[i].call.spentId in db.tokens && h[j].call.spentId in db.tokens
    requires db.tokens[h[i].call.spentId].tokenHash == db.tokens[h[j].call.spentId].tokenHash
    ensures i == j
  {
    assert h[i].call.spentId == h[j].call.spentId;
    if i < j {
      TokenSpendsOnce(h, i, j);
    } else if j < i {
      TokenSpendsOnce(h, j, i);
    }
  }

  /** Each presented token backs at most one granted refresh. */
  lemma TokenRefreshesOnce(lifetimes: Lifetimes, run: seq<Event>, r: nat, u: nat)
    requires Run(lifetimes, run) && Presented(run, r) == Presented(run, u)
    requires r in After(lifetimes, run).requests && u in After(lifetimes, run).requests
    requires var s := After(lifetimes, run);
             && s.requests[r].Done? && s.requests[r].outcome.Refreshed?
             && s.requests[u].Done? && s.requests[u].outcome.Refreshed?
    ensures r == u
  {
    var i := RefreshIsLogged(lifetimes, run, r);
    var j := RefreshIsLogged(lifetimes, run, u);
    RunKeepsInvariant(lifetimes, run);
    OneSpendPerDigest(After(lifetimes, run).db, After(lifetimes, run).log, i, j);
  }

  /** A use of a stored token that ran to its end and was heard: a replay, whenever it came, or a refresh. */
  predicate FinishedUse(p: Phase) {
    p.Done? && (p.outcome.Replayed? || p.outcome.Refreshed?)
  }

  /** Two finished uses of one token leave its session revoked. */
  lemma ReuseIsDetected(lifetimes: Lifetimes, run: seq<Event>, r: nat, u: nat)
    requires Run(lifetimes, run) && r != u && Presented(run, r) == Presented(run, u)
    requires r in After(lifetimes, run).requests && u in After(lifetimes, run).requests
    requires FinishedUse(After(lifetimes, run).requests[r]) && FinishedUse(After(lifetimes, run).requests[u])
    ensures var s := After(lifetimes, run);
            && TokenOf(s.requests[r]).value in s.db.tokens
            && IsRevoked(s.db, s.db.tokens[TokenOf(s.requests[r]).value].sessionId)
  {
    var s := After(lifetimes, run);
    RunKeepsInvariant(lifetimes, run);
    RequestsHoldWhatTheyPresented(lifetimes, run);
    assert PhaseOk(lifetimes, s, s.requests[r]) && PhaseOk(lifetimes, s, s.requests[u]);
    assert HoldsPresented(s.db, s.requests[r], Presented(run, r));
    assert HoldsPresented(s.db, s.requests[u], Presented(run, u));
    assert TokenOf(s.requests[r]) == TokenOf(s.requests[u]);
    if s.requests[r].outcome.Refreshed? && s.requests[u].outcome.Refreshed? {
      TokenRefreshesOnce(lifetimes, run, r, u);
    }
  }

  // ----- No false alarm -----------------------------------------------------------------------------

  /** `r` was granted a refresh for token `t`. */
  predicate Exchanged(s: System, r: nat, t: Id) {
    r in s.requests && s.requests[r].Done? && s.requests[r].outcome.Refreshed? && s.requests[r].outcome.job.tokenId == t
  }

  /** `u` was refused for replaying token `t` of session `sid`. */
  predicate CaughtReplaying(s: System, u: nat, t: Id, sid: Id) {
    && u in s.requests && s.requests[u].Done? && s.requests[u].outcome.Replayed?
    && s.requests[u].outcome.tokenId == t && s.requests[u].outcome.session.id == sid
  }

  ghost predicate WasExchanged(s: System, t: Id) {
    exists r :: Exchanged(s, r, t)
  }

  ghost predicate WasReplayed(s: System, sid: Id) {
    exists u, t :: CaughtReplaying(s, u, t, sid) && WasExchanged(s, t)
  }

  predicate Accuses(p: Phase) {
    p.Revoking? || p.RevokeWritten?
  }

  ghost predicate HasCause(s: System, p: Phase)
    requires Accuses(p)
  {
    WasExchanged(s, p.tokenId) || IsRevoked(s.db, p.session.id)
  }

  ghost predicate SpendsAreExchanges(s: System) {
    forall t :: t in s.db.tokens && s.db.tokens[t].spentAt.Some? ==> WasExchanged(s, t)
  }

  ghost predicate AccusersHaveCause(s: System) {
    forall u :: u in s.requests && Accuses(s.requests[u]) ==> HasCause(s, s.requests[u])
  }

  /** Tokens are spent by granted refreshes only, and sessions are accused because of spent tokens only. */
  ghost predicate AlarmsAreJustified(s: System) {
    && SpendsAreExchanges(s) && AccusersHaveCause(s)
    && (forall sid :: IsRevoked(s.db, sid) ==> WasReplayed(s, sid))
  }

  lemma WitnessesStay(s: System, who: nat, s': System)
    requires OthersStay(s, who, s')
    ensures forall t :: WasExchanged(s, t) ==> WasExchanged(s', t)
    ensures forall sid :: WasReplayed(s, sid) ==> WasReplayed(s', sid)
  {
    forall t | WasExchanged(s, t)
      ensures WasExchanged(s', t)
    {
      var r :| Exchanged(s, r, t);
      assert Exchanged(s', r, t);
    }
    forall sid | WasReplayed(s, sid)
      ensures WasReplayed(s', sid)
    {
      var u, t :| CaughtReplaying(s, u, t, sid) && WasExchanged(s, t);
      assert CaughtReplaying(s', u, t, sid);
    }
  }

  /** Only the step that grants a refresh spends a token, and only its own. */
  lemma SpenderIsGranted(lifetimes: Lifetimes, s: System, e: Event, p: Phase, t: Id)
    requires Enabled(s, e) && p == PhaseOf(s, e.who) && PhaseOk(lifetimes, s, p)
    requires var db' := Step(lifetimes, s.db, e.at, p, e.action).db;
             t in db'.tokens && db'.tokens[t].spentAt.Some? && !(t in s.db.tokens && s.db.tokens[t].spentAt.Some?)
    ensures Step(lifetimes, s.db, e.at, p, e.action).phase == Done(Refreshed(p.job)) && p.job.tokenId == t
  {
  }

  lemma SpentTokensWereExchanged(lifetimes: Lifetimes, s: System, e: Event, p: Phase, s': System)
    requires Enabled(s, e) && p == PhaseOf(s, e.who) && PhaseOk(lifetimes, s, p) && OthersStay(s, e.who, s')
    requires s'.db == Step(lifetimes, s.db, e.at, p, e.action).db
    requires PhaseOf(s', e.who) == Step(lifetimes, s.db, e.at, p, e.action).phase
    requires SpendsAreExchanges(s)
    ensures SpendsAreExchanges(s')
  {
    WitnessesStay(s, e.who, s');
    forall t | t in s'.db.tokens && s'.db.tokens[t].spentAt.Some?
      ensures WasExchanged(s', t)
    {
      if !(t in s.db.tokens && s.db.tokens[t].spentAt.Some?) {
        SpenderIsGranted(lifetimes, s, e, p, t);
        assert Exchanged(s', e.who, t);
      }
    }
  }

  /** A request turns to revoking because its token was spent, or its session already revoked, when it looked. */
  lemma AccuserHasCause(lifetimes: Lifetimes, s: System, e: Event, p: Phase, p': Phase)
    requires Enabled(s, e) && p == PhaseOf(s, e.who) && PhaseOk(lifetimes, s, p)
    requires p' == Step(lifetimes, s.db, e.at, p, e.action).phase && Accuses(p') && !Accuses(p)
    ensures p'.tokenId in s.db.tokens && (s.db.tokens[p'.tokenId].spentAt.Some? || IsRevoked(s.db, p'.session.id))
  {
  }

  lemma AccuserIsSame(lifetimes: Lifetimes, s: System, e: Event, p: Phase, p': Phase)
    requires Enabled(s, e) && p == PhaseOf(s, e.who) && Accuses(p)
    requires p' == Step(lifetimes, s.db, e.at, p, e.action).phase && Accuses(p')
    ensures p'.tokenId == p.tokenId && p'.session == p.session
  {
  }

  lemma CauseStays(s: System, s': System, p: Phase)
    requires Accuses(p) && HasCause(s, p)
    requires forall t :: WasExchanged(s, t) ==> WasExchanged(s', t)
    requires Evolves(s.db, s'.db)
    ensures HasCause(s', p)
  {
  }

  lemma AccusationsAreJustified(lifetimes: Lifetimes, s: System, e: Event, p: Phase, s': System)
    requires Enabled(s, e) && p == PhaseOf(s, e.who) && PhaseOk(lifetimes, s, p) && OthersStay(s, e.who, s')
    requires Evolves(s.db, s'.db) && PhaseOf(s', e.who) == Step(lifetimes, s.db, e.at, p, e.action).phase
    requires SpendsAreExchanges(s) && AccusersHaveCause(s)
    ensures AccusersHaveCause(s')
  {
    WitnessesStay(s, e.who, s');
    forall u | u in s'.requests && Accuses(s'.requests[u])
      ensures HasCause(s', s'.requests[u])
    {
      var p' := s'.requests[u];
      if u == e.who {
        if Accuses(p) {
          AccuserIsSame(lifetimes, s, e, p, p');
        } else {
          AccuserHasCause(lifetimes, s, e, p, p');
        }
      }
      CauseStays(s, s', p');
    }
  }

  /** A session becomes revoked only by the step that catches a replay of a token of it. */
  lemma RevokerIsCaught(lifetimes: Lifetimes, s: System, e: Event, p: Phase, sid: Id)
    requires Enabled(s, e) && p == PhaseOf(s, e.who) && PhaseOk(lifetimes, s, p)
    requires IsRevoked(Step(lifetimes, s.db, e.at, p, e.action).db, sid) && !IsRevoked(s.db, sid)
    ensures p.RevokeWritten? && p.session.id == sid
    ensures Step(lifetimes, s.db, e.at, p, e.action).phase == Done(Replayed(p.session, p.tokenId, p.now, p.lost))
  {
  }

  lemma RevokedSessionsWereReplayed(lifetimes: Lifetimes, s: System, e: Event, p: Phase, s': System)
    requires Enabled(s, e) && p == PhaseOf(s, e.who) && PhaseOk(lifetimes, s, p) && OthersStay(s, e.who, s')
    requires s'.db == Step(lifetimes, s.db, e.at, p, e.action).db
    requires PhaseOf(s', e.who) == Step(lifetimes, s.db, e.at, p, e.action).phase
    requires AlarmsAreJustified(s)
    ensures forall sid :: IsRevoked(s'.db, sid) ==> WasReplayed(s', sid)
  {
    WitnessesStay(s, e.who, s');
    forall sid | IsRevoked(s'.db, sid)
      ensures WasReplayed(s', sid)
    {
      if !IsRevoked(s.db, sid) {
        RevokerIsCaught(lifetimes, s, e, p, sid);
        assert HasCause(s, p);
        assert CaughtReplaying(s', e.who, p.tokenId, sid) && WasExchanged(s', p.tokenId);
      }
    }
  }

  lemma {:induction false} AlarmsStayJustified(lifetimes: Lifetimes, run: seq<Event>)
    requires Run(lifetimes, run)
    ensures AlarmsAreJustified(After(lifetimes, run))
  {
    if run != [] {
      var run0, e := run[..|run| - 1], run[|run| - 1];
      AlarmsStayJustified(lifetimes, run0);
      RunKeepsInvariant(lifetimes, run0);
      var s, s' := After(lifetimes, run0), After(lifetimes, run);
      var p := PhaseOf(s, e.who);
      assert PhaseOk(lifetimes, s, p);
      StepMovesOne(lifetimes, s, e);
      StepEvolves(lifetimes, s, e, p);
      SpentTokensWereExchanged(lifetimes, s, e, p, s');
      AccusationsAreJustified(lifetimes, s, e, p, s');
      RevokedSessionsWereReplayed(lifetimes, s, e, p, s');
    }
  }

  /** A session is revoked exactly when one request exchanged one of its tokens and another was caught replaying it. */
  lemma RevokedIffReplayed(lifetimes: Lifetimes, run: seq<Event>, sid: Id)
    requires Run(lifetimes, run)
    ensures IsRevoked(After(lifetimes, run).db, sid) <==> WasReplayed(After(lifetimes, run), sid)
  {
    var s := After(lifetimes, run);
    AlarmsStayJustified(lifetimes, run);
    RunKeepsInvariant(lifetimes, run);
    if WasReplayed(s, sid) {
      var u, t :| CaughtReplaying(s, u, t, sid) && WasExchanged(s, t);
      assert PhaseOk(lifetimes, s, s.requests[u]);
    }
  }

  // ----- Lost replies -------------------------------------------------------------------------------

  ghost predicate UnheardHaveCommitted(s: System) {
    forall r :: r in s.unheard ==>
      r in s.requests && s.requests[r].Done?
      && (s.requests[r].outcome.Refreshed? || s.requests[r].outcome.Replayed? || s.requests[r].outcome.LoggedIn?)
  }

  lemma CommitEnds(lifetimes: Lifetimes, s: System, e: Event)
    requires Enabled(s, e) && Commits(e.action)
    ensures var p' := Step(lifetimes, s.db, e.at, PhaseOf(s, e.who), e.action).phase;
            p'.Done? && (p'.outcome.Refreshed? || p'.outcome.Replayed? || p'.outcome.LoggedIn?)
  {
  }

  /** A caller that got an error although its request has an outcome lost the reply to a commit that took effect. */
  lemma {:induction false} OnlyCommitsGoUnheard(lifetimes: Lifetimes, run: seq<Event>)
    requires Run(lifetimes, run)
    ensures UnheardHaveCommitted(After(lifetimes, run))
  {
    if run != [] {
      var s, e := After(lifetimes, run[..|run| - 1]), run[|run| - 1];
      OnlyCommitsGoUnheard(lifetimes, run[..|run| - 1]);
      StepMovesOne(lifetimes, s, e);
      if Commits(e.action) {
        CommitEnds(lifetimes, s, e);
      }
    }
  }

  // ----- Expiry -------------------------------------------------------------------------------------

  /** A granted refresh read the clock within the session's absolute lifetime and reports that lifetime's end. */
  lemma ExpiryIsAbsolute(lifetimes: Lifetimes, run: seq<Event>, r: nat)
    requires Run(lifetimes, run) && r in After(lifetimes, run).requests
    requires After(lifetimes, run).requests[r].Done? && After(lifetimes, run).requests[r].outcome.Refreshed?
    ensures var s := After(lifetimes, run);
            var job := s.requests[r].outcome.job;
            && job.session.id in s.db.sessions
            && var login := s.db.sessions[job.session.id];
               && job.now < login.createdAt + lifetimes.refreshTokenMs
               && job.session.expiresAt == login.expiresAt == login.createdAt + lifetimes.refreshTokenMs
  {
    RunKeepsInvariant(lifetimes, run);
    assert PhaseOk(lifetimes, After(lifetimes, run), After(lifetimes, run).requests[r]);
  }
}
