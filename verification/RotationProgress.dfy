/**
  No deadlock, and no endless schedule: locks are taken session first, then
  token, and never upgraded, so a chain of waiting requests always ends at one
  that can step.
 */
module RotationProgress {
  import opened SessionStore
  import opened RotationProtocol

  predicate Unfinished(s: System, r: nat) {
    r in s.requests && !s.requests[r].Done?
  }

  /** A step of a request already under way that is not a lost connection. */
  predicate Progresses(action: Action) {
    !action.Present? && !action.LogIn? && !action.Fail?
  }

  predicate Arrives(action: Action) {
    action.Present? || action.LogIn?
  }

  lemma {:induction false} SomethingFresh(used: set<nat>) returns (n: nat)
    ensures forall m :: m in used ==> m < n
    ensures n !in used
  {
    if used == {} {
      n := 0;
    } else {
      var u :| u in used;
      n := SomethingFresh(used - {u});
      assert forall m :: m in used ==> m == u || m in used - {u};
      n := if n <= u then u + 1 else n;
    }
  }

  /** A request holding the last lock it needs is never blocked. */
  lemma HolderCanStep(s: System, r: nat, at: int) returns (e: Event)
    requires r in s.requests
    requires var p := s.requests[r]; p.Inserting? || p.Committing? || p.RevokeWritten? || p.Creating? || p.Looking?
    ensures e.heard && Progresses(e.action) && Unfinished(s, e.who) && Enabled(s, e)
  {
    var p := s.requests[r];
    e := Event(at, r,
               if p.Inserting? then InsertNext
               else if p.Committing? then CommitRotation
               else if p.RevokeWritten? then CommitRevocation
               else if p.Creating? then CommitCreation
               else Look);
  }

  /** Waiting for a token row, a rotation waits for one that waits for nobody. */
  lemma SpenderOrItsBlockerCanStep(s: System, r: nat, at: int) returns (e: Event)
    requires r in s.requests && s.requests[r].Spending?
    ensures e.heard && Progresses(e.action) && Unfinished(s, e.who) && Enabled(s, e)
  {
    var tokenId := s.requests[r].job.tokenId;
    if u :| u in s.requests && u != r && HoldsToken(s.requests[u], tokenId) {
      e := HolderCanStep(s, u, at);
    } else {
      e := Event(at, r, SpendToken);
    }
  }

  /** Whoever holds a session row, in either mode, it or its own blocker can step. */
  lemma SessionHolderCanStep(s: System, u: nat, sid: Id, at: int) returns (e: Event)
    requires u in s.requests && (HoldsSession(s.requests[u], sid) || HoldsShare(s.requests[u], sid))
    ensures e.heard && Progresses(e.action) && Unfinished(s, e.who) && Enabled(s, e)
  {
    if s.requests[u].Spending? {
      e := SpenderOrItsBlockerCanStep(s, u, at);
    } else {
      e := HolderCanStep(s, u, at);
    }
  }

  /** Inside `rotate`, past its first statement. */
  predicate IsRotating(p: Phase) {
    p.Spending? || p.Inserting? || p.Committing?
  }

  /**
    Rotations of one session do not wait for one another at its row, only for a
    revocation that is being written; a revocation waits for both. At a token's
    row a rotation waits for another that has spent this token.
   */
  lemma WaitsExactlyFor(s: System, who: nat, at: int)
    ensures var p := PhaseOf(s, who);
            && (p.Locking? ==>
                  (Enabled(s, Event(at, who, LockSession)) <==>
                     !exists u :: u in s.requests && u != who && s.requests[u].RevokeWritten?
                                  && s.requests[u].session.id == p.job.next.sessionId))
            && (p.Revoking? ==>
                  (Enabled(s, Event(at, who, WriteRevocation)) <==>
                     !exists u :: u in s.requests && u != who
                                  && ((s.requests[u].RevokeWritten? && s.requests[u].session.id == p.session.id)
                                      || (IsRotating(s.requests[u]) && s.requests[u].job.next.sessionId == p.session.id))))
            && (p.Spending? ==>
                  (Enabled(s, Event(at, who, SpendToken)) <==>
                     !exists u :: u in s.requests && u != who && (s.requests[u].Inserting? || s.requests[u].Committing?)
                                  && s.requests[u].job.tokenId == p.job.tokenId))
  {
  }

  /** In every state with an unfinished request, some request can make progress. */
  lemma NoDeadlock(s: System, r: nat, at: int) returns (e: Event)
    requires Unfinished(s, r) && !s.requests[r].Idle?
    ensures e.heard && Progresses(e.action) && e.at == at && Unfinished(s, e.who) && Enabled(s, e)
  {
    var p := s.requests[r];
    if p.Deciding? {
      var id := SomethingFresh(s.minted);
      var digest := SomethingFresh(s.digests);
      e := Event(at, r, Decide(id, digest));
    } else if p.Locking? {
      if u :| u in s.requests && u != r && HoldsSession(s.requests[u], p.job.next.sessionId) {
        e := SessionHolderCanStep(s, u, p.job.next.sessionId, at);
      } else {
        e := Event(at, r, LockSession);
      }
    } else if p.Spending? {
      e := SpenderOrItsBlockerCanStep(s, r, at);
    } else if p.Revoking? {
      if u :| u in s.requests && u != r && (HoldsSession(s.requests[u], p.session.id) || HoldsShare(s.requests[u], p.session.id)) {
        e := SessionHolderCanStep(s, u, p.session.id, at);
      } else {
        e := Event(at, r, WriteRevocation);
      }
    } else {
      e := HolderCanStep(s, r, at);
    }
    e := e.(at := at);
  }

  // ----- The measure ------------------------------------------------------------------------------

  /** How many steps a request in this phase can still take. */
  function Rank(p: Phase): nat {
    match p
    case Idle => 9
    case Looking(_) => 8
    case Deciding(_, _) => 7
    case Locking(_) => 6
    case Spending(_) => 5
    case Inserting(_, _) => 4
    case Committing(_, _) => 3
    case Revoking(_, _, _, _) => 2
    case RevokeWritten(_, _, _, _, _) => 1
    case Creating(_, _) => 1
    case Done(_) => 0
  }

  ghost function Total(requests: map<nat, Phase>): nat
    decreases |requests|
  {
    if requests == map[] then 0
    else
      var r :| r in requests;
      Rank(requests[r]) + Total(requests - {r})
  }

  lemma {:induction false} TotalSplits(requests: map<nat, Phase>, r: nat)
    requires r in requests
    ensures Total(requests) == Rank(requests[r]) + Total(requests - {r})
    decreases |requests|
  {
    var q :| q in requests && Total(requests) == Rank(requests[q]) + Total(requests - {q});
    if q != r {
      TotalSplits(requests - {q}, r);
      TotalSplits(requests - {r}, q);
      assert requests - {q} - {r} == requests - {r} - {q};
    }
  }

  lemma StepLowersRank(lifetimes: Lifetimes, s: System, e: Event)
    requires Enabled(s, e)
    ensures Rank(Step(lifetimes, s.db, e.at, PhaseOf(s, e.who), e.action).phase) < Rank(PhaseOf(s, e.who))
  {
  }

  lemma StepLowersTotal(lifetimes: Lifetimes, s: System, e: Event)
    requires Enabled(s, e) && e.who in s.requests
    ensures Total(Apply(lifetimes, s, e).requests) < Total(s.requests)
  {
    var s' := Apply(lifetimes, s, e);
    StepLowersRank(lifetimes, s, e);
    TotalSplits(s.requests, e.who);
    TotalSplits(s'.requests, e.who);
    assert s'.requests - {e.who} == s.requests - {e.who};
  }

  lemma ExtendRun(lifetimes: Lifetimes, run: seq<Event>, e: Event)
    requires Run(lifetimes, run) && Enabled(After(lifetimes, run), e)
    ensures Run(lifetimes, run + [e]) && After(lifetimes, run + [e]) == Apply(lifetimes, After(lifetimes, run), e)
  {
    assert (run + [e])[..|run|] == run;
  }

  /** Without new arrivals, every schedule ends within the measure, whatever it interleaves. */
  lemma {:induction false} SchedulesEnd(lifetimes: Lifetimes, run: seq<Event>, n: nat)
    requires Run(lifetimes, run) && n <= |run| && Run(lifetimes, run[..n])
    requires forall i :: n <= i < |run| ==> !Arrives(run[i].action)
    ensures |run| - n + Total(After(lifetimes, run).requests) <= Total(After(lifetimes, run[..n]).requests)
  {
    if n == |run| {
      assert run[..n] == run;
    } else {
      var run0 := run[..|run| - 1];
      assert run0[..n] == run[..n];
      SchedulesEnd(lifetimes, run0, n);
      StepLowersTotal(lifetimes, After(lifetimes, run0), run[|run| - 1]);
    }
  }

  ghost predicate NoneIdle(s: System) {
    forall r :: r in s.requests ==> !s.requests[r].Idle?
  }

  lemma {:induction false} StartedRequestsAreNotIdle(lifetimes: Lifetimes, run: seq<Event>)
    requires Run(lifetimes, run)
    ensures NoneIdle(After(lifetimes, run))
  {
    if run != [] {
      StartedRequestsAreNotIdle(lifetimes, run[..|run| - 1]);
      StepLowersRank(lifetimes, After(lifetimes, run[..|run| - 1]), run[|run| - 1]);
    }
  }

  /** One more step, towards completion. */
  lemma OneMore(lifetimes: Lifetimes, run: seq<Event>, r: nat, at: int) returns (e: Event)
    requires Run(lifetimes, run) && Unfinished(After(lifetimes, run), r)
    ensures e.heard && Progresses(e.action) && e.at == at
    ensures Run(lifetimes, run + [e])
    ensures After(lifetimes, run + [e]).requests.Keys == After(lifetimes, run).requests.Keys
    ensures Total(After(lifetimes, run + [e]).requests) < Total(After(lifetimes, run).requests)
  {
    var s := After(lifetimes, run);
    StartedRequestsAreNotIdle(lifetimes, run);
    e := NoDeadlock(s, r, at);
    ExtendRun(lifetimes, run, e);
    StepLowersTotal(lifetimes, s, e);
  }

  ghost predicate AllDone(s: System) {
    forall r :: r in s.requests ==> s.requests[r].Done?
  }

  /** From every reachable state the requests under way can all run to completion, none failing and every reply heard. */
  lemma {:induction false} AllCanFinish(lifetimes: Lifetimes, run: seq<Event>, at: int) returns (full: seq<Event>)
    requires Run(lifetimes, run)
    ensures run <= full && Run(lifetimes, full)
    ensures After(lifetimes, full).requests.Keys == After(lifetimes, run).requests.Keys && AllDone(After(lifetimes, full))
    ensures forall i :: |run| <= i < |full| ==> full[i].heard && Progresses(full[i].action) && full[i].at == at
    decreases Total(After(lifetimes, run).requests)
  {
    if r :| Unfinished(After(lifetimes, run), r) {
      var e := OneMore(lifetimes, run, r, at);
      full := AllCanFinish(lifetimes, run + [e], at);
      assert full[|run|] == e;
    } else {
      full := run;
      forall q | q in After(lifetimes, run).requests
        ensures After(lifetimes, run).requests[q].Done?
      {
        assert !Unfinished(After(lifetimes, run), q);
      }
    }
  }
}
