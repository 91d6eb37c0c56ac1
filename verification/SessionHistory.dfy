/**
  Serial histories of the atomic repository, and what every one of them keeps.

  A history is the list of completed repository calls with their answers.
  RotationRefinement shows that every interleaving of the locking
  implementation has such a history, so the laws below hold of it too.
 */
module SessionHistory {
  import opened Prelude
  import opened SessionStore

  datatype Call =
    | Created(session: Session, first: TokenRow)
    | Rotated(spentId: Id, next: TokenRow, spentAt: int, ok: bool)
    | Revoked(sessionId: Id, revokedAt: int)

  /** A call and the request that made it. */
  datatype Entry = Entry(caller: nat, call: Call)

  function Effect(db: Tables, call: Call): Tables {
    match call
    case Created(session, first) => CreateIn(db, session, first)
    case Rotated(spentId, next, spentAt, _) => RotateIn(db, spentId, next, spentAt).0
    case Revoked(sessionId, revokedAt) => RevokeIn(db, sessionId, revokedAt)
  }

  function Replay(h: seq<Entry>): Tables {
    if h == [] then NO_ROWS else Effect(Replay(h[..|h| - 1]), h[|h| - 1].call)
  }

  ghost predicate Fresh(db: Tables, row: TokenRow) {
    row.id !in db.tokens && !Stored(db, row.tokenHash) && row.spentAt.None?
  }

  /** The answer is the one the atomic repository gives, and inserted rows are new, unspent and point at the right session. */
  ghost predicate Answers(db: Tables, call: Call) {
    match call
    case Created(session, first) =>
      session.id !in db.sessions && session.revokedAt.None? && first.sessionId == session.id && Fresh(db, first)
    case Rotated(spentId, next, spentAt, ok) =>
      && ok == RotateIn(db, spentId, next, spentAt).1
      && spentId in db.tokens && db.tokens[spentId].sessionId == next.sessionId
      && (ok ==> Fresh(db, next))
    case Revoked(sessionId, _) => sessionId in db.sessions
  }

  ghost predicate Serial(h: seq<Entry>) {
    h != [] ==> Serial(h[..|h| - 1]) && Answers(Replay(h[..|h| - 1]), h[|h| - 1].call)
  }

  /** Adding one answered call keeps the history serial. */
  lemma Extend(h: seq<Entry>, e: Entry)
    requires Serial(h) && Answers(Replay(h), e.call)
    ensures Serial(h + [e]) && Replay(h + [e]) == Effect(Replay(h), e.call)
  {
    assert (h + [e])[..|h|] == h;
  }

  lemma {:induction false} PrefixIsSerial(h: seq<Entry>, n: nat)
    requires Serial(h) && n <= |h|
    ensures Serial(h[..n])
  {
    if n < |h| {
      PrefixIsSerial(h[..|h| - 1], n);
      assert h[..|h| - 1][..n] == h[..n];
    } else {
      assert h[..n] == h;
    }
  }

  lemma CallIsWellFormed(db: Tables, call: Call)
    requires WellFormed(db) && Answers(db, call)
    ensures WellFormed(Effect(db, call))
  {
  }

  lemma {:induction false} SerialIsWellFormed(h: seq<Entry>)
    requires Serial(h)
    ensures WellFormed(Replay(h))
  {
    if h != [] {
      SerialIsWellFormed(h[..|h| - 1]);
      CallIsWellFormed(Replay(h[..|h| - 1]), h[|h| - 1].call);
    }
  }

  // ----- Write-once columns ---------------------------------------------------------------------

  predicate WrittenOnce(before: Option<int>, after: Option<int>) {
    before.Some? ==> after == before
  }

  predicate SessionEvolves(s: Session, s': Session) {
    s' == s.(revokedAt := s'.revokedAt) && WrittenOnce(s.revokedAt, s'.revokedAt)
  }

  predicate TokenEvolves(t: TokenRow, t': TokenRow) {
    t' == t.(spentAt := t'.spentAt) && WrittenOnce(t.spentAt, t'.spentAt)
  }

  /** No row disappears, and only NULL `revokedAt` and NULL `spentAt` are ever overwritten. */
  ghost predicate Evolves(db: Tables, db': Tables) {
    && (forall s :: s in db.sessions ==> s in db'.sessions && SessionEvolves(db.sessions[s], db'.sessions[s]))
    && (forall t :: t in db.tokens ==> t in db'.tokens && TokenEvolves(db.tokens[t], db'.tokens[t]))
  }

  function SessionOf(call: Call): Id {
    match call
    case Created(session, _) => session.id
    case Rotated(_, next, _, _) => next.sessionId
    case Revoked(sessionId, _) => sessionId
  }

  /** The rows that belong to session `sid`. */
  ghost function RowsOf(db: Tables, sid: Id): (Option<Session>, map<Id, TokenRow>) {
    (if sid in db.sessions then Some(db.sessions[sid]) else None,
     map t | t in db.tokens && db.tokens[t].sessionId == sid :: db.tokens[t])
  }

  lemma CallKeepsOtherRows(db: Tables, call: Call, sid: Id)
    requires WellFormed(db) && Answers(db, call) && sid != SessionOf(call)
    ensures RowsOf(Effect(db, call), sid) == RowsOf(db, sid)
  {
    assert RowsOf(Effect(db, call), sid).1 == RowsOf(db, sid).1;
  }

  /** One call evolves the tables and leaves every other session's rows as they were. */
  lemma CallEvolves(db: Tables, call: Call)
    requires WellFormed(db) && Answers(db, call)
    ensures Evolves(db, Effect(db, call))
    ensures forall sid :: sid != SessionOf(call) ==> RowsOf(Effect(db, call), sid) == RowsOf(db, sid)
  {
    forall sid | sid != SessionOf(call)
      ensures RowsOf(Effect(db, call), sid) == RowsOf(db, sid)
    {
      CallKeepsOtherRows(db, call, sid);
    }
  }

  /** Over any stretch of a history, `expiresAt`, ownership and creation never change and each timestamp is written at most once. */
  lemma {:induction false} HistoryIsWriteOnce(h: seq<Entry>, n: nat)
    requires Serial(h) && n <= |h|
    ensures Evolves(Replay(h[..n]), Replay(h))
  {
    if n == |h| {
      assert h[..n] == h;
    } else {
      var h0 := h[..|h| - 1];
      HistoryIsWriteOnce(h0, n);
      assert h0[..n] == h[..n];
      SerialIsWellFormed(h0);
      CallEvolves(Replay(h0), h[|h| - 1].call);
    }
  }

  // ----- The chain of one session ----------------------------------------------------------------

  predicate Spends(call: Call, sid: Id) {
    call.Rotated? && call.ok && call.next.sessionId == sid
  }

  /** The tokens a session was given, oldest first. */
  function Chain(h: seq<Entry>, sid: Id): seq<Id> {
    if h == [] then []
    else
      var rest, call := Chain(h[..|h| - 1], sid), h[|h| - 1].call;
      if call.Created? && call.session.id == sid then rest + [call.first.id]
      else if Spends(call, sid) then rest + [call.next.id]
      else rest
  }

  function Rotations(h: seq<Entry>, sid: Id): nat {
    if h == [] then 0
    else Rotations(h[..|h| - 1], sid) + if Spends(h[|h| - 1].call, sid) then 1 else 0
  }

  /** `c` lists exactly the session's rows, once each, all spent but the last. */
  ghost predicate IsChain(db: Tables, sid: Id, c: seq<Id>) {
    && c != []
    && (forall i, j :: 0 <= i < j < |c| ==> c[i] != c[j])
    && (forall t :: t in c <==> t in db.tokens && db.tokens[t].sessionId == sid)
    && (forall i :: 0 <= i < |c| ==> (db.tokens[c[i]].spentAt.None? <==> i == |c| - 1))
  }

  /** Prepending nothing and losing nothing: a chain stays one when its last token is spent for a fresh one. */
  lemma SpendGrowsChain(db: Tables, sid: Id, c: seq<Id>, spentId: Id, next: TokenRow, at: int)
    requires WellFormed(db) && IsChain(db, sid, c)
    requires next.sessionId == sid && Answers(db, Rotated(spentId, next, at, true))
    ensures spentId == c[|c| - 1]
    ensures IsChain(RotateIn(db, spentId, next, at).0, sid, c + [next.id])
  {
    assert spentId in c;
    var db', c' := RotateIn(db, spentId, next, at).0, c + [next.id];
    assert next.id !in c;
    forall t
      ensures t in c' <==> t in db'.tokens && db'.tokens[t].sessionId == sid
    {
      assert t in c' <==> t in c || t == next.id;
    }
    forall i | 0 <= i < |c'|
      ensures db'.tokens[c'[i]].spentAt.None? <==> i == |c'| - 1
    {
      if i < |c| {
        assert c'[i] == c[i] && c[i] in c;
      }
    }
  }

  /** A call on another session leaves a chain alone. */
  lemma OtherCallKeepsChain(db: Tables, sid: Id, c: seq<Id>, call: Call)
    requires WellFormed(db) && IsChain(db, sid, c) && Answers(db, call)
    requires !Spends(call, sid) && sid in db.sessions
    ensures IsChain(Effect(db, call), sid, c)
  {
    var db' := Effect(db, call);
    forall t
      ensures t in c <==> t in db'.tokens && db'.tokens[t].sessionId == sid
    {
    }
    forall i | 0 <= i < |c|
      ensures db'.tokens[c[i]].spentAt.None? <==> i == |c| - 1
    {
      assert c[i] in c;
    }
  }

  /**
    The chain never forks: a session's rows are one succession of tokens, all
    spent but the newest, and there is one more of them than rotations.
   */
  lemma {:induction false} ChainNeverForks(h: seq<Entry>, sid: Id)
    requires Serial(h)
    ensures sid in Replay(h).sessions ==> IsChain(Replay(h), sid, Chain(h, sid)) && |Chain(h, sid)| == 1 + Rotations(h, sid)
    ensures sid !in Replay(h).sessions ==> Chain(h, sid) == [] && Rotations(h, sid) == 0
  {
    if h != [] {
      var h0, call := h[..|h| - 1], h[|h| - 1].call;
      var db := Replay(h0);
      ChainNeverForks(h0, sid);
      SerialIsWellFormed(h0);
      if call.Created? && call.session.id == sid {
        assert Chain(h, sid) == [call.first.id];
      } else if sid in db.sessions {
        if Spends(call, sid) {
          SpendGrowsChain(db, sid, Chain(h0, sid), call.spentId, call.next, call.spentAt);
        } else {
          OtherCallKeepsChain(db, sid, Chain(h0, sid), call);
        }
      }
    }
  }

  /** Each successful rotation spends the newest token of its session and its replacement becomes the newest. */
  lemma RotationExtendsChain(h: seq<Entry>, n: nat)
    requires Serial(h) && n < |h| && h[n].call.Rotated? && h[n].call.ok
    ensures var call := h[n].call;
            && Chain(h[..n], call.next.sessionId) != []
            && call.spentId == Chain(h[..n], call.next.sessionId)[|Chain(h[..n], call.next.sessionId)| - 1]
            && Chain(h[..n + 1], call.next.sessionId) == Chain(h[..n], call.next.sessionId) + [call.next.id]
  {
    var call := h[n].call;
    PrefixIsSerial(h, n + 1);
    assert h[..n + 1][..n] == h[..n] && h[..n + 1][n] == h[n];
    SerialIsWellFormed(h[..n]);
    ChainNeverForks(h[..n], call.next.sessionId);
    SpendGrowsChain(Replay(h[..n]), call.next.sessionId, Chain(h[..n], call.next.sessionId),
                    call.spentId, call.next, call.spentAt);
  }

  // ----- Revocation and reuse --------------------------------------------------------------------

  ghost predicate IsRevoked(db: Tables, sid: Id) {
    sid in db.sessions && db.sessions[sid].revokedAt.Some?
  }

  /** Once a session is revoked its rows never change again and no later rotation of it is granted. */
  lemma {:induction false} RevocationAbsorbs(h: seq<Entry>, n: nat, sid: Id)
    requires Serial(h) && n <= |h| && IsRevoked(Replay(h[..n]), sid)
    ensures RowsOf(Replay(h), sid) == RowsOf(Replay(h[..n]), sid)
    ensures forall i :: n <= i < |h| ==> !Spends(h[i].call, sid)
  {
    if n == |h| {
      assert h[..n] == h;
    } else {
      var h0, call := h[..|h| - 1], h[|h| - 1].call;
      assert h0[..n] == h[..n];
      RevocationAbsorbs(h0, n, sid);
      SerialIsWellFormed(h0);
      CallEvolves(Replay(h0), call);
      assert RowsOf(Replay(h0), sid).0 == RowsOf(Replay(h[..n]), sid).0;
      assert IsRevoked(Replay(h0), sid);
      assert !Spends(call, sid);
      forall i | n <= i < |h|
        ensures !Spends(h[i].call, sid)
      {
        assert i < |h| - 1 ==> h0[i] == h[i];
      }
      assert Effect(Replay(h0), call).sessions[sid] == Replay(h0).sessions[sid];
      if SessionOf(call) == sid {
        assert RowsOf(Effect(Replay(h0), call), sid).1 == RowsOf(Replay(h0), sid).1;
      }
    }
  }

  /** The stored time of a revocation is that of the first call that revoked the session. */
  lemma {:induction false} RevocationTimeIsRecorded(h: seq<Entry>, sid: Id) returns (n: nat)
    requires Serial(h) && IsRevoked(Replay(h), sid)
    ensures n < |h| && h[n].call == Revoked(sid, Replay(h).sessions[sid].revokedAt.value)
    ensures !IsRevoked(Replay(h[..n]), sid)
  {
    var h0, call := h[..|h| - 1], h[|h| - 1].call;
    SerialIsWellFormed(h0);
    if IsRevoked(Replay(h0), sid) {
      n := RevocationTimeIsRecorded(h0, sid);
      assert h0[..n] == h[..n];
      RevocationAbsorbs(h, |h| - 1, sid);
      assert RowsOf(Replay(h), sid).0 == RowsOf(Replay(h0), sid).0;
    } else {
      n := |h| - 1;
    }
  }

  /** A granted rotation's own time is the stored time of the token it spent. */
  lemma GrantedSpendIsRecorded(h: seq<Entry>, n: nat)
    requires Serial(h) && n < |h| && h[n].call.Rotated? && h[n].call.ok
    ensures h[n].call.spentId in Replay(h).tokens && Replay(h).tokens[h[n].call.spentId].spentAt == Some(h[n].call.spentAt)
  {
    PrefixIsSerial(h, n + 1);
    assert h[..n + 1][..n] == h[..n] && h[..n + 1][n] == h[n];
    HistoryIsWriteOnce(h, n + 1);
  }

  /** Each token backs at most one granted rotation. */
  lemma TokenSpendsOnce(h: seq<Entry>, i: nat, j: nat)
    requires Serial(h) && i < j < |h|
    requires h[i].call.Rotated? && h[i].call.ok && h[j].call.Rotated? && h[j].call.ok
    ensures h[i].call.spentId != h[j].call.spentId
  {
    PrefixIsSerial(h, j + 1);
    assert h[..j + 1][..j] == h[..j] && h[..j + 1][j] == h[j] && h[..j][i] == h[i];
    GrantedSpendIsRecorded(h[..j], i);
  }
}
