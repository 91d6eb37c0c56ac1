/**
  What every run of racing registrations keeps, and the use case itself over the in-memory repository.
 */
module RegistrationSafety {
  import opened Prelude
  import opened Registration
  import Text

  /** At most one account per handle, however its letters are cased. */
  lemma OneAccountPerHandle(run: seq<Event>, i: Id, j: Id)
    requires Run(run) && i in After(run).db.users && j in After(run).db.users
    requires SameButCase(After(run).db.users[i].handle, After(run).db.users[j].handle)
    ensures i == j
  {
    RunKeepsInvariant(run);
    FoldIgnoresCaseOnly(After(run).db.users[i].handle, After(run).db.users[j].handle);
  }

  ghost predicate HasRows(db: Tables, user: User, hash: string) {
    user.id in db.users && db.users[user.id] == user && user.id in db.credentials && db.credentials[user.id] == hash
  }

  /** Both rows are there exactly for the requests that committed; no user row is without credentials or the reverse. */
  lemma RowsAreExactlyTheWritten(run: seq<Event>, user: User, hash: string)
    requires Run(run)
    ensures After(run).db.users.Keys == After(run).db.credentials.Keys
    ensures HasRows(After(run).db, user, hash)
       <==> exists r :: r in After(run).requests && Wrote(After(run).requests[r], user, hash)
  {
    var s := After(run);
    RunKeepsInvariant(run);
    if HasRows(s.db, user, hash) {
      var r := RowHasWriter(s, user.id);
      assert PhaseOk(s, r, s.requests[r]);
      assert Wrote(s.requests[r], user, hash);
    }
    forall r | r in s.requests && Wrote(s.requests[r], user, hash)
      ensures HasRows(s.db, user, hash)
    {
      assert PhaseOk(s, r, s.requests[r]);
    }
  }

  /** Of the requests for one handle, however they interleave, at most one registers. */
  lemma OneWinner(run: seq<Event>, r: nat, q: nat)
    requires Run(run) && r in After(run).requests && q in After(run).requests && r != q
    requires IsWriter(After(run).requests[r]) && IsWriter(After(run).requests[q])
    ensures !SameKey(UserOf(After(run).requests[r]), UserOf(After(run).requests[q]))
  {
    var s := After(run);
    RunKeepsInvariant(run);
    assert PhaseOk(s, r, s.requests[r]) && PhaseOk(s, q, s.requests[q]);
  }

  /** No two requests drew the same id, as Snowflake guarantees. */
  predicate DistinctIds(s: System) {
    forall r, q :: r in s.minted && q in s.minted && r != q ==> s.minted[r] != s.minted[q]
  }

  predicate IsTaken(p: Phase, handle: string) {
    p == Done(HandleTaken(handle))
  }

  lemma RowHasWriter(s: System, id: Id) returns (q: nat)
    requires Invariant(s) && id in s.db.users
    ensures q in s.requests && IsWriter(s.requests[q]) && UserOf(s.requests[q]) == s.db.users[id]
    ensures q in s.minted && s.minted[q] == id
  {
    q :| q in s.requests && IsWriter(s.requests[q]) && UserOf(s.requests[q]).id == id;
    assert PhaseOk(s, q, s.requests[q]);
  }

  /** A refused handle is not held only if the request drew an id that another one registered under. */
  lemma FalseAlarmNeedsARepeatedId(run: seq<Event>, r: nat, handle: string) returns (q: nat)
    requires Run(run) && r in After(run).requests && IsTaken(After(run).requests[r], handle)
    requires !HandleHeld(After(run).db, handle)
    ensures var s := After(run);
            q != r && r in s.minted && q in s.minted && s.minted[q] == s.minted[r]
            && q in s.requests && IsWriter(s.requests[q])
  {
    var s := After(run);
    RunKeepsInvariant(run);
    assert PhaseOk(s, r, s.requests[r]);
    q := RowHasWriter(s, s.minted[r]);
  }

  /** With distinct ids, whoever is told that the handle is taken lost it to exactly one registered account. */
  lemma TakenIsTrue(run: seq<Event>, r: nat, handle: string) returns (winner: nat)
    requires Run(run) && DistinctIds(After(run))
    requires r in After(run).requests && IsTaken(After(run).requests[r], handle)
    ensures HandleHeld(After(run).db, handle)
    ensures winner in After(run).requests && IsWriter(After(run).requests[winner])
    ensures SameButCase(UserOf(After(run).requests[winner]).handle, handle)
  {
    var s := After(run);
    if !HandleHeld(s.db, handle) {
      var q := FalseAlarmNeedsARepeatedId(run, r, handle);
      assert false;
    }
    RunKeepsInvariant(run);
    var id :| id in s.db.users && Fold(s.db.users[id].handle) == Fold(handle);
    winner := RowHasWriter(s, id);
    FoldIgnoresCaseOnly(s.db.users[id].handle, handle);
  }

  /** Registering never changes or removes a committed row. */
  lemma {:induction false} RowsStay(run: seq<Event>, n: nat, user: User, hash: string)
    requires Run(run) && n <= |run| && Run(run[..n]) && HasRows(After(run[..n]).db, user, hash)
    ensures HasRows(After(run).db, user, hash)
  {
    if n == |run| {
      assert run[..n] == run;
    } else {
      var run0, e := run[..|run| - 1], run[|run| - 1];
      assert run0[..n] == run[..n];
      RowsStay(run0, n, user, hash);
      RunKeepsInvariant(run0);
      if Writes(e.action) {
        CommitStep(After(run0), e);
      } else {
        QuietStep(After(run0), e);
      }
    }
  }

  // ----- Why the ids must differ ------------------------------------------------------------------

  lemma Extend(run: seq<Event>, e: Event)
    requires Run(run) && Enabled(After(run), e)
    ensures Run(run + [e]) && After(run + [e]) == Apply(After(run), e)
  {
    assert (run + [e])[..|run|] == run;
  }

  /** A request that has just drawn an id another account has is told its free handle is taken. */
  lemma RepeatedIdRaisesFalseAlarm(run: seq<Event>, r: nat)
    requires Run(run) && PhaseOf(After(run), r).Inserting?
    requires PhaseOf(After(run), r).user.id in After(run).db.users
    requires !HandleHeld(After(run).db, PhaseOf(After(run), r).user.handle)
    ensures var run', handle := run + [Event(r, InsertUser)], PhaseOf(After(run), r).user.handle;
            Run(run') && IsTaken(After(run').requests[r], handle) && !HandleHeld(After(run').db, handle)
  {
    Extend(run, Event(r, InsertUser));
    SeenThroughWrappers(ErrorObject(Some(UNIQUE_VIOLATION), None), 1);
  }

  /**
    In any state, an insert that may run is told "handle taken" while nobody has
    the handle exactly when its request drew an account's id for a free handle.
   */
  lemma FalseAlarmExactlyWhen(s: System, r: nat)
    requires Enabled(s, Event(r, InsertUser))
    ensures var s', user := Apply(s, Event(r, InsertUser)), PhaseOf(s, r).user;
            var told := IsTaken(PhaseOf(s', r), user.handle);
            (told && !HandleHeld(s'.db, user.handle)) <==> (user.id in s.db.users && !HandleHeld(s.db, user.handle))
  {
    SeenThroughWrappers(ErrorObject(Some(UNIQUE_VIOLATION), None), 1);
  }

  // ----- Progress ---------------------------------------------------------------------------------

  /** In every reachable state with an unfinished request, some request can step without failing. */
  lemma NoDeadlock(run: seq<Event>, r: nat, id: Id, hash: string, now: int) returns (e: Event)
    requires Run(run) && r in After(run).requests && !After(run).requests[r].Done?
    ensures Enabled(After(run), e) && e.who in After(run).requests && !e.action.Fail? && !e.action.LoseReply?
  {
    var s := After(run);
    RunKeepsInvariant(run);
    var p := s.requests[r];
    if p.Inserting? {
      if q :| q in s.requests && q != r && InFlight(s.requests[q]) && SameKey(s.requests[q].user, p.user) {
        e := Event(q, if s.requests[q].Crediting? then InsertCredentials else Commit);
      } else {
        e := Event(r, InsertUser);
      }
    } else {
      e := Event(r, if p.Checking? then Check
                    else if p.Hashing? then Mint(id, hash, now)
                    else if p.Crediting? then InsertCredentials
                    else Commit);
    }
  }

  /** The second INSERT never meets its key: only the first can lose a race. */
  lemma CredentialsAlwaysInsert(run: seq<Event>, r: nat)
    requires Run(run) && PhaseOf(After(run), r).Crediting?
    ensures var p := PhaseOf(After(run), r);
            Step(After(run).db, p, InsertCredentials).0 == Committing(p.user, p.hash)
  {
    RunKeepsInvariant(run);
    assert PhaseOk(After(run), r, After(run).requests[r]);
  }

  // ----- The use case over the in-memory repository -----------------------------------------------

  /** The repository of `register-user.use-case.test.ts`; `names` are the handles it was given, as they were spelled. */
  class InMemoryUserRepository {
    var handles: set<string>
    var created: seq<(User, string)>
    ghost var names: set<string>

    ghost predicate Valid()
      reads this
    {
      handles == set name | name in names :: Fold(name)
    }

    constructor ()
      ensures Valid() && names == {} && created == []
    {
      handles, created, names := {}, [], {};
    }

    method Seed(handle: string)
      requires Valid()
      modifies this
      ensures Valid() && names == old(names) + {handle} && created == old(created)
    {
      handles := handles + {Fold(handle)};
      names := names + {handle};
    }

    ghost predicate Holds(handle: string)
      reads this
    {
      exists name :: name in names && SameButCase(name, handle)
    }

    method ExistsByHandle(handle: string) returns (held: bool)
      requires Valid()
      ensures held == Holds(handle)
    {
      held := Fold(handle) in handles;
      SpellingsOf(names, handle);
    }

    method Create(user: User, hash: string)
      requires Valid()
      modifies this
      ensures Valid() && names == old(names) + {user.handle} && created == old(created) + [(user, hash)]
    {
      handles := handles + {Fold(user.handle)};
      created := created + [(user, hash)];
      names := names + {user.handle};
    }
  }

  lemma SpellingsOf(names: set<string>, handle: string)
    ensures Fold(handle) in (set name | name in names :: Fold(name)) <==> exists name :: name in names && SameButCase(name, handle)
  {
    forall name | name in names
      ensures Fold(name) == Fold(handle) <==> SameButCase(name, handle)
    {
      FoldIgnoresCaseOnly(name, handle);
    }
  }

  class RegisterUserUseCase {
    const users: InMemoryUserRepository
    const hash: string -> string
    var nextId: Id

    constructor (users: InMemoryUserRepository, hash: string -> string)
      ensures this.users == users && this.hash == hash && nextId == 1
    {
      this.users, this.hash, nextId := users, hash, 1;
    }

    /** Refusals touch nothing; a success draws one id and creates one account under it. */
    method Execute(handle: string, password: string, now: int) returns (outcome: Outcome)
      requires users.Valid()
      modifies this, users
      ensures users.Valid()
      ensures outcome.Invalid? <==> !IsValidHandle(handle) || !IsValidPassword(password)
      ensures !outcome.Invalid? ==>
                outcome == if old(users.Holds(handle)) then HandleTaken(handle)
                           else Registered(User(old(nextId), handle, handle, now), hash(password))
      ensures outcome.Registered? ==>
                && users.names == old(users.names) + {handle}
                && users.created == old(users.created) + [(outcome.user, outcome.hash)]
                && nextId == old(nextId) + 1
      ensures !outcome.Registered? ==>
                users.names == old(users.names) && users.created == old(users.created) && nextId == old(nextId)
    {
      if !IsValidHandle(handle) || !IsValidPassword(password) {
        return Invalid;
      }
      var taken := users.ExistsByHandle(handle);
      if taken {
        return HandleTaken(handle);
      }
      var passwordHash := hash(password);
      var user := User(nextId, handle, handle, now);
      nextId := nextId + 1;
      users.Create(user, passwordHash);
      outcome := Registered(user, passwordHash);
    }
  }

  ghost predicate NoneInFlight(s: System, who: nat) {
    forall r :: r in s.requests && r != who ==> !InFlight(s.requests[r])
  }

  /** One registration while no other one holds uncommitted rows ends as the use case over the in-memory repository. */
  lemma RegisterWithoutRivals(run: seq<Event>, who: nat, handle: string, password: string, id: Id, hash: string, now: int)
    returns (run': seq<Event>)
    requires Run(run) && who !in After(run).requests && NoneInFlight(After(run), who) && id !in After(run).db.users
    ensures run <= run' && Run(run')
    ensures After(run').requests == After(run).requests[who := PhaseOf(After(run'), who)]
    ensures var db, user := After(run).db, User(id, handle, handle, now);
            if !IsValidHandle(handle) || !IsValidPassword(password) then
              After(run').db == db && PhaseOf(After(run'), who) == Done(Invalid)
            else if HandleHeld(db, handle) then
              After(run').db == db && PhaseOf(After(run'), who) == Done(HandleTaken(handle))
            else
              After(run').db == Committed(db, user, hash) && PhaseOf(After(run'), who) == Done(Registered(user, hash))
  {
    if IsValidHandle(handle) && IsValidPassword(password) && !HandleHeld(After(run).db, handle) {
      run' := MintAlone(run, who, handle, password, id, hash, now);
      run' := InsertAlone(run', who);
    } else {
      run' := Alone(run, Event(who, Submit(handle, password)));
      if PhaseOf(After(run'), who).Checking? {
        run' := Alone(run', Event(who, Check));
      }
    }
  }

  lemma MintAlone(run: seq<Event>, who: nat, handle: string, password: string, id: Id, hash: string, now: int)
    returns (run': seq<Event>)
    requires Run(run) && who !in After(run).requests && NoneInFlight(After(run), who)
    requires IsValidHandle(handle) && IsValidPassword(password) && !HandleHeld(After(run).db, handle)
    ensures run <= run' && Run(run') && NoneInFlight(After(run'), who)
    ensures After(run').requests == After(run).requests[who := PhaseOf(After(run'), who)]
    ensures After(run').db == After(run).db && PhaseOf(After(run'), who) == Inserting(User(id, handle, handle, now), hash)
  {
    run' := Alone(run, Event(who, Submit(handle, password)));
    run' := Alone(run', Event(who, Check));
    run' := Alone(run', Event(who, Mint(id, hash, now)));
  }

  lemma InsertAlone(run: seq<Event>, who: nat) returns (run': seq<Event>)
    requires Run(run) && NoneInFlight(After(run), who) && PhaseOf(After(run), who).Inserting?
    requires !Refused(After(run).db, PhaseOf(After(run), who).user)
    ensures run <= run' && Run(run')
    ensures After(run').requests == After(run).requests[who := PhaseOf(After(run'), who)]
    ensures var db, p := After(run).db, PhaseOf(After(run), who);
            After(run').db == Committed(db, p.user, p.hash) && PhaseOf(After(run'), who) == Done(Registered(p.user, p.hash))
  {
    run' := Alone(run, Event(who, InsertUser));
    CredentialsAlwaysInsert(run', who);
    run' := Alone(run', Event(who, InsertCredentials));
    run' := Alone(run', Event(who, Commit));
  }

  lemma Alone(run: seq<Event>, e: Event) returns (run': seq<Event>)
    requires Run(run) && Enabled(After(run), e) && NoneInFlight(After(run), e.who)
    ensures run' == run + [e] && Run(run') && NoneInFlight(After(run'), e.who)
    ensures After(run').requests == After(run).requests[e.who := PhaseOf(After(run'), e.who)]
    ensures After(run').db == Step(After(run).db, PhaseOf(After(run), e.who), e.action).1
    ensures PhaseOf(After(run'), e.who) == Step(After(run).db, PhaseOf(After(run), e.who), e.action).0
  {
    Extend(run, e);
    run' := run + [e];
  }

  /** A run of two registrations that draw the same id: the second is told that a handle nobody has is taken. */
  lemma FalseAlarmHappens() returns (run: seq<Event>)
    ensures Run(run) && 2 in After(run).requests && IsTaken(After(run).requests[2], "bob")
    ensures !HandleHeld(After(run).db, "bob")
  {
    PasswordIsValid();
    run := RegisterWithoutRivals([], 1, "ann", "passw0rd", 7, "", 0);
    HandleDiffers(After(run).db);
    run := MintAlone(run, 2, "bob", "passw0rd", 7, "", 0);
    RepeatedIdRaisesFalseAlarm(run, 2);
    run := run + [Event(2, InsertUser)];
  }

  lemma PasswordIsValid()
    ensures IsValidPassword("passw0rd")
  {
    var password := "passw0rd";
    assert password[0] == 'p' && password[5] == '0';
    PlainLength(password);
  }

  lemma HandleDiffers(db: Tables)
    requires db.users == map[7 := User(7, "ann", "ann", 0)]
    ensures !HandleHeld(db, "bob")
  {
    assert Fold("ann")[0] == 'a' && Fold("bob")[0] == 'b';
  }

  lemma {:induction false} PlainLength(s: string)
    requires forall i :: 0 <= i < |s| ==> s[i] as int <= 0xFFFF
    ensures Text.UnitLength(s) == |s|
  {
    if s != "" {
      PlainLength(s[..|s| - 1]);
    }
  }
}
