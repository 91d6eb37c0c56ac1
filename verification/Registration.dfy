/**
  Any number of registrations racing for handles and ids.

  A request checks, hashes, mints and inserts, one step at a time. Its two
  INSERTs stay with its transaction until COMMIT; an INSERT whose unique key is
  held by another transaction's uncommitted row waits, and one whose key is held
  by a committed row raises a unique violation, which `create` translates.
 */
module Registration {
  import opened Prelude
  import Text

  type Id = nat

  // ----- Handles and passwords --------------------------------------------------------------------

  predicate IsHandleCharacter(c: char) {
    'a' <= c <= 'z' || 'A' <= c <= 'Z' || '0' <= c <= '9' || c == '_'
  }

  predicate IsValidHandle(handle: string) {
    3 <= |handle| <= 20 && forall i :: 0 <= i < |handle| ==> IsHandleCharacter(handle[i])
  }

  function Lower(c: char): char {
    if 'A' <= c <= 'Z' then (c as int + 32) as char else c
  }

  /** The key a CITEXT column compares by, for the characters a handle may have. */
  function Fold(handle: string): string {
    seq(|handle|, i requires 0 <= i < |handle| => Lower(handle[i]))
  }

  /** The same character, or the two cases of one letter. */
  predicate IsCaseVariant(c: char, d: char) {
    c == d || ('A' <= c <= 'Z' && d as int == c as int + 32) || ('A' <= d <= 'Z' && c as int == d as int + 32)
  }

  /** One handle in two spellings. */
  predicate SameButCase(handle: string, other: string) {
    |handle| == |other| && forall i :: 0 <= i < |handle| ==> IsCaseVariant(handle[i], other[i])
  }

  /** Two texts have one key exactly when they differ in the case of letters at most. */
  lemma FoldIgnoresCaseOnly(handle: string, other: string)
    ensures Fold(handle) == Fold(other) <==> SameButCase(handle, other)
  {
    if Fold(handle) == Fold(other) {
      forall i | 0 <= i < |handle|
        ensures IsCaseVariant(handle[i], other[i])
      {
        assert Fold(handle)[i] == Fold(other)[i];
      }
    }
  }

  predicate IsValidPassword(password: string) {
    && Text.UnitLength(password) >= 8
    && (exists i :: 0 <= i < |password| && ('A' <= password[i] <= 'Z' || 'a' <= password[i] <= 'z'))
    && (exists i :: 0 <= i < |password| && '0' <= password[i] <= '9')
  }

  const SMALL: set<char> :=
    {'a', 'b', 'c', 'd', 'e', 'f', 'g', 'h', 'i', 'j', 'k', 'l', 'm', 'n', 'o', 'p', 'q', 'r', 's', 't', 'u', 'v', 'w', 'x', 'y', 'z'}

  const CAPITALS: set<char> :=
    {'A', 'B', 'C', 'D', 'E', 'F', 'G', 'H', 'I', 'J', 'K', 'L', 'M', 'N', 'O', 'P', 'Q', 'R', 'S', 'T', 'U', 'V', 'W', 'X', 'Y', 'Z'}

  const DIGITS: set<char> := {'0', '1', '2', '3', '4', '5', '6', '7', '8', '9'}

  const LETTERS: set<char> := SMALL + CAPITALS

  lemma SmallLetters(c: char)
    ensures (c in SMALL) == ('a' <= c <= 'z')
  {
  }

  lemma CapitalLetters(c: char)
    ensures (c in CAPITALS) == ('A' <= c <= 'Z')
  {
  }

  lemma DecimalDigits(c: char)
    ensures (c in DIGITS) == ('0' <= c <= '9')
  {
  }

  lemma LettersAndDigits(c: char)
    ensures (c in LETTERS) == ('a' <= c <= 'z' || 'A' <= c <= 'Z')
    ensures (c in DIGITS) == ('0' <= c <= '9')
  {
    SmallLetters(c);
    CapitalLetters(c);
    DecimalDigits(c);
    assert (c in LETTERS) == (c in SMALL || c in CAPITALS);
  }

  function Characters(s: string): set<char> {
    set c | c in s
  }

  /** Three to twenty characters, all of them letters, digits and underscores. */
  lemma HandleIsValidExactlyWhen(handle: string)
    ensures IsValidHandle(handle) <==> 3 <= |handle| <= 20 && Characters(handle) <= LETTERS + DIGITS + {'_'}
  {
    forall c | c in handle
      ensures IsHandleCharacter(c) <==> c in LETTERS + DIGITS + {'_'}
    {
      LettersAndDigits(c);
    }
    assert forall i :: 0 <= i < |handle| ==> handle[i] in Characters(handle);
  }

  /** Eight UTF-16 units, a letter and a digit among them. */
  lemma PasswordIsValidExactlyWhen(password: string)
    ensures IsValidPassword(password) <==>
              Text.UnitLength(password) >= 8 && Characters(password) * LETTERS != {} && Characters(password) * DIGITS != {}
  {
    forall c | c in password
      ensures c in LETTERS <==> 'a' <= c <= 'z' || 'A' <= c <= 'Z'
      ensures c in DIGITS <==> '0' <= c <= '9'
    {
      LettersAndDigits(c);
    }
    HasOneOf(password, LETTERS);
    HasOneOf(password, DIGITS);
  }

  lemma HasOneOf(s: string, some: set<char>)
    ensures Characters(s) * some != {} <==> exists i :: 0 <= i < |s| && s[i] in some
  {
    if Characters(s) * some != {} {
      var c :| c in Characters(s) * some;
      var i :| 0 <= i < |s| && s[i] == c;
    }
    if i :| 0 <= i < |s| && s[i] in some {
      assert s[i] in Characters(s) * some;
    }
  }

  // ----- Error values -----------------------------------------------------------------------------

  /** A thrown value: not an object, or an object with a possible `code` and a possible `cause`. */
  datatype ErrorValue = Primitive | ErrorObject(code: Option<string>, cause: Option<ErrorValue>)

  function PgCode(error: ErrorValue): Option<string> {
    match error
    case Primitive => None
    case ErrorObject(Some(code), _) => Some(code)
    case ErrorObject(None, Some(cause)) => PgCode(cause)
    case ErrorObject(None, None) => None
  }

  const UNIQUE_VIOLATION := "23505"

  predicate IsUniqueViolation(error: ErrorValue) {
    PgCode(error) == Some(UNIQUE_VIOLATION)
  }

  function Wrapped(error: ErrorValue, depth: nat): ErrorValue {
    if depth == 0 then error else ErrorObject(None, Some(Wrapped(error, depth - 1)))
  }

  /** Wrappers without a code of their own hide nothing, however many there are. */
  lemma {:induction false} SeenThroughWrappers(error: ErrorValue, depth: nat)
    ensures IsUniqueViolation(Wrapped(error, depth)) <==> IsUniqueViolation(error)
  {
    if depth > 0 {
      SeenThroughWrappers(error, depth - 1);
    }
  }

  /** What the driver throws for a violated constraint, as drizzle wraps it. */
  const VIOLATION := Wrapped(ErrorObject(Some(UNIQUE_VIOLATION), None), 1)

  // ----- State ------------------------------------------------------------------------------------

  datatype User = User(id: Id, handle: string, displayName: string, createdAt: int)

  datatype Tables = Tables(users: map<Id, User>, credentials: map<Id, string>)

  /** `Unconfirmed` is an error to the caller although the transaction committed: the reply was lost. */
  datatype Outcome =
    | Invalid
    | HandleTaken(handle: string)
    | Registered(user: User, hash: string)
    | Unconfirmed(user: User, hash: string)
    | Failed(error: ErrorValue)

  datatype Phase =
    | Idle
    | Checking(handle: string, password: string)
    | Hashing(handle: string, password: string)
    | Inserting(user: User, hash: string)
      // its users row is inserted, not committed
    | Crediting(user: User, hash: string)
      // both rows are inserted, not committed
    | Committing(user: User, hash: string)
    | Done(outcome: Outcome)

  /** `minted` only records which id each request drew. */
  datatype System = System(db: Tables, requests: map<nat, Phase>, minted: map<nat, Id>)

  const START := System(Tables(map[], map[]), map[], map[])

  datatype Action =
    | Submit(handle: string, password: string)
    | Check
    | Mint(id: Id, hash: string, now: int)
    | InsertUser
    | InsertCredentials
    | Commit
    | LoseReply
    | Fail(error: ErrorValue)

  datatype Event = Event(who: nat, action: Action)

  function PhaseOf(s: System, who: nat): Phase {
    if who in s.requests then s.requests[who] else Idle
  }

  predicate HandleHeld(db: Tables, handle: string) {
    exists id :: id in db.users && Fold(db.users[id].handle) == Fold(handle)
  }

  /** One of the two unique keys of the row is held by a committed row. */
  predicate Refused(db: Tables, user: User) {
    user.id in db.users || HandleHeld(db, user.handle)
  }

  predicate InFlight(p: Phase) {
    p.Crediting? || p.Committing?
  }

  predicate SameKey(u: User, v: User) {
    u.id == v.id || Fold(u.handle) == Fold(v.handle)
  }

  /** No other transaction holds an uncommitted row with one of the keys. */
  predicate KeysFree(s: System, who: nat, user: User) {
    forall r :: r in s.requests && r != who && InFlight(s.requests[r]) ==> !SameKey(s.requests[r].user, user)
  }

  predicate Enabled(s: System, e: Event) {
    var p := PhaseOf(s, e.who);
    match e.action
    case Submit(_, _) => p.Idle?
    case Check => p.Checking?
    case Mint(_, _, _) => p.Hashing?
    case InsertUser => p.Inserting? && (Refused(s.db, p.user) || KeysFree(s, e.who, p.user))
    case InsertCredentials => p.Crediting?
    case Commit => p.Committing?
    case LoseReply => p.Committing?
    case Fail(error) => !p.Idle? && !p.Done? && !IsUniqueViolation(error)
  }

  /** The `catch` of `create`. */
  function Translate(error: ErrorValue, handle: string): Outcome {
    if IsUniqueViolation(error) then HandleTaken(handle) else Failed(error)
  }

  function Committed(db: Tables, user: User, hash: string): Tables {
    Tables(db.users[user.id := user], db.credentials[user.id := hash])
  }

  /** The request's next phase and the tables it leaves committed. */
  function Step(db: Tables, p: Phase, action: Action): (Phase, Tables) {
    match (action, p)
    case (Submit(handle, password), Idle) =>
      (if IsValidHandle(handle) && IsValidPassword(password) then Checking(handle, password) else Done(Invalid), db)
    case (Check, Checking(handle, password)) =>
      (if HandleHeld(db, handle) then Done(HandleTaken(handle)) else Hashing(handle, password), db)
    case (Mint(id, hash, now), Hashing(handle, _)) =>
      (Inserting(User(id, handle, handle, now), hash), db)
    case (InsertUser, Inserting(user, hash)) =>
      (if Refused(db, user) then Done(Translate(VIOLATION, user.handle)) else Crediting(user, hash), db)
    case (InsertCredentials, Crediting(user, hash)) =>
      (if user.id in db.credentials then Done(Translate(VIOLATION, user.handle)) else Committing(user, hash), db)
    case (Commit, Committing(user, hash)) =>
      (Done(Registered(user, hash)), Committed(db, user, hash))
    case (LoseReply, Committing(user, hash)) =>
      (Done(Unconfirmed(user, hash)), Committed(db, user, hash))
    case (Fail(error), _) =>
      (Done(if p.Inserting? || InFlight(p) then Translate(error, p.user.handle) else Failed(error)), db)
    case _ => (p, db)
  }

  function Apply(s: System, e: Event): System
    requires Enabled(s, e)
  {
    var (phase, db) := Step(s.db, PhaseOf(s, e.who), e.action);
    System(db, s.requests[e.who := phase], if e.action.Mint? then s.minted[e.who := e.action.id] else s.minted)
  }

  function Execute(run: seq<Event>): Option<System> {
    if run == [] then Some(START)
    else
      var before, e := Execute(run[..|run| - 1]), run[|run| - 1];
      if before.Some? && Enabled(before.value, e) then Some(Apply(before.value, e)) else None
  }

  predicate Run(run: seq<Event>) {
    Execute(run).Some?
  }

  function After(run: seq<Event>): System
    requires Run(run)
  {
    Execute(run).value
  }

  // ----- Invariant --------------------------------------------------------------------------------

  /** The request committed this user row and this credentials row. */
  predicate Wrote(p: Phase, user: User, hash: string) {
    p == Done(Registered(user, hash)) || p == Done(Unconfirmed(user, hash))
  }

  predicate IsWriter(p: Phase) {
    p.Done? && (p.outcome.Registered? || p.outcome.Unconfirmed?)
  }

  /** The row a request is inserting or has inserted. */
  predicate HasUser(p: Phase) {
    p.Inserting? || InFlight(p) || IsWriter(p)
  }

  function UserOf(p: Phase): User
    requires HasUser(p)
  {
    if p.Done? then p.outcome.user else p.user
  }

  ghost predicate TablesOk(db: Tables) {
    && db.credentials.Keys == db.users.Keys
    && (forall id :: id in db.users ==> db.users[id].id == id && IsValidHandle(db.users[id].handle))
    && (forall i, j :: i in db.users && j in db.users && Fold(db.users[i].handle) == Fold(db.users[j].handle) ==> i == j)
  }

  ghost predicate PhaseOk(s: System, r: nat, p: Phase) {
    && (p.Checking? || p.Hashing? ==> r !in s.minted && IsValidHandle(p.handle))
    && (HasUser(p) ==> r in s.minted && s.minted[r] == UserOf(p).id && IsValidHandle(UserOf(p).handle))
    && (InFlight(p) ==> !Refused(s.db, p.user))
    && (IsWriter(p) ==>
          && UserOf(p).id in s.db.users && s.db.users[UserOf(p).id] == UserOf(p)
          && UserOf(p).id in s.db.credentials && s.db.credentials[UserOf(p).id] == p.outcome.hash)
    && (p.Done? && p.outcome.HandleTaken? ==>
          HandleHeld(s.db, p.outcome.handle) || (r in s.minted && s.minted[r] in s.db.users))
  }

  /** Two transactions with uncommitted or committed rows never share a key. */
  ghost predicate Apart(s: System) {
    forall r, q :: r in s.requests && q in s.requests && r != q && InFlight(s.requests[r]) && InFlight(s.requests[q]) ==>
      !SameKey(s.requests[r].user, s.requests[q].user)
  }

  /** Every committed row has the one request that wrote it. */
  ghost predicate RowsHaveWriters(s: System) {
    forall id :: id in s.db.users ==> exists r :: r in s.requests && IsWriter(s.requests[r]) && UserOf(s.requests[r]).id == id
  }

  ghost predicate OneWriterPerRow(s: System) {
    forall r, q :: r in s.requests && q in s.requests && r != q && IsWriter(s.requests[r]) && IsWriter(s.requests[q]) ==>
      UserOf(s.requests[r]).id != UserOf(s.requests[q]).id
  }

  ghost predicate Invariant(s: System) {
    && TablesOk(s.db)
    && (forall r :: r in s.requests ==> PhaseOk(s, r, s.requests[r]) && !s.requests[r].Idle?)
    && (forall r :: r in s.minted ==> r in s.requests)
    && Apart(s)
    && RowsHaveWriters(s)
    && OneWriterPerRow(s)
  }

  /** A committed row takes exactly its own two keys. */
  lemma RefusedAfterCommit(db: Tables, user: User, hash: string, other: User)
    requires user.id !in db.users
    ensures Refused(Committed(db, user, hash), other) <==> Refused(db, other) || SameKey(user, other)
    ensures HandleHeld(db, other.handle) ==> HandleHeld(Committed(db, user, hash), other.handle)
  {
    var db' := Committed(db, user, hash);
    if HandleHeld(db, other.handle) {
      var id :| id in db.users && Fold(db.users[id].handle) == Fold(other.handle);
      assert db'.users[id] == db.users[id];
    }
    if Fold(user.handle) == Fold(other.handle) {
      assert db'.users[user.id] == user;
    }
  }

  lemma CommitKeepsTables(db: Tables, user: User, hash: string)
    requires TablesOk(db) && !Refused(db, user) && IsValidHandle(user.handle)
    ensures TablesOk(Committed(db, user, hash))
  {
    var db' := Committed(db, user, hash);
    forall id | id in db'.users && id != user.id
      ensures id in db.users && Fold(db'.users[id].handle) != Fold(user.handle)
    {
    }
  }

  /** Another request's commit leaves this one's phase sound, if their uncommitted rows share no key. */
  lemma PhaseSurvives(s: System, s': System, r: nat, p: Phase, user: User, hash: string)
    requires PhaseOk(s, r, p) && user.id !in s.db.users && s'.minted == s.minted
    requires s'.db == Committed(s.db, user, hash)
    requires InFlight(p) ==> !SameKey(user, p.user)
    ensures PhaseOk(s', r, p)
  {
    if InFlight(p) {
      RefusedAfterCommit(s.db, user, hash, p.user);
    } else if p.Done? && p.outcome.HandleTaken? {
      RefusedAfterCommit(s.db, user, hash, User(0, p.outcome.handle, "", 0));
    }
  }

  /** What the invariant says of the request that steps. */
  ghost predicate StepperOk(s: System, who: nat) {
    && TablesOk(s.db)
    && (if who in s.requests then PhaseOk(s, who, s.requests[who]) && !s.requests[who].Idle? else who !in s.minted)
  }

  predicate Writes(action: Action) {
    action.Commit? || action.LoseReply?
  }

  /** The stepping request's new phase, when the step commits nothing. */
  lemma QuietStep(s: System, e: Event)
    requires StepperOk(s, e.who) && Enabled(s, e) && !Writes(e.action)
    ensures var s' := Apply(s, e);
            && s'.db == s.db
            && PhaseOk(s', e.who, s'.requests[e.who])
  {
  }

  lemma QuietStepMoves(s: System, e: Event)
    requires Enabled(s, e) && !Writes(e.action)
    ensures !Apply(s, e).requests[e.who].Idle?
    ensures !IsWriter(PhaseOf(s, e.who))
    ensures !IsWriter(Apply(s, e).requests[e.who])
    ensures Apply(s, e).requests == s.requests[e.who := Apply(s, e).requests[e.who]]
  {
  }

  /** Only a request that waited for its keys becomes in flight, so it stays apart from the others. */
  lemma QuietStepKeepsApart(s: System, e: Event)
    requires Apart(s) && Enabled(s, e) && !Writes(e.action)
    requires StepperOk(s, e.who)
    ensures Apart(Apply(s, e))
  {
    var s' := Apply(s, e);
    var p, p' := PhaseOf(s, e.who), s'.requests[e.who];
    QuietStepMoves(s, e);
    if InFlight(p') {
      assert p.Inserting? || InFlight(p);
      forall r | r in s.requests && r != e.who && InFlight(s.requests[r])
        ensures !SameKey(s.requests[r].user, p'.user)
      {
      }
    }
  }

  lemma QuietStepKeepsWriters(s: System, e: Event)
    requires RowsHaveWriters(s) && OneWriterPerRow(s) && Enabled(s, e) && !Writes(e.action)
    requires Apply(s, e).db == s.db
    ensures RowsHaveWriters(Apply(s, e)) && OneWriterPerRow(Apply(s, e))
  {
    var s' := Apply(s, e);
    QuietStepMoves(s, e);
    forall id | id in s'.db.users
      ensures exists r :: r in s'.requests && IsWriter(s'.requests[r]) && UserOf(s'.requests[r]).id == id
    {
      var r :| r in s.requests && IsWriter(s.requests[r]) && UserOf(s.requests[r]).id == id;
      assert s'.requests[r] == s.requests[r];
    }
  }

  lemma OthersKeepPhases(s: System, e: Event, r: nat)
    requires Enabled(s, e) && Apply(s, e).db == s.db
    requires r in s.requests && r != e.who && PhaseOk(s, r, s.requests[r])
    ensures PhaseOk(Apply(s, e), r, s.requests[r])
  {
    assert r in Apply(s, e).minted <==> r in s.minted;
  }

  lemma QuietStepKeepsInvariant(s: System, e: Event)
    requires Invariant(s) && Enabled(s, e) && !Writes(e.action)
    ensures Invariant(Apply(s, e))
  {
    var s' := Apply(s, e);
    QuietStep(s, e);
    QuietStepMoves(s, e);
    QuietStepKeepsApart(s, e);
    QuietStepKeepsWriters(s, e);
    forall r | r in s'.requests && r != e.who
      ensures PhaseOk(s', r, s'.requests[r]) && !s'.requests[r].Idle?
    {
      OthersKeepPhases(s, e, r);
    }
  }

  /** The row and the phase a commit leaves. */
  lemma CommitStep(s: System, e: Event)
    requires StepperOk(s, e.who) && Enabled(s, e) && Writes(e.action)
    ensures var p, s' := s.requests[e.who], Apply(s, e);
            && p.Committing? && !Refused(s.db, p.user) && IsValidHandle(p.user.handle)
            && s'.db == Committed(s.db, p.user, p.hash) && s'.minted == s.minted
            && s'.requests == s.requests[e.who := s'.requests[e.who]]
            && IsWriter(s'.requests[e.who]) && UserOf(s'.requests[e.who]) == p.user
            && PhaseOk(s', e.who, s'.requests[e.who])
  {
  }

  lemma CommitKeepsWriters(s: System, e: Event, s': System, user: User)
    requires RowsHaveWriters(s) && OneWriterPerRow(s) && e.who in s.requests && !IsWriter(s.requests[e.who])
    requires user.id !in s.db.users && s'.db.users == s.db.users[user.id := user]
    requires forall r :: r in s.requests && IsWriter(s.requests[r]) ==> UserOf(s.requests[r]).id in s.db.users
    requires e.who in s'.requests && s'.requests == s.requests[e.who := s'.requests[e.who]]
    requires IsWriter(s'.requests[e.who]) && UserOf(s'.requests[e.who]) == user
    ensures RowsHaveWriters(s') && OneWriterPerRow(s')
  {
    forall id | id in s'.db.users
      ensures exists r :: r in s'.requests && IsWriter(s'.requests[r]) && UserOf(s'.requests[r]).id == id
    {
      if id == user.id {
        assert IsWriter(s'.requests[e.who]);
      } else {
        var r :| r in s.requests && IsWriter(s.requests[r]) && UserOf(s.requests[r]).id == id;
        assert s'.requests[r] == s.requests[r];
      }
    }
  }

  lemma CommitKeepsPhases(s: System, e: Event, r: nat)
    requires StepperOk(s, e.who) && Apart(s) && Enabled(s, e) && Writes(e.action)
    requires r in s.requests && r != e.who && PhaseOk(s, r, s.requests[r])
    ensures PhaseOk(Apply(s, e), r, s.requests[r])
  {
    var p := s.requests[e.who];
    CommitStep(s, e);
    PhaseSurvives(s, Apply(s, e), r, s.requests[r], p.user, p.hash);
  }

  lemma WritersHaveRows(s: System)
    requires Invariant(s)
    ensures forall r :: r in s.requests && IsWriter(s.requests[r]) ==> UserOf(s.requests[r]).id in s.db.users
  {
    forall r | r in s.requests && IsWriter(s.requests[r])
      ensures UserOf(s.requests[r]).id in s.db.users
    {
      assert PhaseOk(s, r, s.requests[r]);
    }
  }

  lemma CommitKeepsApart(s: System, e: Event)
    requires Apart(s) && Enabled(s, e) && Writes(e.action)
    ensures Apart(Apply(s, e))
  {
    assert !InFlight(Apply(s, e).requests[e.who]);
  }

  lemma CommitKeepsInvariant(s: System, e: Event)
    requires Invariant(s) && Enabled(s, e) && Writes(e.action)
    ensures Invariant(Apply(s, e))
  {
    var p, s' := s.requests[e.who], Apply(s, e);
    CommitKeepsApart(s, e);
    CommitStep(s, e);
    CommitKeepsTables(s.db, p.user, p.hash);
    WritersHaveRows(s);
    CommitKeepsWriters(s, e, s', p.user);
    forall r | r in s'.requests && r != e.who
      ensures PhaseOk(s', r, s'.requests[r]) && !s'.requests[r].Idle?
    {
      CommitKeepsPhases(s, e, r);
    }
  }

  lemma {:induction false} RunKeepsInvariant(run: seq<Event>)
    requires Run(run)
    ensures Invariant(After(run))
  {
    if run != [] {
      var run0, e := run[..|run| - 1], run[|run| - 1];
      RunKeepsInvariant(run0);
      if Writes(e.action) {
        CommitKeepsInvariant(After(run0), e);
      } else {
        QuietStepKeepsInvariant(After(run0), e);
      }
    }
  }
}
