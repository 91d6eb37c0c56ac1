/**
 * The migration runner of `apply-migrations.ts` against a database that may fail at any query, or take a
 * query's effect and lose the reply, and what any number of such runs leave behind.
 */
module Migrations {
  import opened Prelude
  import Text

  datatype Migration = Migration(id: string, sql: string)

  /** The bookkeeping table's ids in insertion order, and every statement that took effect, in order. */
  datatype Database = Database(hasTable: bool, recorded: seq<string>, schema: seq<string>)

  const EMPTY := Database(false, [], [])

  // ---------------------------------------------------------------- splitting a file

  const MARKER := "--> statement-breakpoint"

  predicate IsWhitespace(c: char) {
    Text.IsBlankCode(c as int)
  }

  function TrimAll(parts: seq<string>): seq<string> {
    if parts == [] then [] else [Text.Trim(parts[0], IsWhitespace)] + TrimAll(parts[1..])
  }

  function NonEmpty(parts: seq<string>): (kept: seq<string>)
    ensures "" !in kept
  {
    if parts == [] then [] else if parts[0] == "" then NonEmpty(parts[1..]) else [parts[0]] + NonEmpty(parts[1..])
  }

  function SplitStatements(sql: string): seq<string> {
    NonEmpty(TrimAll(Text.Split(sql, MARKER)))
  }

  /** A migration as the database sees it. Splitting is pure, so the model splits the whole list up front. */
  datatype Script = Script(id: string, statements: seq<string>)

  function Parse(m: Migration): Script {
    Script(m.id, SplitStatements(m.sql))
  }

  function ParseAll(ms: seq<Migration>): seq<Script> {
    seq(|ms|, i requires 0 <= i < |ms| => Parse(ms[i]))
  }

  // ---------------------------------------------------------------- the database

  datatype Query = CreateTable | SelectIds | Begin | Execute(statement: string) | Record(id: string) | Commit | Rollback

  /** What goes wrong with one query: nothing, a failure without effect, or an effect whose reply is lost. */
  datatype Fault = Works | Fails | LosesReply

  datatype Failure = Failure

  /** `Aborted` is Postgres's failed transaction: it refuses everything until it ends. */
  datatype Transaction = Idle | Open(db: Database) | Aborted

  datatype Server = Server(committed: Database, tx: Transaction) {
    function View(): Database {
      if tx.Open? then tx.db else committed
    }

    /** Refusals of the server's own: an aborted transaction, a missing table, a duplicate primary key. */
    predicate Refuses(q: Query) {
      match q
      case Begin | Commit | Rollback => false
      case CreateTable | Execute(_) => tx.Aborted?
      case SelectIds => tx.Aborted? || !View().hasTable
      case Record(id) => tx.Aborted? || !View().hasTable || id in View().recorded
    }

    function Change(q: Query): Database {
      var db := View();
      match q
      case CreateTable => db.(hasTable := true)
      case Execute(statement) => db.(schema := db.schema + [statement])
      case Record(id) => db.(recorded := db.recorded + [id])
      case _ => db
    }

    function Serve(q: Query): Server {
      match q
      case Begin => if tx.Idle? then Server(committed, Open(committed)) else this
      case Commit => Server(View(), Idle)
      case Rollback => Server(committed, Idle)
      case _ => if tx.Open? then Server(committed, Open(Change(q))) else Server(Change(q), tx)
    }

    /** A failed query aborts an open transaction; a failed COMMIT or ROLLBACK ends it without effect. */
    function Fail(q: Query): Server {
      Server(committed, if q.Commit? || q.Rollback? || tx.Idle? then Idle else Aborted)
    }

    function Answer(q: Query, fault: Fault): Server {
      if Refuses(q) || fault.Fails? then Fail(q) else Serve(q)
    }
  }

  /** A pool over one database. `faults` decides the fate of each query ever sent. */
  class Connection {
    const faults: nat -> Fault
    var queries: nat
    var server: Server

    /** `pool.connect()`: whatever an earlier connection left open, the server has dropped. */
    method Connect()
      modifies this`server
      ensures server == Server(old(server.committed), Idle)
    {
      server := Server(server.committed, Idle);
    }

    method Query(q: Query) returns (rows: Result<seq<string>, Failure>)
      modifies this
      ensures var fault := faults(old(queries));
              && server == old(server).Answer(q, fault)
              && rows.Ok? == (!old(server).Refuses(q) && fault.Works?)
              && (rows.Ok? && q.SelectIds? ==> rows.value == old(server).View().recorded)
      ensures queries == old(queries) + 1
    {
      var fault := faults(queries);
      queries := queries + 1;
      rows := if server.Refuses(q) || !fault.Works? then Err(Failure)
              else if q.SelectIds? then Ok(server.View().recorded)
              else Ok([]);
      server := server.Answer(q, fault);
    }
  }

  // ---------------------------------------------------------------- one run

  function Ids(ms: seq<Script>): seq<string> {
    seq(|ms|, i requires 0 <= i < |ms| => ms[i].id)
  }

  /** The migrations a run still has to apply, in list order. */
  function Pending(done: set<string>, ms: seq<Script>): seq<Script> {
    PendingUpTo(done, ms, |ms|)
  }

  function PendingUpTo(done: set<string>, ms: seq<Script>, i: nat): seq<Script>
    requires i <= |ms|
  {
    if i == 0 then []
    else if ms[i - 1].id in done then PendingUpTo(done, ms, i - 1)
    else PendingUpTo(done, ms, i - 1) + [ms[i - 1]]
  }

  function AllStatements(ms: seq<Script>): seq<string> {
    if ms == [] then [] else AllStatements(ms[..|ms| - 1]) + ms[|ms| - 1].statements
  }

  predicate Distinct(ids: seq<string>) {
    ids == [] || (ids[|ids| - 1] !in ids[..|ids| - 1] && Distinct(ids[..|ids| - 1]))
  }

  function Recorded(db: Database): set<string> {
    set id | id in db.recorded
  }

  function Extended(db: Database, m: Script): Database {
    db.(recorded := db.recorded + [m.id], schema := db.schema + m.statements)
  }

  /** One migration took effect whole, under an id that was not recorded before. */
  predicate IsExtended(before: Database, m: Script, after: Database) {
    m.id !in before.recorded && after == Extended(before, m)
  }

  /** Exactly these migrations took effect, whole and in order, and each was recorded. */
  ghost predicate TookEffect(before: Database, ms: seq<Script>, after: Database) {
    && after.recorded == before.recorded + Ids(ms)
    && after.schema == before.schema + AllStatements(ms)
    && (Distinct(before.recorded) ==> Distinct(after.recorded))
  }

  /** The first `k` pending migrations took effect and nothing else happened. */
  ghost predicate Applied(before: Database, ms: seq<Script>, k: nat, after: Database) {
    k <= |Pending(Recorded(before), ms)| && TookEffect(before, Pending(Recorded(before), ms)[..k], after)
  }

  method RunStatements(client: Connection, statements: seq<string>) returns (r: Result<(), Failure>)
    requires client.server.tx == Open(client.server.committed)
    modifies client
    ensures var before := old(client.server.committed);
            && client.server.committed == before
            && (r.Ok? ==> client.server.tx == Open(before.(schema := before.schema + statements)))
    ensures (forall n :: client.faults(n).Works?) ==> r.Ok?
  {
    ghost var before := client.server.committed;
    var i := 0;
    assert before.schema + statements[..0] == before.schema;
    while i < |statements|
      invariant 0 <= i <= |statements|
      invariant client.server == Server(before, Open(before.(schema := before.schema + statements[..i])))
    {
      var sent := client.Query(Execute(statements[i]));
      if sent.Err? {
        return Err(Failure);
      }
      assert before.schema + statements[..i + 1] == before.schema + statements[..i] + [statements[i]];
      i := i + 1;
    }
    assert statements[..i] == statements;
    r := Ok(());
  }

  /** The `try` block: the statements one by one, the bookkeeping row, COMMIT. */
  method Attempt(client: Connection, script: Script) returns (r: Result<(), Failure>)
    requires client.server.tx == Open(client.server.committed)
    modifies client
    ensures var before := old(client.server.committed);
            && (client.server.committed == before || IsExtended(before, script, client.server.committed))
            && (r.Ok? ==> client.server.tx.Idle? && IsExtended(before, script, client.server.committed))
    ensures (
        && (forall n :: client.faults(n).Works?)
        && old(client.server.committed).hasTable
        && script.id !in old(client.server.committed).recorded
      ) ==> r.Ok?
  {
    r := RunStatements(client, script.statements);
    if r.Err? {
      return;
    }
    var recorded := client.Query(Record(script.id));
    if recorded.Err? {
      return Err(Failure);
    }
    var committed := client.Query(Commit);
    r := if committed.Ok? then Ok(()) else Err(Failure);
  }

  lemma {:induction false} PendingIsPrefix(done: set<string>, ms: seq<Script>, i: nat)
    requires i <= |ms|
    ensures |PendingUpTo(done, ms, i)| <= |Pending(done, ms)|
    ensures Pending(done, ms)[..|PendingUpTo(done, ms, i)|] == PendingUpTo(done, ms, i)
    decreases |ms| - i
  {
    if i < |ms| {
      PendingIsPrefix(done, ms, i + 1);
      var shorter := |PendingUpTo(done, ms, i)|;
      assert Pending(done, ms)[..shorter] == PendingUpTo(done, ms, i + 1)[..shorter];
    }
  }

  lemma OneMore(ms: seq<Script>, m: Script)
    ensures Ids(ms + [m]) == Ids(ms) + [m.id]
    ensures AllStatements(ms + [m]) == AllStatements(ms) + m.statements
  {
    assert (ms + [m])[..|ms|] == ms;
  }

  lemma DistinctSnoc(ids: seq<string>, id: string)
    ensures Distinct(ids + [id]) <==> Distinct(ids) && id !in ids
  {
    assert (ids + [id])[..|ids|] == ids;
  }

  lemma Associates<T>(a: seq<T>, b: seq<T>, c: seq<T>)
    ensures (a + b) + c == a + (b + c)
  {
  }

  lemma TookOneMore(before: Database, ms: seq<Script>, m: Script, now: Database)
    requires TookEffect(before, ms, now) && m.id !in now.recorded
    ensures TookEffect(before, ms + [m], Extended(now, m))
    ensures Ids(ms + [m]) == Ids(ms) + [m.id]
  {
    OneMore(ms, m);
    DistinctSnoc(now.recorded, m.id);
    Associates(before.recorded, Ids(ms), [m.id]);
    Associates(before.schema, AllStatements(ms), m.statements);
  }

  lemma TookNext(before: Database, ms: seq<Script>, i: nat, now: Database)
    requires i < |ms| && ms[i].id !in Recorded(before) && ms[i].id !in now.recorded
    requires TookEffect(before, PendingUpTo(Recorded(before), ms, i), now)
    ensures var pending := PendingUpTo(Recorded(before), ms, i + 1);
            && TookEffect(before, pending, Extended(now, ms[i]))
            && Ids(pending) == Ids(PendingUpTo(Recorded(before), ms, i)) + [ms[i].id]
  {
    TookOneMore(before, PendingUpTo(Recorded(before), ms, i), ms[i], now);
  }

  /** An interrupted run stopped inside the list of pending migrations. */
  lemma Stopped(before: Database, ms: seq<Script>, i: nat, after: Database)
    requires i <= |ms| && TookEffect(before, PendingUpTo(Recorded(before), ms, i), after)
    ensures Applied(before, ms, |PendingUpTo(Recorded(before), ms, i)|, after)
  {
    PendingIsPrefix(Recorded(before), ms, i);
  }

  /** BEGIN, the attempt, and ROLLBACK when it fails. */
  method ApplyOne(client: Connection, script: Script) returns (r: Result<(), Failure>)
    requires client.server.tx.Idle?
    modifies client
    ensures var before := old(client.server.committed);
            && (client.server.committed == before || IsExtended(before, script, client.server.committed))
            && (r.Ok? ==> client.server.tx.Idle? && IsExtended(before, script, client.server.committed))
    ensures (
        && (forall n :: client.faults(n).Works?)
        && old(client.server.committed).hasTable
        && script.id !in old(client.server.committed).recorded
      ) ==> r.Ok?
  {
    var begun := client.Query(Begin);
    if begun.Err? {
      return Err(Failure);
    }
    r := Attempt(client, script);
    if r.Err? {
      var rolledBack := client.Query(Rollback);
    }
  }

  lemma {:induction false} PendingIsListed(done: set<string>, ms: seq<Script>, i: nat)
    requires i <= |ms|
    ensures forall m :: m in PendingUpTo(done, ms, i) ==> m in ms[..i]
  {
    if i > 0 {
      PendingIsListed(done, ms, i - 1);
    }
  }

  lemma {:induction false} DistinctAt(ids: seq<string>, i: nat)
    requires Distinct(ids) && i < |ids|
    ensures ids[i] !in ids[..i]
    decreases |ids|
  {
    if i < |ids| - 1 {
      DistinctAt(ids[..|ids| - 1], i);
      assert ids[..|ids| - 1][..i] == ids[..i];
    }
  }

  /** With distinct ids, the bookkeeping insert never meets its own key. */
  lemma InsertIsAllowed(before: Database, ms: seq<Script>, i: nat, now: Database)
    requires i < |ms| && Distinct(Ids(ms)) && ms[i].id !in Recorded(before)
    requires now.recorded == before.recorded + Ids(PendingUpTo(Recorded(before), ms, i))
    ensures ms[i].id !in now.recorded
  {
    var pending := PendingUpTo(Recorded(before), ms, i);
    PendingIsListed(Recorded(before), ms, i);
    DistinctAt(Ids(ms), i);
    forall k | 0 <= k < |pending|
      ensures pending[k].id != ms[i].id
    {
      assert pending[k] in ms[..i];
      var j :| 0 <= j < i && ms[j] == pending[k];
      assert Ids(ms)[..i][j] == ms[j].id;
    }
  }

  /** One run. It ends after some number of whole migrations, all of them when it returns a list. */
  method ApplyMigrations(client: Connection, migrations: seq<Migration>) returns (r: Result<seq<string>, Failure>)
    modifies client
    ensures exists k :: Applied(old(client.server.committed), ParseAll(migrations), k, client.server.committed)
    ensures r.Ok? ==>
              var pending := Pending(Recorded(old(client.server.committed)), ParseAll(migrations));
              && Applied(old(client.server.committed), ParseAll(migrations), |pending|, client.server.committed)
              && r.value == Ids(pending)
    ensures (forall n :: client.faults(n).Works?) && Distinct(Ids(ParseAll(migrations))) ==> r.Ok?
  {
    client.Connect();
    ghost var before := client.server.committed;
    var scripts := ParseAll(migrations);
    r := Err(Failure);
    var created := client.Query(CreateTable);
    Stopped(before, scripts, 0, client.server.committed);
    if created.Err? {
      return;
    }
    var rows := client.Query(SelectIds);
    if rows.Err? {
      return;
    }
    var done := set id | id in rows.value;
    assert done == Recorded(before);
    r := ApplyPending(client, scripts, done, before);
  }

  /** The loop over the list, with the ids read before it started. */
  method ApplyPending(client: Connection, scripts: seq<Script>, done: set<string>, ghost before: Database)
    returns (r: Result<seq<string>, Failure>)
    requires client.server.tx.Idle? && client.server.committed.hasTable
    requires done == Recorded(before) && TookEffect(before, [], client.server.committed)
    modifies client
    ensures exists k :: Applied(before, scripts, k, client.server.committed)
    ensures r.Ok? ==> Applied(before, scripts, |Pending(done, scripts)|, client.server.committed)
    ensures r.Ok? ==> r.value == Ids(Pending(done, scripts))
    ensures (forall n :: client.faults(n).Works?) && Distinct(Ids(scripts)) ==> r.Ok?
  {
    ghost var distinct := Distinct(Ids(scripts));
    var applied: seq<string> := [];
    var i := 0;
    while i < |scripts|
      invariant 0 <= i <= |scripts|
      invariant client.server.tx.Idle? && client.server.committed.hasTable
      invariant TookEffect(before, PendingUpTo(done, scripts, i), client.server.committed)
      invariant applied == Ids(PendingUpTo(done, scripts, i))
    {
      if scripts[i].id !in done {
        ghost var now := client.server.committed;
        if distinct {
          InsertIsAllowed(before, scripts, i, now);
        }
        var attempt := ApplyOne(client, scripts[i]);
        ghost var extended := IsExtended(now, scripts[i], client.server.committed);
        if extended {
          TookNext(before, scripts, i, now);
        }
        if attempt.Err? {
          Stopped(before, scripts, if extended then i + 1 else i, client.server.committed);
          return Err(Failure);
        }
        applied := applied + [scripts[i].id];
      }
      i := i + 1;
    }
    Stopped(before, scripts, i, client.server.committed);
    r := Ok(applied);
  }

  // ---------------------------------------------------------------- the statements of a file

  predicate IsBlankText(s: string) {
    forall i :: 0 <= i < |s| ==> IsWhitespace(s[i])
  }

  /** `kept` are the texts at the positions `at`, in order: all but the empty ones. */
  predicate AreThoseAt(kept: seq<string>, texts: seq<string>, at: seq<nat>) {
    && |at| == |kept|
    && (forall k :: 0 <= k < |at| ==> at[k] < |texts| && kept[k] == texts[at[k]])
    && (forall j, k :: 0 <= j < k < |at| ==> at[j] < at[k])
    && (forall i :: 0 <= i < |texts| ==> (i in at <==> texts[i] != ""))
  }

  function Shifted(at: seq<nat>): seq<nat> {
    seq(|at|, k requires 0 <= k < |at| => at[k] + 1)
  }

  lemma InShifted(at: seq<nat>, i: nat)
    ensures i in Shifted(at) <==> i > 0 && i - 1 in at
  {
    if i > 0 && i - 1 in at {
      var k :| 0 <= k < |at| && at[k] == i - 1;
      assert Shifted(at)[k] == i;
    }
  }

  lemma EmptyInFront(kept: seq<string>, texts: seq<string>, at: seq<nat>)
    requires AreThoseAt(kept, texts, at)
    ensures AreThoseAt(kept, [""] + texts, Shifted(at))
  {
    var texts' := [""] + texts;
    forall i: nat | i < |texts'|
      ensures i in Shifted(at) <==> texts'[i] != ""
    {
      InShifted(at, i);
    }
  }

  lemma OneInFront(kept: seq<string>, first: string, texts: seq<string>, at: seq<nat>)
    requires AreThoseAt(kept, texts, at) && first != ""
    ensures AreThoseAt([first] + kept, [first] + texts, [0] + Shifted(at))
  {
    var texts', at' := [first] + texts, [0] + Shifted(at);
    forall i: nat | i < |texts'|
      ensures i in at' <==> texts'[i] != ""
    {
      InShifted(at, i);
      assert i in at' <==> i == 0 || i in Shifted(at);
    }
    forall j, k | 0 <= j < k < |at'|
      ensures at'[j] < at'[k]
    {
      assert at'[k] == at[k - 1] + 1;
      assert j > 0 ==> at'[j] == at[j - 1] + 1;
    }
  }

  lemma {:induction false} KeptTexts(texts: seq<string>) returns (at: seq<nat>)
    ensures AreThoseAt(NonEmpty(texts), texts, at)
  {
    if texts == [] {
      at := [];
    } else {
      var rest := KeptTexts(texts[1..]);
      assert [texts[0]] + texts[1..] == texts;
      if texts[0] == "" {
        EmptyInFront(NonEmpty(texts[1..]), texts[1..], rest);
        at := Shifted(rest);
      } else {
        OneInFront(NonEmpty(texts[1..]), texts[0], texts[1..], rest);
        at := [0] + Shifted(rest);
      }
    }
  }

  lemma {:induction false} TrimsEach(parts: seq<string>, i: nat)
    requires i < |parts|
    ensures |TrimAll(parts)| == |parts| && TrimAll(parts)[i] == Text.Trim(parts[i], IsWhitespace)
  {
    if |parts| > 1 {
      TrimsEach(parts[1..], if i > 0 then i - 1 else 0);
    }
  }

  /** The statements of a file are its parts between markers, trimmed, in order, all but the blank ones. */
  lemma StatementsAreTheParts(sql: string) returns (at: seq<nat>)
    ensures var parts := Text.Split(sql, MARKER);
            && |at| == |SplitStatements(sql)|
            && (forall k :: 0 <= k < |at| ==> at[k] < |parts| && SplitStatements(sql)[k] == Text.Trim(parts[at[k]], IsWhitespace))
            && (forall j, k :: 0 <= j < k < |at| ==> at[j] < at[k])
            && (forall i :: 0 <= i < |parts| ==> (i in at <==> !IsBlankText(parts[i])))
  {
    var parts := Text.Split(sql, MARKER);
    at := KeptTexts(TrimAll(parts));
    forall i: nat | i < |parts|
      ensures |TrimAll(parts)| == |parts| && TrimAll(parts)[i] == Text.Trim(parts[i], IsWhitespace)
      ensures TrimAll(parts)[i] != "" <==> !IsBlankText(parts[i])
    {
      TrimsEach(parts, i);
      Text.TrimmedAway(parts[i], IsWhitespace);
    }
    assert parts[0] == parts[0];
  }

  /** No statement is empty, starts or ends blank, or still holds a marker. */
  lemma StatementsAreClean(sql: string, st: string)
    requires st in SplitStatements(sql)
    ensures st != "" && !IsWhitespace(st[0]) && !IsWhitespace(st[|st| - 1]) && !Text.Contains(st, MARKER)
  {
    var at := StatementsAreTheParts(sql);
    var k :| 0 <= k < |at| && SplitStatements(sql)[k] == st;
    Text.PiecesLackSeparator(sql, MARKER);
    var part := Text.Split(sql, MARKER)[at[k]];
    Text.TrimmedAway(part, IsWhitespace);
    TrimKeepsOut(part, MARKER);
  }

  lemma TrimKeepsOut(part: string, separator: string)
    requires !Text.Contains(part, separator)
    ensures !Text.Contains(Text.Trim(part, IsWhitespace), separator)
  {
    var from := Text.SkipBlanks(part, IsWhitespace, 0);
    var to := Text.DropBlanks(part, IsWhitespace, from, |part|);
    forall i: nat | i + |separator| <= to - from
      ensures !Text.ContainsAt(part[from..to], separator, i)
    {
      Text.ContainsShift(part, from, to, separator, i);
    }
  }

  lemma MarkerIsBorderless()
    ensures Text.Borderless(MARKER)
  {
    forall d | 0 < d < |MARKER|
      ensures MARKER[d..] != MARKER[..|MARKER| - d]
    {
      assert MARKER[0] == '-' && MARKER[1] == '-';
      assert d == 1 ==> MARKER[d..][1] != '-';
      assert MARKER[d..][0] == '-' ==> d == 1 || d == 13;
      assert d == 13 ==> MARKER[d..][1] != '-';
    }
  }

  /** A statement as a migration file has it: not blank at either end, and without a marker. */
  ghost predicate IsStatement(s: string) {
    s != "" && !IsWhitespace(s[0]) && !IsWhitespace(s[|s| - 1]) && !Text.Contains(s, MARKER)
  }

  /** The statement with blanks around it. */
  ghost predicate Holds(part: string, statement: string) {
    exists before, after :: IsBlankText(before) && IsBlankText(after) && part == before + statement + after
  }

  lemma PaddingHoldsNoMarker(before: string, s: string, after: string)
    requires IsStatement(s) && IsBlankText(before) && IsBlankText(after)
    ensures !Text.Contains(before + s + after, MARKER)
  {
    var padded := before + s + after;
    assert !IsWhitespace(MARKER[0]) && !IsWhitespace(MARKER[|MARKER| - 1]);
    forall i: nat | i + |MARKER| <= |padded|
      ensures !Text.ContainsAt(padded, MARKER, i)
    {
      if Text.ContainsAt(padded, MARKER, i) {
        assert padded[i] == MARKER[0] && padded[i + |MARKER| - 1] == MARKER[|MARKER| - 1];
        assert |before| <= i && i + |MARKER| <= |before| + |s|;
        assert padded[|before|..|before| + |s|] == s;
        Text.ContainsShift(padded, |before|, |before| + |s|, MARKER, i - |before|);
        assert false;
      }
    }
  }

  /** The file is these statements, blanks around each, with markers between. */
  ghost predicate IsFileOf(sql: string, parts: seq<string>, statements: seq<string>) {
    && |parts| == |statements| > 0 && sql == Text.Join(parts, MARKER)
    && forall k :: 0 <= k < |parts| ==> IsStatement(statements[k]) && Holds(parts[k], statements[k])
  }

  lemma {:induction false} StatementsStay(parts: seq<string>, statements: seq<string>)
    requires |parts| == |statements|
    requires forall k :: 0 <= k < |parts| ==> statements[k] != "" && Text.Trim(parts[k], IsWhitespace) == statements[k]
    ensures NonEmpty(TrimAll(parts)) == statements
  {
    if parts != [] {
      StatementsStay(parts[1..], statements[1..]);
      assert TrimAll(parts)[1..] == TrimAll(parts[1..]);
      assert statements == [statements[0]] + statements[1..];
    }
  }

  /** Such a file splits back into exactly its statements, in order. */
  lemma StatementsComeBack(sql: string, parts: seq<string>, statements: seq<string>)
    requires IsFileOf(sql, parts, statements)
    ensures SplitStatements(sql) == statements
  {
    forall k | 0 <= k < |parts|
      ensures !Text.Contains(parts[k], MARKER) && Text.Trim(parts[k], IsWhitespace) == statements[k]
    {
      var before, after :| IsBlankText(before) && IsBlankText(after) && parts[k] == before + statements[k] + after;
      PaddingHoldsNoMarker(before, statements[k], after);
      Text.TrimsPadding(before, statements[k], after, IsWhitespace);
    }
    MarkerIsBorderless();
    Text.SplitJoin(parts, MARKER);
    StatementsStay(parts, statements);
  }

  lemma StatementsOfFile(sql: string, statements: seq<string>)
    requires LaysOut(sql, statements)
    ensures SplitStatements(sql) == statements
  {
    var parts :| IsFileOf(sql, parts, statements);
    StatementsComeBack(sql, parts, statements);
  }

  function Concat(files: seq<seq<string>>): seq<string> {
    if files == [] then [] else Concat(files[..|files| - 1]) + files[|files| - 1]
  }

  ghost predicate LaysOut(sql: string, statements: seq<string>) {
    exists parts :: IsFileOf(sql, parts, statements)
  }

  ghost predicate AreFilesOf(ms: seq<Migration>, files: seq<seq<string>>) {
    |ms| == |files| && forall k :: 0 <= k < |ms| ==> LaysOut(ms[k].sql, files[k])
  }

  lemma {:induction false} AllStatementsOfFiles(ms: seq<Migration>, files: seq<seq<string>>)
    requires AreFilesOf(ms, files)
    ensures AllStatements(ParseAll(ms)) == Concat(files)
  {
    if ms != [] {
      var n := |ms| - 1;
      AllStatementsOfFiles(ms[..n], files[..n]);
      StatementsOfFile(ms[n].sql, files[n]);
      assert ParseAll(ms)[..n] == ParseAll(ms[..n]);
    }
  }

  // ---------------------------------------------------------------- any number of runs

  /** One start of the service: the list it shipped with, how far its run came, and whether it returned. */
  datatype Deployment = Deployment(list: seq<Script>, applied: nat, succeeded: bool)

  ghost predicate IsRun(before: Database, d: Deployment, after: Database) {
    && Applied(before, d.list, d.applied, after)
    && (d.succeeded ==> d.applied == |Pending(Recorded(before), d.list)|)
  }

  /** Runs from an empty database, with lists that only grow at the end. */
  ghost predicate IsHistory(runs: seq<Deployment>, dbs: seq<Database>) {
    && |dbs| == |runs| + 1
    && dbs[0] == EMPTY
    && (forall i :: 0 <= i < |runs| ==> IsRun(dbs[i], runs[i], dbs[i + 1]))
    && (forall i :: 0 < i < |runs| ==> runs[i - 1].list <= runs[i].list)
  }

  /** The recorded migrations are a prefix of the list, and exactly their statements took effect, once, in order. */
  ghost predicate IsCleanPrefix(db: Database, ms: seq<Script>) {
    var n := |db.recorded|;
    n <= |ms| && db.recorded == Ids(ms[..n]) && db.schema == AllStatements(ms[..n])
  }

  /** The migrations of a list without those that repeat an earlier id. */
  function Firsts(ms: seq<Script>): (fs: seq<Script>)
    ensures |fs| <= |ms|
  {
    FirstsUpTo(ms, |ms|)
  }

  function FirstsUpTo(ms: seq<Script>, i: nat): (fs: seq<Script>)
    requires i <= |ms|
    ensures |fs| <= i
  {
    if i == 0 then []
    else
      var before := FirstsUpTo(ms, i - 1);
      if ms[i - 1].id in Ids(before) then before else before + [ms[i - 1]]
  }

  lemma {:induction false} FirstsOfPrefix(ms: seq<Script>, longer: seq<Script>, i: nat)
    requires i <= |ms| && ms <= longer
    ensures FirstsUpTo(ms, i) == FirstsUpTo(longer, i)
  {
    if i > 0 {
      FirstsOfPrefix(ms, longer, i - 1);
      assert ms[i - 1] == longer[i - 1];
    }
  }

  lemma {:induction false} FirstsGrow(ms: seq<Script>, i: nat, j: nat)
    requires i <= j <= |ms|
    ensures FirstsUpTo(ms, i) <= FirstsUpTo(ms, j)
  {
    if i < j {
      FirstsGrow(ms, i, j - 1);
    }
  }

  lemma {:induction false} FirstsAreDistinct(ms: seq<Script>, i: nat)
    requires i <= |ms|
    ensures Distinct(Ids(FirstsUpTo(ms, i)))
  {
    if i > 0 {
      var before := FirstsUpTo(ms, i - 1);
      FirstsAreDistinct(ms, i - 1);
      OneMore(before, ms[i - 1]);
      DistinctSnoc(Ids(before), ms[i - 1].id);
    }
  }

  /** Nothing is dropped from a list of distinct ids. */
  lemma {:induction false} FirstsOfDistinct(ms: seq<Script>, i: nat)
    requires i <= |ms| && Distinct(Ids(ms[..i]))
    ensures FirstsUpTo(ms, i) == ms[..i]
  {
    if i > 0 {
      var before, m := ms[..i - 1], ms[i - 1];
      assert ms[..i] == before + [m];
      OneMore(before, m);
      DistinctSnoc(Ids(before), m.id);
      FirstsOfDistinct(ms, i - 1);
    }
  }

  lemma RecordedExactly(ids: seq<string>, n: nat, i: nat)
    requires Distinct(ids) && n <= |ids| && i < |ids|
    ensures ids[i] in ids[..n] <==> i < n
  {
    if i < n {
      assert ids[..n][i] == ids[i];
    } else {
      DistinctAt(ids, i);
      assert forall j :: 0 <= j < n ==> ids[..i][j] == ids[..n][j];
    }
  }

  lemma IdsOfPrefix(ms: seq<Script>, n: nat)
    requires n <= |ms|
    ensures Ids(ms[..n]) == Ids(ms)[..n]
  {
  }

  lemma {:induction false} StatementsAppend(a: seq<Script>, b: seq<Script>)
    ensures AllStatements(a + b) == AllStatements(a) + AllStatements(b)
  {
    if b == [] {
      assert a + b == a;
    } else {
      var init, last := b[..|b| - 1], b[|b| - 1];
      StatementsAppend(a, init);
      OneMore(a + init, last);
      assert a + b == (a + init) + [last];
      Associates(AllStatements(a), AllStatements(init), last.statements);
    }
  }

  lemma {:induction false} EveryFirstIsPending(ms: seq<Script>, n: nat, done: set<string>, i: nat)
    requires n <= |Firsts(ms)| && i <= |ms| && done == set id | id in Ids(Firsts(ms)[..n])
    ensures |PendingUpTo(done, ms, i)| >= |FirstsUpTo(ms, i)| - n
  {
    if i > 0 {
      EveryFirstIsPending(ms, n, done, i - 1);
      NextFirstIsPending(ms, n, done, i - 1);
    }
  }

  lemma NextFirstIsPending(ms: seq<Script>, n: nat, done: set<string>, i: nat)
    requires n <= |Firsts(ms)| && i < |ms| && done == set id | id in Ids(Firsts(ms)[..n])
    requires |PendingUpTo(done, ms, i)| >= |FirstsUpTo(ms, i)| - n
    ensures |PendingUpTo(done, ms, i + 1)| >= |FirstsUpTo(ms, i + 1)| - n
  {
    if ms[i].id !in Ids(FirstsUpTo(ms, i)) {
      FirstIsDoneExactlyWhen(ms, n, done, i);
    }
  }

  /** The next first occurrence is recorded exactly when it is among the first `n` of them. */
  lemma FirstIsDoneExactlyWhen(ms: seq<Script>, n: nat, done: set<string>, i: nat)
    requires n <= |Firsts(ms)| && i < |ms| && done == set id | id in Ids(Firsts(ms)[..n])
    requires ms[i].id !in Ids(FirstsUpTo(ms, i))
    ensures ms[i].id in done <==> |FirstsUpTo(ms, i)| < n
    ensures |FirstsUpTo(ms, i)| < |Firsts(ms)| && Firsts(ms)[|FirstsUpTo(ms, i)|] == ms[i]
  {
    var fs, q := Firsts(ms), |FirstsUpTo(ms, i)|;
    FirstsGrow(ms, i + 1, |ms|);
    FirstsAreDistinct(ms, |ms|);
    assert fs[q] == FirstsUpTo(ms, i + 1)[q] == ms[i];
    IdsOfPrefix(fs, n);
    RecordedExactly(Ids(fs), n, q);
  }

  lemma PrefixGrows(ms: seq<Script>, n: nat, k: nat)
    requires n + k <= |ms|
    ensures Ids(ms[..n + k]) == Ids(ms[..n]) + Ids(ms[n..][..k])
    ensures AllStatements(ms[..n + k]) == AllStatements(ms[..n]) + AllStatements(ms[n..][..k])
  {
    assert ms[..n + k] == ms[..n] + ms[n..][..k];
    StatementsAppend(ms[..n], ms[n..][..k]);
  }

  lemma {:induction false} DistinctPrefix(ids: seq<string>, n: nat)
    requires Distinct(ids) && n <= |ids|
    ensures Distinct(ids[..n])
    decreases |ids|
  {
    if n < |ids| {
      DistinctPrefix(ids[..|ids| - 1], n);
      assert ids[..|ids| - 1][..n] == ids[..n];
    } else {
      assert ids[..n] == ids;
    }
  }

  lemma {:induction false} DistinctSuffix(a: seq<string>, b: seq<string>)
    requires Distinct(a + b)
    ensures Distinct(b)
  {
    if b != [] {
      var init := b[..|b| - 1];
      assert (a + b)[..|a + b| - 1] == a + init;
      DistinctSuffix(a, init);
      assert b[|b| - 1] !in a + init;
    }
  }

  lemma NewToBothParts(fs: seq<Script>, n: nat, q: nat, pending: seq<Script>, id: string)
    requires n <= |fs| && q <= |fs| && id !in Ids(fs[..n]) && id !in Ids(pending)
    requires n + |pending| <= |fs| && pending == fs[n..n + |pending|] && q <= n + |pending|
    ensures id !in Ids(fs[..q])
  {
    forall j | 0 <= j < q
      ensures fs[j].id != id
    {
      if j < n {
        assert Ids(fs[..n])[j] == fs[j].id;
      } else {
        assert Ids(pending)[j - n] == pending[j - n].id == fs[j].id;
      }
    }
  }

  /** These are the first occurrences from the `n`-th on, found among the first `i` migrations. */
  predicate AreNextFirsts(ms: seq<Script>, n: nat, i: nat, pending: seq<Script>)
    requires i <= |ms|
  {
    && n + |pending| <= |Firsts(ms)| && pending == Firsts(ms)[n..n + |pending|]
    && (|pending| > 0 ==> n + |pending| <= |FirstsUpTo(ms, i)|)
  }

  /** When the first occurrences so far are recorded or pending, a new pending id is the next of them. */
  lemma NewPendingIsFirst(ms: seq<Script>, n: nat, done: set<string>, i: nat, pending: seq<Script>)
    requires n <= |Firsts(ms)| && i < |ms| && done == set id | id in Ids(Firsts(ms)[..n])
    requires ms[i].id !in done && ms[i].id !in Ids(pending)
    requires |pending| >= |FirstsUpTo(ms, i)| - n && AreNextFirsts(ms, n, i, pending)
    ensures ms[i].id !in Ids(FirstsUpTo(ms, i)) && |FirstsUpTo(ms, i)| == n + |pending| < |Firsts(ms)|
    ensures Firsts(ms)[n + |pending|] == ms[i]
  {
    FirstsGrow(ms, i, |ms|);
    assert FirstsUpTo(ms, i) == Firsts(ms)[..|FirstsUpTo(ms, i)|];
    NewToBothParts(Firsts(ms), n, |FirstsUpTo(ms, i)|, pending, ms[i].id);
    FirstIsDoneExactlyWhen(ms, n, done, i);
  }

  lemma NextPendingIsNextFirst(ms: seq<Script>, n: nat, i: nat, pending: seq<Script>)
    requires i < |ms| && AreNextFirsts(ms, n, i, pending) && ms[i].id !in Ids(FirstsUpTo(ms, i))
    requires |FirstsUpTo(ms, i)| == n + |pending| < |Firsts(ms)| && Firsts(ms)[n + |pending|] == ms[i]
    ensures AreNextFirsts(ms, n, i + 1, pending + [ms[i]])
  {
    SliceSnoc(Firsts(ms), n, n + |pending|);
  }

  /** Up to `i`, no pending migration repeats the id of an earlier pending one. */
  predicate NoRepeats(done: set<string>, ms: seq<Script>, i: nat)
    requires i <= |ms|
  {
    i == 0
    || (NoRepeats(done, ms, i - 1) && (ms[i - 1].id in done || ms[i - 1].id !in Ids(PendingUpTo(done, ms, i - 1))))
  }

  lemma {:induction false} DistinctMeansNoRepeats(done: set<string>, ms: seq<Script>, i: nat)
    requires i <= |ms| && Distinct(Ids(PendingUpTo(done, ms, i)))
    ensures NoRepeats(done, ms, i)
  {
    if i > 0 {
      var before, m := PendingUpTo(done, ms, i - 1), ms[i - 1];
      if m.id !in done {
        OneMore(before, m);
        DistinctSnoc(Ids(before), m.id);
      }
      DistinctMeansNoRepeats(done, ms, i - 1);
    }
  }

  /** While no pending id repeats, what is pending is the next first occurrences. */
  lemma PendingGoesOn(ms: seq<Script>, n: nat, done: set<string>, i: nat, pending: seq<Script>)
    requires n <= |Firsts(ms)| && i < |ms| && done == set id | id in Ids(Firsts(ms)[..n])
    requires ms[i].id !in done && ms[i].id !in Ids(pending)
    requires |pending| >= |FirstsUpTo(ms, i)| - n && AreNextFirsts(ms, n, i, pending)
    ensures AreNextFirsts(ms, n, i + 1, pending + [ms[i]])
  {
    NewPendingIsFirst(ms, n, done, i, pending);
    NextPendingIsNextFirst(ms, n, i, pending);
  }

  lemma {:induction false} PendingAreFirsts(ms: seq<Script>, n: nat, done: set<string>, i: nat)
    requires n <= |Firsts(ms)| && i <= |ms| && done == set id | id in Ids(Firsts(ms)[..n])
    requires NoRepeats(done, ms, i)
    ensures AreNextFirsts(ms, n, i, PendingUpTo(done, ms, i))
  {
    if i > 0 {
      PendingAreFirsts(ms, n, done, i - 1);
      if ms[i - 1].id in done {
        FirstsGrow(ms, i - 1, i);
      } else {
        EveryFirstIsPending(ms, n, done, i - 1);
        PendingGoesOn(ms, n, done, i - 1, PendingUpTo(done, ms, i - 1));
      }
    }
  }

  lemma SliceSnoc(fs: seq<Script>, n: nat, q: nat)
    requires n <= q < |fs|
    ensures fs[n..q + 1] == fs[n..q] + [fs[q]]
  {
  }

  /** Some prefix of the list has exactly the first `k` pending migrations in it. */
  lemma {:induction false} PendingReaches(done: set<string>, ms: seq<Script>, i: nat, k: nat) returns (j: nat)
    requires i <= |ms| && k <= |PendingUpTo(done, ms, i)|
    ensures j <= i && |PendingUpTo(done, ms, j)| == k
  {
    if k == |PendingUpTo(done, ms, i)| {
      j := i;
    } else {
      j := PendingReaches(done, ms, i - 1, k);
    }
  }

  /** What a run applies behind a clean prefix is the next first occurrences, all of them if it gets through. */
  lemma RunAppliesFirsts(db: Database, ms: seq<Script>, k: nat)
    requires IsCleanPrefix(db, Firsts(ms)) && k <= |Pending(Recorded(db), ms)|
    requires Distinct(Ids(Pending(Recorded(db), ms)[..k]))
    ensures var n := |db.recorded|;
            && n + k <= |Firsts(ms)| && Pending(Recorded(db), ms)[..k] == Firsts(ms)[n..n + k]
            && (k == |Pending(Recorded(db), ms)| ==> n + k == |Firsts(ms)|)
  {
    var n, done := |db.recorded|, Recorded(db);
    var i := PendingReaches(done, ms, |ms|, k);
    PendingIsPrefix(done, ms, i);
    DistinctMeansNoRepeats(done, ms, i);
    PendingAreFirsts(ms, n, done, i);
    EveryFirstIsPending(ms, n, done, |ms|);
  }

  lemma NewIdsAreDistinct(before: Database, ms: seq<Script>, k: nat, after: Database)
    requires IsCleanPrefix(before, Firsts(ms)) && Applied(before, ms, k, after)
    ensures Distinct(Ids(Pending(Recorded(before), ms)[..k]))
  {
    FirstsAreDistinct(ms, |ms|);
    IdsOfPrefix(Firsts(ms), |before.recorded|);
    DistinctPrefix(Ids(Firsts(ms)), |before.recorded|);
    DistinctSuffix(before.recorded, Ids(Pending(Recorded(before), ms)[..k]));
  }

  /** A run continues where the last one stopped. */
  lemma RunKeepsCleanPrefix(before: Database, ms: seq<Script>, k: nat, after: Database)
    requires IsCleanPrefix(before, Firsts(ms)) && Applied(before, ms, k, after)
    ensures IsCleanPrefix(after, Firsts(ms)) && |after.recorded| == |before.recorded| + k
    ensures k == |Pending(Recorded(before), ms)| ==> |after.recorded| == |Firsts(ms)|
  {
    var fs, n := Firsts(ms), |before.recorded|;
    NewIdsAreDistinct(before, ms, k, after);
    RunAppliesFirsts(before, ms, k);
    assert fs[n..][..k] == fs[n..n + k];
    PrefixGrows(fs, n, k);
  }

  lemma LongerListKeepsCleanPrefix(db: Database, shorter: seq<Script>, list: seq<Script>)
    requires shorter <= list && IsCleanPrefix(db, Firsts(shorter))
    ensures IsCleanPrefix(db, Firsts(list))
  {
    FirstsOfPrefix(shorter, list, |shorter|);
    FirstsGrow(list, |shorter|, |list|);
    assert Firsts(list)[..|db.recorded|] == Firsts(shorter)[..|db.recorded|];
  }

  /** After any number of runs, each cut off anywhere, the database holds a clean prefix of the list without its repeats. */
  lemma {:induction false} EveryRunLeavesACleanPrefix(runs: seq<Deployment>, dbs: seq<Database>, i: nat)
    requires IsHistory(runs, dbs) && i < |runs|
    ensures IsCleanPrefix(dbs[i], Firsts(runs[i].list)) && IsCleanPrefix(dbs[i + 1], Firsts(runs[i].list))
    ensures runs[i].succeeded ==> |dbs[i + 1].recorded| == |Firsts(runs[i].list)|
  {
    var list := runs[i].list;
    if i > 0 {
      var shorter := runs[i - 1].list;
      EveryRunLeavesACleanPrefix(runs, dbs, i - 1);
      LongerListKeepsCleanPrefix(dbs[i], shorter, list);
    }
    RunKeepsCleanPrefix(dbs[i], list, runs[i].applied, dbs[i + 1]);
  }

  /** A run that returns leaves every first occurrence applied, and nothing else. */
  lemma SuccessLeavesTheFirsts(runs: seq<Deployment>, dbs: seq<Database>, i: nat)
    requires IsHistory(runs, dbs) && i < |runs| && runs[i].succeeded
    ensures dbs[i + 1].recorded == Ids(Firsts(runs[i].list)) && dbs[i + 1].schema == AllStatements(Firsts(runs[i].list))
  {
    var fs := Firsts(runs[i].list);
    EveryRunLeavesACleanPrefix(runs, dbs, i);
    assert fs[..|fs|] == fs;
  }

  /** Whatever failed before, a run that returns leaves the database one clean run of the list would have left. */
  lemma SuccessEqualsACleanRun(runs: seq<Deployment>, dbs: seq<Database>, i: nat, clean: Database)
    requires IsHistory(runs, dbs) && i < |runs| && runs[i].succeeded
    requires IsRun(EMPTY, Deployment(runs[i].list, |runs[i].list|, true), clean)
    ensures dbs[i + 1].recorded == clean.recorded == Ids(runs[i].list)
    ensures dbs[i + 1].schema == clean.schema == AllStatements(runs[i].list)
  {
    var list := runs[i].list;
    SuccessLeavesTheFirsts(runs, dbs, i);
    SuccessLeavesTheFirsts([Deployment(list, |list|, true)], [EMPTY, clean], 0);
    assert Recorded(EMPTY) == {};
    NothingDone(list, |list|);
    assert list[..|list|] == list;
    CleanRunNeedsDistinctIds(list, clean);
    FirstsOfDistinct(list, |list|);
  }

  /** And one more run of the same list applies nothing. */
  lemma FurtherRunAppliesNothing(runs: seq<Deployment>, dbs: seq<Database>, i: nat, again: Deployment, after: Database)
    requires IsHistory(runs, dbs) && i < |runs| && runs[i].succeeded
    requires again.list == runs[i].list && IsRun(dbs[i + 1], again, after)
    ensures again.applied == 0 && after.recorded == dbs[i + 1].recorded && after.schema == dbs[i + 1].schema
  {
    EveryRunLeavesACleanPrefix(runs, dbs, i);
    RunKeepsCleanPrefix(dbs[i + 1], again.list, again.applied, after);
    assert Pending(Recorded(dbs[i + 1]), again.list)[..0] == [];
  }

  // ---------------------------------------------------------------- why the ids must differ

  lemma {:induction false} NothingDone(ms: seq<Script>, i: nat)
    requires i <= |ms|
    ensures PendingUpTo({}, ms, i) == ms[..i]
  {
    if i > 0 {
      NothingDone(ms, i - 1);
    }
  }

  /** A first run can only get through a list of distinct ids; see `ApplyMigrations` for the converse. */
  lemma CleanRunNeedsDistinctIds(ms: seq<Script>, after: Database)
    requires Applied(EMPTY, ms, |Pending({}, ms)|, after)
    ensures Distinct(Ids(ms))
  {
    NothingDone(ms, |ms|);
    assert ms[..|ms|] == ms;
    assert Recorded(EMPTY) == {};
    assert after.recorded == Ids(ms);
  }

  /** A first run that returns has run every statement of every file, in order, and recorded every id. */
  lemma CleanRunRunsEveryStatement(ms: seq<Migration>, files: seq<seq<string>>, after: Database)
    requires AreFilesOf(ms, files)
    requires Applied(EMPTY, ParseAll(ms), |Pending({}, ParseAll(ms))|, after)
    ensures after.schema == Concat(files) && after.recorded == Ids(ParseAll(ms))
  {
    var scripts := ParseAll(ms);
    NothingDone(scripts, |scripts|);
    assert Recorded(EMPTY) == {};
    assert scripts[..|scripts|] == scripts;
    AllStatementsOfFiles(ms, files);
  }

  /** A migration that repeats an earlier id is never applied: what a returning run leaves is the list without it. */
  lemma RepeatedIdIsSkipped(runs: seq<Deployment>, dbs: seq<Database>, r: nat, i: nat, j: nat)
    requires IsHistory(runs, dbs) && r < |runs| && runs[r].succeeded
    requires i < j < |runs[r].list| && runs[r].list[i].id == runs[r].list[j].id
    ensures dbs[r + 1].schema == AllStatements(Firsts(runs[r].list))
    ensures FirstsUpTo(runs[r].list, j + 1) == FirstsUpTo(runs[r].list, j) && |dbs[r + 1].recorded| < |runs[r].list|
  {
    var list := runs[r].list;
    SuccessLeavesTheFirsts(runs, dbs, r);
    EarlierIdIsAmongFirsts(list, i, j);
    FirstsAreFew(list, j + 1, |list|);
  }

  lemma {:induction false} EarlierIdIsAmongFirsts(ms: seq<Script>, i: nat, j: nat)
    requires i < j <= |ms|
    ensures ms[i].id in Ids(FirstsUpTo(ms, j))
  {
    var before := FirstsUpTo(ms, j - 1);
    OneMore(before, ms[j - 1]);
    if i < j - 1 {
      EarlierIdIsAmongFirsts(ms, i, j - 1);
    }
  }

  lemma {:induction false} FirstsAreFew(ms: seq<Script>, i: nat, j: nat)
    requires i <= j <= |ms|
    ensures |FirstsUpTo(ms, j)| <= |FirstsUpTo(ms, i)| + (j - i)
  {
    if i < j {
      FirstsAreFew(ms, i, j - 1);
    }
  }

  lemma {:induction false} PendingIsNotDone(done: set<string>, ms: seq<Script>, i: nat)
    requires i <= |ms|
    ensures forall k :: 0 <= k < |PendingUpTo(done, ms, i)| ==> PendingUpTo(done, ms, i)[k].id !in done
  {
    if i > 0 {
      PendingIsNotDone(done, ms, i - 1);
    }
  }

  lemma NothingTookEffect(db: Database)
    ensures TookEffect(db, [], db)
  {
    assert db.recorded + Ids([]) == db.recorded && db.schema + AllStatements([]) == db.schema;
  }

  /** A run that stops after one migration. */
  lemma RunOne(db: Database, ms: seq<Script>) returns (next: Database)
    requires IsCleanPrefix(db, Firsts(ms)) && |db.recorded| < |Firsts(ms)|
    ensures IsRun(db, Deployment(ms, 1, false), next)
    ensures IsCleanPrefix(next, Firsts(ms)) && |next.recorded| == |db.recorded| + 1
  {
    var pending := Pending(Recorded(db), ms);
    EveryFirstIsPending(ms, |db.recorded|, Recorded(db), |ms|);
    PendingIsNotDone(Recorded(db), ms, |ms|);
    next := Extended(db, pending[0]);
    NothingTookEffect(db);
    TookOneMore(db, [], pending[0], db);
    assert pending[..1] == [] + [pending[0]];
    RunKeepsCleanPrefix(db, ms, 1, next);
  }

  lemma NothingLeft(db: Database, ms: seq<Script>)
    requires IsCleanPrefix(db, Firsts(ms)) && |db.recorded| == |Firsts(ms)|
    ensures IsRun(db, Deployment(ms, 0, true), db)
  {
    var fs := Firsts(ms);
    assert fs[..|fs|] == fs;
    forall i | 0 <= i < |ms|
      ensures ms[i].id in Recorded(db)
    {
      EarlierIdIsAmongFirsts(ms, i, |ms|);
    }
    AllDone(Recorded(db), ms, |ms|);
    NothingTookEffect(db);
  }

  lemma {:induction false} AllDone(done: set<string>, ms: seq<Script>, i: nat)
    requires i <= |ms| && forall j :: 0 <= j < |ms| ==> ms[j].id in done
    ensures PendingUpTo(done, ms, i) == []
  {
    if i > 0 {
      AllDone(done, ms, i - 1);
    }
  }

  /** It does come to that: for every list, runs that each stop after one migration end in one that returns. */
  lemma {:induction false} SomeRunReturns(ms: seq<Script>, n: nat) returns (runs: seq<Deployment>, dbs: seq<Database>)
    requires n <= |Firsts(ms)|
    ensures IsHistory(runs, dbs) && |runs| == n && (forall i :: 0 <= i < n ==> runs[i] == Deployment(ms, 1, false))
    ensures IsCleanPrefix(dbs[n], Firsts(ms)) && |dbs[n].recorded| == n
    ensures n == |Firsts(ms)| ==> IsRun(dbs[n], Deployment(ms, 0, true), dbs[n])
  {
    if n == 0 {
      runs, dbs := [], [EMPTY];
      assert Firsts(ms)[..0] == [];
    } else {
      runs, dbs := SomeRunReturns(ms, n - 1);
      var next := RunOne(dbs[n - 1], ms);
      runs, dbs := runs + [Deployment(ms, 1, false)], dbs + [next];
    }
    if n == |Firsts(ms)| {
      NothingLeft(dbs[n], ms);
    }
  }
}
