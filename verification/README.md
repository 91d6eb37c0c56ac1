# Verification of the identity core, the gateway's token check and their tools

A Dafny model of the hard parts of this repository and proofs about it. `dafny verify dfyconfig.toml`
checks everything.

## What is modelled

**Refresh-token rotation.** `SessionStore` holds the session and token tables and the atomic in-memory
repository; `SessionHistory` proves what serial histories of its calls keep. `RotationProtocol` is the
real implementation: any number of login and refresh requests advance one statement at a time over
shared tables, with share and exclusive row locks, uncommitted writes kept by their transaction, and
each statement evaluated on the committed rows once it may run, as READ COMMITTED does.
`RotationRefinement` proves it equivalent to a serial history, `RotationSafety` proves what every run
keeps, and `RotationProgress` that nothing deadlocks and everything ends. `UseCases` has the login and
refresh use cases as classes. `DamageWindow` combines the protocol with the gateway's token check.

**Access tokens.** `AccessToken` prints and reads the compact form of section 3.1 of RFC 7515, with
`exp` a NumericDate (section 4.1.4 of RFC 7519), over `Base64Url` (section 5 of RFC 4648), `Json`,
`Decimal` and `Text`. The MAC is an arbitrary function of the signing input.

**Snowflake ids.** `Bits` defines shifts, OR and AND on unbounded two's-complement integers;
`Snowflake` has the generator as a class over an arbitrary host clock, and theorems over whole runs.

**Migrations.** `Migrations` runs the migration loop against a server on which each query may fail, or
take effect and lose its reply, and follows the database over any number of such runs.

**Registration.** `Registration` is a state machine of racing registrations with the primary key and
the case-insensitive unique handle; `RegistrationSafety` has its theorems and the use case.

**Profile text.** `Profile` works on UTF-16 code units, lone surrogates included.

**Diagrams.** `Diagram` has edge routing and the geometry checks over reals; `SvgText` the escaping,
the well-formedness guard and a reader of the emitted lines; `SvgScene` the emitter, line by line.

## What is assumed

- Refresh tokens and their ids are new when minted and token hashing is injective, so a presented token
  is its digest. For ids `Snowflake` proves this, for one process and across node ids.
- A failed transaction is a rollback, or a commit whose reply is lost; then the caller gets an error
  although the transaction took effect. Statements of "granted" and "refreshed" count such commits.
- Clock readings are arbitrary unless a statement asks for a clock that never goes back.

## Where the code and its comments differ

- The Snowflake constructor's comment says that a clock behind the epoch cannot give negative ids. One
  can: `lastTimestamp` starts at -1, so a later reading of exactly one millisecond before the epoch is
  accepted. `Snowflake.NegativeIdsExactlyWhen` gives the exact condition.
- `create` in the user repository turns every unique violation into "handle taken". A repeated id
  raises the same code; `RegistrationSafety.FalseAlarmHappens` is a run, and
  `RegistrationSafety.FalseAlarmExactlyWhen` gives the exact condition.
- The diagram emitter's guard counts quotes per line, so it does not see a value with a pair of them:
  `SvgText.GuardCountsRawQuotes` says exactly which lines it refuses, and `SvgText.PairedQuotesPass` has
  a family of lines that pass although no reader accepts them.

## What a reader may not expect

- The stored `revokedAt` is the reading on which a revocation was decided, not the time it took effect;
  it need not bound how long access tokens live. `DamageWindow.StoredTimeBoundsExactlyWhen` says exactly
  when it does, and `DamageWindow.StoredTimeIsTooEarly` is a run in which it does not.
- A lost reply looks like theft: the retry of a caller whose rotation committed revokes the session
  (`UseCases.RetryAfterLostReply`).

## Model

| member | source | states |
|---|---|---|
| SessionStore.FindIn | backend/services/identity/src/infrastructure/persistence/drizzle-session.repository.ts:18-27 | over well-formed tables the lookup succeeds exactly for stored digests and returns the row of that digest joined to its own session |
| SessionStore.InMemorySessionRepository.Create | backend/services/identity/src/application/testing/fakes.ts:41-45 | adds exactly the session row and its first token row |
| SessionStore.InMemorySessionRepository.FindByTokenHash | backend/services/identity/src/application/testing/fakes.ts:47-53 | finds a row with that hash and the session it names; nothing when no row has the hash |
| SessionStore.InMemorySessionRepository.Rotate | backend/services/identity/src/application/testing/fakes.ts:56-66 | one atomic conditional spend: answers and leaves the tables as `RotateIn` says, untouched on refusal |
| SessionStore.InMemorySessionRepository.Revoke | backend/services/identity/src/application/testing/fakes.ts:68-74 | sets the revocation time of a live session and changes nothing else, keeping an earlier time |
| SessionHistory.CallKeepsOtherRows | backend/services/identity/src/application/testing/fakes.ts:56-74 | a call leaves the rows of every other session as they were |
| SessionHistory.HistoryIsWriteOnce | backend/services/identity/src/infrastructure/persistence/drizzle-session.repository.ts:29-67 | over any serial history rows are never lost and `spentAt` and `revokedAt` go from null to a value at most once |
| SessionHistory.ChainNeverForks | backend/services/identity/src/infrastructure/persistence/drizzle-session.repository.ts:42-58 | the rows of a session form one successor chain whose last element alone is unspent, one longer than the number of granted rotations |
| SessionHistory.RotationExtendsChain | backend/services/identity/src/infrastructure/persistence/drizzle-session.repository.ts:42-58 | a granted rotation spends the end of the chain and appends its successor there |
| SessionHistory.RevocationAbsorbs | backend/services/identity/src/infrastructure/persistence/drizzle-session.repository.ts:31-39 | after a revocation no call of any history touches the session or is granted on it |
| SessionHistory.RevocationTimeIsRecorded | backend/services/identity/src/infrastructure/persistence/drizzle-session.repository.ts:62-67 | the stored `revokedAt` is the time of the first call that revoked the session |
| SessionHistory.GrantedSpendIsRecorded | backend/services/identity/src/infrastructure/persistence/drizzle-session.repository.ts:42-49 | the stored `spentAt` is the time of the granted rotation that spent the token |
| SessionHistory.TokenSpendsOnce | backend/services/identity/src/infrastructure/persistence/drizzle-session.repository.ts:42-55 | two granted rotations never spend the same token |
| RotationRefinement.CommittedIsAtomic | backend/services/identity/src/infrastructure/persistence/drizzle-session.repository.ts:29-67 | the step that completes a locked `rotate`, `revoke` or `create` has the effect and the answer of the atomic call on the tables committed at that moment, whatever was committed since its locking read |
| RotationRefinement.InsertNeverCollides | backend/services/identity/src/infrastructure/persistence/drizzle-session.repository.ts:57 | the insert of the successor row never meets a unique key |
| RotationRefinement.StepKeepsInvariant | backend/services/identity/src/infrastructure/persistence/drizzle-session.repository.ts:29-67 | every enabled step of every request keeps the lock, row and history invariant |
| RotationRefinement.RunKeepsInvariant | backend/services/identity/src/infrastructure/persistence/drizzle-session.repository.ts:11-67 | the invariant holds after every run |
| RotationSafety.LockingRefinesAtomic | backend/services/identity/src/infrastructure/persistence/drizzle-session.repository.ts:29-67 | after any interleaving, commits whose reply is lost included, the committed tables are those of a serial history of the atomic repository, and the calls each request has completed are its calls in it with the same results |
| RotationSafety.HistoryRespectsRealTime | backend/services/identity/src/infrastructure/persistence/drizzle-session.repository.ts:29-67 | that serial order extends the order of every prefix of the run, so it respects real time |
| RotationSafety.RowsAreWriteOnce | backend/services/identity/src/infrastructure/persistence/drizzle-session.repository.ts:42-66 | between any two moments of a run rows only gain a spend or a revocation time |
| RotationSafety.RevocationIsAbsorbing | backend/services/identity/src/infrastructure/persistence/drizzle-session.repository.ts:31-58 | once a revocation has committed, the rows of its session never change again and no request that had not won by then is ever granted tokens for it |
| RotationSafety.SessionHasOneLiveToken | backend/services/identity/src/infrastructure/persistence/drizzle-session.repository.ts:42-58 | in every reachable state a session has exactly one unspent token, the end of its chain, and one row more than requests that committed a refresh of it, heard or not |
| RotationSafety.RequestsHoldWhatTheyPresented | backend/services/identity/src/application/refresh-session.use-case.ts:29-48 | each request works on the row of the digest it presented |
| RotationSafety.TokenRefreshesOnce | backend/services/identity/src/application/refresh-session.use-case.ts:45-52 | of all requests presenting one token at most one succeeds |
| RotationSafety.ReuseIsDetected | backend/services/identity/src/application/refresh-session.use-case.ts:37-50 | when two requests presenting one token each end as a refresh or a replay, at whatever times, its session is revoked |
| RotationSafety.RevokedIffReplayed | backend/services/identity/src/application/refresh-session.use-case.ts:37-58 | a session is revoked if and only if some request replayed a token of it that a request had exchanged, heard or not: no other alarm |
| RotationSafety.OnlyCommitsGoUnheard | backend/services/identity/src/infrastructure/persistence/drizzle-session.repository.ts:29-67 | a request that ended with an outcome its caller did not hear has committed that outcome |
| RotationSafety.ExpiryIsAbsolute | backend/services/identity/src/application/login.use-case.ts:74-89 | every refresh happens before login time plus the refresh lifetime and reports exactly that expiry |
| RotationProgress.WaitsExactlyFor | backend/services/identity/src/infrastructure/persistence/drizzle-session.repository.ts:31-66 | at the session's row rotations wait only for a revocation being written, and a revocation for it and for every rotation under way; at a token's row a rotation waits for one that has spent that token |
| RotationProgress.NoDeadlock | backend/services/identity/src/infrastructure/persistence/drizzle-session.repository.ts:29-67 | while a request is unfinished, some request can take a step that is not a failure |
| RotationProgress.StepLowersTotal | backend/services/identity/src/infrastructure/persistence/drizzle-session.repository.ts:29-67 | every step of a request under way lowers one measure |
| RotationProgress.SchedulesEnd | backend/services/identity/src/infrastructure/persistence/drizzle-session.repository.ts:29-67 | without new arrivals a schedule is no longer than the measure |
| RotationProgress.AllCanFinish | backend/services/identity/src/infrastructure/persistence/drizzle-session.repository.ts:29-67 | from every reachable state all requests under way can be run to completion |
| UseCases.MintRefreshToken | backend/services/identity/src/application/issued-tokens.ts:28-39 | draws one token and one id and builds the unspent row of that token |
| UseCases.InMemoryUserRepository.FindCredentialsByHandle | backend/services/identity/src/application/testing/fakes.ts:30-34 | finds the credentials under the folded handle and records the question |
| UseCases.LoginUseCase.Execute | backend/services/identity/src/application/login.use-case.ts:46-90 | succeeds exactly for a known handle with its password; a refusal is one value, writes and draws nothing; a success stores one session and its first token row and tells the truth about them; every login costs exactly one hash, a known handle or not |
| UseCases.RefreshSessionUseCase.Execute | backend/services/identity/src/application/refresh-session.use-case.ts:28-53 | succeeds exactly for an unspent token of a live session before its expiry, and then tells the truth about that session's row; the tables are those of `RefreshAlone`, and stay well formed when what was minted is new |
| UseCases.IssuedTokensTell | backend/services/identity/src/application/issued-tokens.ts:42-63 | what is told: the session's user, the new refresh token, now plus the access lifetime, the session's own expiry, and an access token that under every secret verifies as that user and session exactly until the whole second of its expiry |
| UseCases.RefreshesExactlyWhen | backend/services/identity/src/application/refresh-session.use-case.ts:28-52 | a refresh is granted if and only if the token is found unspent, its session is not revoked and now is before its expiry |
| UseCases.AnswersReportOneEnd | backend/services/identity/src/application/issued-tokens.ts:56-62 | in every run, what a login and every refresh of its session are told names that session and its user and the one end: login time plus the refresh lifetime |
| UseCases.RefreshSessionUseCase.RejectAsReuse | backend/services/identity/src/application/refresh-session.use-case.ts:55-58 | revokes the session and throws |
| UseCases.RefreshKeepsWellFormed | backend/services/identity/src/application/refresh-session.use-case.ts:28-53 | with a new id and digest a refresh keeps the tables well formed |
| UseCases.LoginAsInMemory | backend/services/identity/src/application/login.use-case.ts:72-89 | a login through the protocol stores and answers what the use case does, whoever else is at work |
| UseCases.RefreshWithoutRivals | backend/services/identity/src/application/refresh-session.use-case.ts:28-58 | a request that meets no held row lock ends through the lock-level protocol exactly as through the in-memory repository |
| UseCases.RetryAfterLostReply | backend/services/identity/src/application/refresh-session.use-case.ts:45-50 | from every state in which a rotation is about to commit, its commit may go unheard, and its caller's retry then revokes the session |
| DamageWindow.DamageIsBounded | backend/services/identity/src/application/refresh-session.use-case.ts:35-52 | under a clock that never goes back, every access token ever granted for a session is refused from the commit of its revocation plus the access lifetime on |
| DamageWindow.StoredTimeBoundsExactlyWhen | backend/services/identity/src/application/refresh-session.use-case.ts:35-52 | for every run and revoked session, the stored `revokedAt` plus the access lifetime bounds every token granted for it, in every continuation, if and only if each grant made by then read the clock so that the whole seconds of its expiry are over by that time |
| DamageWindow.StoredTimeBoundsEarlierGrants | backend/services/identity/src/application/refresh-session.use-case.ts:35-52 | it is a bound whenever no grant read the clock later than `revokedAt` |
| DamageWindow.StoredTimeIsTooEarly | backend/services/identity/src/application/refresh-session.use-case.ts:35-52 | in general it is not: a run in which a token is accepted one access lifetime after the stored time |
| Base64Url.RoundTrip | backend/services/identity/src/infrastructure/security/hs256-access-token-issuer.ts:84-86 | decoding inverts base64url encoding on all byte sequences |
| Base64Url.AlphabetIsTable2 | backend/services/identity/src/infrastructure/security/hs256-access-token-issuer.ts:84-86 | the characters are those of table 2 of RFC 4648 |
| Base64Url.GroupsKeepTheirBits | backend/services/identity/src/infrastructure/security/hs256-access-token-issuer.ts:84-86 | three bytes and their four characters are one 24-bit number; a short last group is filled up with zero bits |
| Json.ObjectRoundTrip | backend/gateway/src/infrastructure/security/hs256-access-token-verifier.ts:219-234 | the JSON printed for a flat object of plain strings and integers parses to its fields |
| AccessToken.LiveUntil | backend/services/identity/src/infrastructure/security/hs256-access-token-issuer.ts:88-90 | the expiry in force is a whole second at most 999 ms below the claimed one |
| AccessToken.CompactFormSplits | backend/gateway/src/infrastructure/security/hs256-access-token-verifier.ts:104-109 | the compact form splits into exactly its three segments and holds no space |
| AccessToken.SignedTokenVerifies | backend/gateway/src/infrastructure/security/hs256-access-token-verifier.ts:125-208 | a signed token of any two segments is accepted as two ids and an expiry exactly when its header says HS256 and JWT, its payload says these ids and that second, and now is before it |
| AccessToken.IssuedTokenVerifies | backend/gateway/src/infrastructure/security/hs256-access-token-verifier.ts:103-208 | an issued token verifies to the claimed ids exactly while now is before the whole second of its expiry |
| AccessToken.IssuedIsGood | backend/gateway/src/infrastructure/security/hs256-access-token-verifier.ts:103-208 | so under every secret and at every time |
| AccessToken.BearerIsReadExactlyWhen | backend/gateway/src/presentation/http/access-token.guard.ts:97-113 | the header yields a token if and only if it is the six letters of the scheme, each small or capital, one space and that token, without spaces |
| AccessToken.BearerIsRead | backend/gateway/src/presentation/http/access-token.guard.ts:97-113 | `Bearer ` and any token without spaces yields that token |
| AccessToken.BearerRoundTrip | backend/gateway/src/presentation/http/access-token.guard.ts:97-113 | the same through the header, however the scheme is capitalised |
| AccessToken.OnlySignedTokensVerify | backend/gateway/src/infrastructure/security/hs256-access-token-verifier.ts:125-127 | accepted text is the compact form signed under the verifier's own secret, and is before its expiry |
| AccessToken.OtherSecretRefuses | backend/gateway/src/infrastructure/security/hs256-access-token-verifier.ts:125-127 | a secret that gives another MAC refuses the token |
| Decimal.PrintIntInjective | backend/libs/snowflake/src/snowflake-generator.ts:84 | different ids have different decimal texts |
| Decimal.PrintThenParse | backend/libs/snowflake/src/snowflake-generator.ts:84 | the digits have the value of the number |
| Bits.OrShifted | backend/libs/snowflake/src/snowflake-generator.ts:79-82 | OR with bits below a shift is addition, for negative integers too |
| Bits.AndMask | backend/libs/snowflake/src/snowflake-generator.ts:66 | masking with k ones is the remainder modulo 2^k |
| Snowflake.Layout | backend/libs/snowflake/src/snowflake-generator.ts:79-82 | the shifts and ORs give timestamp*2^22 + node*2^12 + sequence for in-range fields and any timestamp |
| Snowflake.Decodes | backend/libs/snowflake/src/snowflake-generator.ts:79-82 | the three fields can be read back from the id |
| Snowflake.OrderedByTimestampFirst | backend/libs/snowflake/src/snowflake-generator.ts:79-82 | ids compare by timestamp, then node, then sequence |
| Snowflake.FitsBigint | backend/libs/snowflake/src/snowflake-generator.ts:5-12 | an id is a non-negative 64-bit integer exactly while its timestamp is a non-negative 41-bit one |
| Snowflake.SequenceWraps | backend/libs/snowflake/src/snowflake-generator.ts:17-18 | the mask wraps 4096 to 0 and keeps the other values |
| Snowflake.SnowflakeGenerator.Create | backend/libs/snowflake/src/snowflake-generator.ts:34-51 | refuses a node id that is no integer in 0..1023, then a clock before the epoch, and otherwise boots at timestamp -1 |
| Snowflake.SnowflakeGenerator.Next | backend/libs/snowflake/src/snowflake-generator.ts:58-85 | for every clock: the drift as an error with the state unchanged, or the text of its last reading since the epoch, the node id and the sequence, which restarts at 0 with a later reading |
| Snowflake.SnowflakeGenerator.WaitForNextMillisecond | backend/libs/snowflake/src/snowflake-generator.ts:93-99 | ends, on the first reading past the current millisecond, whenever a later reading lies ahead |
| Snowflake.AnswerIsIssued | backend/libs/snowflake/src/snowflake-generator.ts:58-85 | each call answers with the slot a run has issued last, or issues nothing and changes nothing |
| Snowflake.IdsOnlyGrow | backend/libs/snowflake/src/snowflake-generator.ts:58-85 | the ids of one generator strictly increase over every sequence of clock readings, backward jumps included |
| Snowflake.SequenceCounts | backend/libs/snowflake/src/snowflake-generator.ts:65-75 | a sequence number is the number of ids issued before it in its millisecond |
| Snowflake.AtMost4096PerMillisecond | backend/libs/snowflake/src/snowflake-generator.ts:65-72 | a millisecond yields at most 4096 ids |
| Snowflake.FullMillisecondMovesOn | backend/libs/snowflake/src/snowflake-generator.ts:67-72 | the request that finds its millisecond full gets a strictly later one at sequence 0 |
| Snowflake.IdsCarryTheirReadings | backend/libs/snowflake/src/snowflake-generator.ts:58-85 | every id carries the clock reading of its call: the first one, or the awaited one if its millisecond was full |
| Snowflake.NodesNeverCollide | backend/libs/snowflake/src/node-id.ts:12-23 | two runs share an id text only if node id and slot are the same |
| Snowflake.IdsAreDistinct | backend/libs/snowflake/src/snowflake-generator.ts:58-85 | one generator never issues a text twice |
| Snowflake.RestartRepeatsNothing | backend/libs/snowflake/src/snowflake-generator.ts:58-85 | two runs of one node id share no text when every reading of the one is earlier than every reading of the other |
| Snowflake.CallNext | backend/libs/snowflake/src/snowflake-generator.ts:58-99 | any number of calls on a booted generator whose clock goes on make a run, answer with what it issued, and repeat no id |
| Snowflake.NegativeIdsExactlyWhen | backend/libs/snowflake/src/snowflake-generator.ts:31-65 | negative ids occur if and only if the first accepted reading is the millisecond before the epoch |
| Snowflake.NegativeId | backend/libs/snowflake/src/snowflake-generator.ts:31-65 | the concrete reading that gives one |
| Text.JoinSplit | backend/services/identity/src/infrastructure/persistence/apply-migrations.ts:67-68 | splitting at a marker loses nothing |
| Text.SplitJoin | backend/services/identity/src/infrastructure/persistence/apply-migrations.ts:66-71 | splitting gives back what was joined, if no part holds the separator and it never overlaps itself |
| Migrations.StatementsAreTheParts | backend/services/identity/src/infrastructure/persistence/apply-migrations.ts:66-71 | the statements of a file are its parts between markers, trimmed and in order: all but the blank ones |
| Migrations.StatementsComeBack | backend/services/identity/src/infrastructure/persistence/apply-migrations.ts:66-71 | clean statements with any blanks around them, joined by markers, split back into exactly that list |
| Migrations.StatementsAreClean | backend/services/identity/src/infrastructure/persistence/apply-migrations.ts:66-71 | no statement is empty, starts or ends blank, or still holds a marker |
| Migrations.Connection.Query | backend/services/identity/src/infrastructure/persistence/apply-migrations.ts:6-8 | one query against a server with an open, idle or aborted transaction, under an arbitrary fault |
| Migrations.RunStatements | backend/services/identity/src/infrastructure/persistence/apply-migrations.ts:47-49 | all statements join the open transaction, or nothing is committed |
| Migrations.Attempt | backend/services/identity/src/infrastructure/persistence/apply-migrations.ts:46-52 | the migration is committed whole or not at all; success means committed |
| Migrations.ApplyOne | backend/services/identity/src/infrastructure/persistence/apply-migrations.ts:45-56 | the same with BEGIN and ROLLBACK around it |
| Migrations.ApplyPending | backend/services/identity/src/infrastructure/persistence/apply-migrations.ts:40-57 | the loop commits a prefix of the pending migrations, all of them on success |
| Migrations.ApplyMigrations | backend/services/identity/src/infrastructure/persistence/apply-migrations.ts:25-63 | a run commits the first k pending migrations and nothing else; it returns their ids when k is all, and does return when no query fails and ids are distinct |
| Migrations.EveryRunLeavesACleanPrefix | backend/services/identity/src/infrastructure/persistence/apply-migrations.ts:25-63 | after any number of runs over lists that grow at the end, each stopped at any query or by a lost reply, the recorded ids are a prefix of the list without its repeated ids and exactly their statements took effect, once and in order |
| Migrations.SuccessLeavesTheFirsts | backend/services/identity/src/infrastructure/persistence/apply-migrations.ts:25-63 | a run that returns leaves exactly the first occurrence of every id applied |
| Migrations.FirstsOfDistinct | backend/services/identity/src/infrastructure/persistence/apply-migrations.ts:40-43 | that is the whole list when the ids are distinct |
| Migrations.SuccessEqualsACleanRun | backend/services/identity/src/infrastructure/persistence/apply-migrations.ts:25-63 | a run that returns leaves the ids and schema of one clean run |
| Migrations.FurtherRunAppliesNothing | backend/services/identity/src/infrastructure/persistence/apply-migrations.ts:37-43 | one more run applies nothing |
| Migrations.CleanRunNeedsDistinctIds | backend/services/identity/src/infrastructure/persistence/apply-migrations.ts:50 | a first run can complete only if the ids are distinct |
| Migrations.CleanRunRunsEveryStatement | backend/services/identity/src/infrastructure/persistence/apply-migrations.ts:25-71 | a first run that returns has run every statement of every file, in order, and recorded every id |
| Migrations.RepeatedIdIsSkipped | backend/services/identity/src/infrastructure/persistence/apply-migrations.ts:38-43 | for every list and every two migrations with one id, the statements of the later one are not among what a returning run leaves |
| Migrations.SomeRunReturns | backend/services/identity/src/infrastructure/persistence/apply-migrations.ts:25-63 | for every list, repeats or not, runs that each stop after one migration end in one that returns |
| Registration.SeenThroughWrappers | backend/services/identity/src/infrastructure/persistence/drizzle-user.repository.ts:11-29 | a unique violation is recognised under any number of wrappers without a code |
| Registration.RunKeepsInvariant | backend/services/identity/src/infrastructure/persistence/drizzle-user.repository.ts:72-92 | keys, rows, writers and phases stay consistent over every interleaving |
| Registration.HandleIsValidExactlyWhen | backend/services/identity/src/domain/handle.ts:9-18 | three to twenty characters, all of them among the 63 listed |
| Registration.PasswordIsValidExactlyWhen | backend/services/identity/src/domain/password.ts:5-16 | eight UTF-16 units, with a letter and a digit |
| Registration.FoldIgnoresCaseOnly | backend/services/identity/src/infrastructure/persistence/schema.ts:31-33 | two handles have one key if and only if they differ in the case of letters at most |
| RegistrationSafety.OneAccountPerHandle | backend/services/identity/src/infrastructure/persistence/schema.ts:31-33 | in every reachable state two accounts whose handles differ at most in the case of letters are one account |
| RegistrationSafety.RowsAreExactlyTheWritten | backend/services/identity/src/infrastructure/persistence/drizzle-user.repository.ts:72-85 | a user row and its credentials row exist exactly when a request committed them, and never one without the other |
| RegistrationSafety.OneWinner | backend/services/identity/src/application/register-user.use-case.ts:30-44 | no two requests that committed share a handle or an id |
| RegistrationSafety.TakenIsTrue | backend/services/identity/src/infrastructure/persistence/drizzle-user.repository.ts:86-91 | with distinct ids a handle refused as taken is held by an account some request registered |
| RegistrationSafety.FalseAlarmNeedsARepeatedId | backend/services/identity/src/infrastructure/persistence/drizzle-user.repository.ts:86-91 | it is not held only if the request drew the id of an account another request registered |
| RegistrationSafety.RepeatedIdRaisesFalseAlarm | backend/services/identity/src/infrastructure/persistence/drizzle-user.repository.ts:86-91 | and then the insert does raise the error |
| RegistrationSafety.FalseAlarmExactlyWhen | backend/services/identity/src/infrastructure/persistence/drizzle-user.repository.ts:72-92 | an insert that may run is told its handle is taken while nobody has it, if and only if its request drew the id of an account and its handle is free |
| RegistrationSafety.FalseAlarmHappens | backend/services/identity/src/infrastructure/persistence/drizzle-user.repository.ts:86-91 | a concrete run with a repeated id |
| RegistrationSafety.RowsStay | backend/services/identity/src/infrastructure/persistence/drizzle-user.repository.ts:72-85 | committed rows never change or disappear |
| RegistrationSafety.NoDeadlock | backend/services/identity/src/infrastructure/persistence/drizzle-user.repository.ts:74-85 | waiting for a key never blocks everybody |
| RegistrationSafety.CredentialsAlwaysInsert | backend/services/identity/src/infrastructure/persistence/schema.ts:43-46 | only the first insert can lose a race |
| RegistrationSafety.InMemoryUserRepository.ExistsByHandle | backend/services/identity/src/application/register-user.use-case.test.ts:17-19 | true exactly when some spelling of the handle was seeded or registered |
| RegistrationSafety.InMemoryUserRepository.Create | backend/services/identity/src/application/register-user.use-case.test.ts:21-25 | adds the handle and records the account |
| RegistrationSafety.RegisterUserUseCase.Execute | backend/services/identity/src/application/register-user.use-case.ts:26-45 | malformed input is refused first, then a handle some spelling of which is held, both without effect; else one id is drawn and one account created under it |
| RegistrationSafety.RegisterWithoutRivals | backend/services/identity/src/application/register-user.use-case.ts:26-45 | without uncommitted rows of others the protocol ends as the use case does |
| Profile.CountsCodePoints | backend/services/identity/src/domain/profile.ts:60-62 | text written as n code points counts n characters, pairs included |
| Profile.LengthIsUnits | backend/services/identity/src/domain/password.ts:6 | `length` is the number of UTF-16 units that encode the text |
| Profile.UnitScanAgrees | backend/services/identity/src/domain/profile.ts:86-97 | a test false of surrogates and beyond U+FFFF finds the same by code units and by code points |
| Profile.ControlsAreUnits | backend/services/identity/src/domain/profile.ts:86-97 | the code-point scan finds exactly the control units |
| Profile.InvisiblesAreUnits | backend/services/identity/src/domain/profile.ts:113 | the unit scan misses no invisible code point |
| Profile.InvisiblesAre | backend/services/identity/src/domain/profile.ts:113 | the invisible characters, one by one |
| Profile.FoldFixes | backend/services/identity/src/domain/profile.ts:157 | folding changes nothing exactly when there is no CR LF |
| Profile.FoldIdempotentExactlyWhen | backend/services/identity/src/domain/profile.ts:157 | folding is idempotent on a text if and only if it has no CR CR LF |
| Profile.FoldIsNotIdempotent | backend/services/identity/src/domain/profile.ts:157 | CR CR LF shows it is not |
| Profile.NameIsAcceptedExactlyWhen | backend/services/identity/src/domain/profile.ts:125-145 | a name is accepted if and only if trimmed it is storable, and refused as empty if and only if all blank |
| Profile.NameNormalisesOnce | backend/services/identity/src/domain/profile.ts:125-145 | an accepted name is storable and normalises to itself |
| Profile.NameRefusals | backend/services/identity/src/domain/profile.ts:125-145 | which refusal is given: control characters before invisible ones before length |
| Profile.BioIsAcceptedExactlyWhen | backend/services/identity/src/domain/profile.ts:156-167 | a bio is accepted if and only if folded and trimmed it is storable |
| Profile.BioNormalisesOnce | backend/services/identity/src/domain/profile.ts:156-167 | an accepted bio is storable and normalises to itself, although folding alone is not idempotent |
| Profile.BioRefusals | backend/services/identity/src/domain/profile.ts:156-167 | a bio is refused for control characters other than line feeds, else for more than 160 characters, and for nothing else |
| Profile.CrLfBioIsItsFoldedBio | backend/services/identity/src/domain/profile.ts:151-157 | line ends CR LF and LF make no difference |
| Text.TrimCutsBlanks | backend/services/identity/src/domain/profile.ts:126 | trimming cuts blanks off both ends and nothing else |
| Text.BlankCodesAre | backend/services/identity/src/domain/profile.ts:126 | the blanks are the white space and line terminators of ECMA-262, one by one |
| Diagram.RouteIsOrthogonal | docs/diagrams/_generator/lib/scene.js:100-121 | a route is an elbow exactly when its ends are misaligned and it is not straight; it joins the chosen points by axis-parallel runs square to the source's face |
| Diagram.ArrivesSquarelyExactlyWhen | docs/diagrams/_generator/lib/scene.js:118-120 | an elbow is square to the target's face if and only if both faces point the same way or its last run has no length |
| Diagram.DeclaredSidesAreKept | docs/diagrams/_generator/lib/scene.js:52-80 | a declared face is kept; otherwise the source has the automatic face and the target the opposite one |
| Diagram.AutomaticSideLooksAcross | docs/diagrams/_generator/lib/scene.js:60-75 | the automatic face looks towards the other box: vertically when one is above the other, sideways when they are only side by side, along the longer way between centres when they overlap |
| Diagram.DefaultsAreHalfWay | docs/diagrams/_generator/lib/scene.js:97-127 | without fractions arrows leave and arrive in the middle of their faces and turn half way, with one they turn at that fraction; the label is in the middle of the middle run |
| Diagram.ResolvedEdgesAreOrthogonal | docs/diagrams/_generator/lib/scene.js:87-132 | both, for every edge of every scene that resolves |
| Diagram.ElbowIsShortest | docs/diagrams/_generator/lib/scene.js:110-120 | with its elbow in the gap its length is the Manhattan distance of its ends |
| Diagram.RouteStaysInTheGap | docs/diagrams/_generator/lib/scene.js:53-121 | an automatic route between boxes with room for both arrow gaps never enters either box |
| Diagram.ResolvedEdgesAreRouted | docs/diagrams/_generator/lib/scene.js:87-132 | resolving succeeds only with both nodes known and routes each edge between them |
| Diagram.ResolvesExactlyWhen | docs/diagrams/_generator/lib/scene.js:87-95 | a scene resolves if and only if every edge has both its nodes |
| Diagram.FailureNamesTheFirst | docs/diagrams/_generator/lib/scene.js:90-95 | otherwise the error names the missing node of the first edge that lacks one, source before target |
| Diagram.LookupFindsTheLast | docs/diagrams/_generator/lib/scene.js:88 | of several nodes with one id the last counts, and none is found only when there is none |
| Diagram.TipLandsExactlyWhen | docs/diagrams/_generator/build.mjs:160-168 | the landing check passes if and only if `toT` stays within 12 of the face |
| Diagram.TipOnTheFaceLands | docs/diagrams/_generator/build.mjs:160-168 | so it never fails for a fraction in [0,1] |
| Diagram.Geometry.SampleSegment | docs/diagrams/_generator/build.mjs:142-156 | reports a node exactly when one of the samples is in its inset interior |
| Diagram.InsideExactlyWhen | docs/diagrams/_generator/build.mjs:146-150 | a point is inside a node if and only if everything within three units of it on both axes lies within the box |
| Diagram.Geometry.ValidateRoute | docs/diagrams/_generator/build.mjs:130-158 | the problems of every segment against every unrelated node, in order |
| Diagram.Geometry.ValidateGeometry | docs/diagrams/_generator/build.mjs:130-169 | crossings, then the landing check, edge by edge |
| Diagram.SpacingIsAtMostTwo | docs/diagrams/_generator/build.mjs:136-137 | samples are at most two units apart |
| Diagram.ReportsAreCrossings | docs/diagrams/_generator/build.mjs:142-156 | a hit is a point of the segment inside the node |
| Diagram.LongCrossingsAreReported | docs/diagrams/_generator/build.mjs:136-156 | a segment with two points inside at least two units apart is reported |
| Diagram.ShortCrossingsCanHide | docs/diagrams/_generator/build.mjs:136-156 | the bound is sharp: for every length below two, a segment that runs that far inside a node unreported |
| Diagram.CleanRouteCrossesNothing | docs/diagrams/_generator/build.mjs:130-158 | no report means no unrelated node holds two units of any run of the route |
| Diagram.CleanRouteHasClearCorners | docs/diagrams/_generator/build.mjs:130-158 | nor any corner or end of it |
| Diagram.EveryReportIsACrossing | docs/diagrams/_generator/build.mjs:130-158 | every report names an unrelated node holding a point of the route |
| Diagram.Geometry.ValidateEdge | docs/diagrams/_generator/build.mjs:130-168 | the problems of one edge: its crossings, then its tip |
| Diagram.SceneReports | docs/diagrams/_generator/build.mjs:130-169 | the problems of a scene are exactly the problems of its edges |
| Diagram.EverySceneReportIsTrue | docs/diagrams/_generator/build.mjs:130-169 | every report names an edge that has a point inside that unrelated node, or whose tip is away from its target |
| Diagram.PassedScenesCrossNothing | docs/diagrams/_generator/build.mjs:130-169 | in every declared scene that resolves and passes, no edge has two units of a run inside a node but its own two |
| Diagram.PassedScenesHaveClearCorners | docs/diagrams/_generator/build.mjs:130-169 | nor a corner |
| Diagram.PassedScenesLand | docs/diagrams/_generator/build.mjs:160-168 | and every tip is within 12 of the face it was sent to |
| SvgText.PassesAreOneSubstitution | docs/diagrams/_generator/lib/emit-svg.js:18-23 | the four passes equal one substitution per character |
| SvgText.UnescapeEscape | docs/diagrams/_generator/lib/emit-svg.js:18-23 | reading entities back gives the text |
| SvgText.NothingRaw | docs/diagrams/_generator/lib/emit-svg.js:18-23 | escaped text holds no quote and no angle bracket |
| SvgText.PlainStays | docs/diagrams/_generator/lib/emit-svg.js:25 | escaping changes nothing in text without the four characters |
| SvgText.AssertWellFormed | docs/diagrams/_generator/lib/emit-svg.js:34-45 | finds the first line that starts a tag and has an odd number of quotes |
| SvgText.LinesPassTheGuard | docs/diagrams/_generator/lib/emit-svg.js:34-45 | no line of tags with escaped values and text fails it |
| SvgText.ParseRender | docs/diagrams/_generator/lib/emit-svg.js:18-23 | a reader gets back every tag, attribute value and text |
| SvgText.GuardCountsRawQuotes | docs/diagrams/_generator/lib/emit-svg.js:34-45 | whatever the values are, the guard refuses exactly the lines whose unescaped values hold an odd number of quotes in all |
| SvgText.PairedQuotesPass | docs/diagrams/_generator/lib/emit-svg.js:27-45 | so a raw value with an even number of them passes, and unless a space or a tag end follows its first quote no reader accepts the line |
| SvgText.PrintedLinesAreSound | docs/diagrams/_generator/lib/emit-svg.js:51-55 | a line printed with only its scene text escaped, its other values plain, passes the guard and reads back as its tags and texts |
| SvgScene.EmitSvg | docs/diagrams/_generator/lib/emit-svg.js:47-162 | for every scene and theme the emitter has all its lines and its guard finds the first with an odd number of raw quotes; none when no colour has a quote |
| SvgScene.EveryLineIsSound | docs/diagrams/_generator/lib/emit-svg.js:47-162 | with colours free of the four characters each emitted line has balanced quotes and reads back as the tags, values and texts it stands for |
| SvgScene.NodeCaptionShows | docs/diagrams/_generator/lib/emit-svg.js:105-119 | the caption of every node, whatever it says, is then read back from the picture as written |
| SvgScene.EdgeCaptionShows | docs/diagrams/_generator/lib/emit-svg.js:129-141 | so is the caption of every edge |
| SvgScene.NodeSubShows | docs/diagrams/_generator/lib/emit-svg.js:120-125 | so is the second line of every node |
| SvgScene.FrameCaptionShows | docs/diagrams/_generator/lib/emit-svg.js:85-88 | so is the heading of every frame, in capitals |
| SvgScene.NoteLineShows | docs/diagrams/_generator/lib/emit-svg.js:144-155 | so is every line of every note |
| SvgScene.HeadingsShow | docs/diagrams/_generator/lib/emit-svg.js:70-77 | so are the title and the subtitle |
| SvgScene.TitleIsSpoken | docs/diagrams/_generator/lib/emit-svg.js:51-55 | the picture's own tag carries the title as its label |
| SvgScene.EdgeIsDrawn | docs/diagrams/_generator/lib/emit-svg.js:92-102 | every edge is a path with its data and colour, dashed exactly if declared so, headed at its end, and at its start exactly if bidirectional |
| SvgScene.PathDataAreCommands | docs/diagrams/_generator/lib/emit-svg.js:95 | the path data move to the first point and draw to each other one, in order |
| SvgScene.NodeIsDrawn | docs/diagrams/_generator/lib/emit-svg.js:105-110 | every node is a rectangle where the scene has it, in the colours of its kind or else of a store |
| SvgScene.FrameIsDrawn | docs/diagrams/_generator/lib/emit-svg.js:80-84 | every frame is a rectangle where the scene has it |
| SvgScene.MarkerFitsItsEdges | docs/diagrams/_generator/lib/emit-svg.js:57-66 | the arrowhead an edge refers to has that edge's colour |
| SvgScene.MarkersAreDefined | docs/diagrams/_generator/lib/emit-svg.js:57-66 | and is defined in every picture |
| SvgScene.NumbersAreHundredths | docs/diagrams/_generator/lib/emit-svg.js:25 | numbers print as whole hundredths, at most half of one away |
| SvgScene.PaintedInLayers | docs/diagrams/_generator/lib/emit-svg.js:79-156 | frames lie below edges, edges below nodes, and captions and notes on top |

## Left out

- RegistrationSafety.RowsAreExactlyTheWritten: a caller whose COMMIT reply was lost counts as having committed although it got an error; it is the outcome `Unconfirmed`.
- Migrations.ApplyMigrations: statement texts are opaque, so a migration that itself commits or rolls back is not modelled; the list is split before the loop, which is the same because splitting is pure; two runners at once are not modelled.
- AccessToken.SignedTokenVerifies: the decoder is the one for what the issuer prints; signed tokens with other JSON, non-ASCII text or non-canonical base64url, which the gateway decodes, are refused here.
- AccessToken.OnlySignedTokensVerify: an `exp` beyond the range of Date, which no issued token has, compares as NaN in the gateway and is accepted at any time; here it is compared like any other number.
- Json.ObjectRoundTrip: flat objects of plain text and integers only.
- Diagram.Geometry.ValidateGeometry: the notes' overflow checks and the text-box collision checks are left out, as are the duplicate, canvas and overlap checks of `validate` and the `row` layout helper.
- SvgScene.EmitSvg: the five loops push over one list of items in painting order; an absent subtitle or edge caption, which the emitter skips like an empty one, is an empty one; numbers print as text without the four characters.
- `nodeIdFromEnv`, which parses text before the node id check.
- Argon2's salt and running time: a hash is a function of the password, as in the fake, and its cost one call.
- A `rotate` that finds nothing to do commits an empty transaction; the model ends it with the refusing statement, since it holds no written row.
- Lock-level effects of foreign keys (FOR KEY SHARE), index pages and deadlock detection in Postgres.
- A unique-key wait in `InsertUser` is one step: holding one of the two index entries while waiting for the other is not visible to others.
- The account's display name, bio and profile queries beyond the normalisers, and the profile update use case.
- `canActivate`'s header and error rendering, gRPC, NestJS wiring, controllers, configuration, health checks and problem details: plumbing decided by one branch.
- The Go services, which only wait for a signal; the Excalidraw emitter, palette and fonts.
- Rounding: diagram coordinates are reals, and `Math.hypot` is exact.
