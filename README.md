# Ledger projection and migration runner, modelled in Dafny

This project models the database side of a voting dapp's backend:

- **`backend/db/sync.js`** mirrors three ledger events into three tables:
  - `ProfileFetched` upserts a row of `profiles`;
  - `VoteAdded` upserts a row of `votes` and bumps a profile's `upvotes`/`downvotes`;
  - `StakeDelegated` upserts a row of `delegated_stakes` and moves `amount` between two profiles' `totalStake`.
- **`backend/db/migrate.js`** applies the `.sql` files of a directory in sorted order. It skips the ones already recorded in the `migrations` table and stops at the first failure.

Files:

- `transactions.dfy` (module `Transactions`): `Fault`. This value says which step of a handler throws. The steps that may throw are file reads and database statements, `BEGIN` and `COMMIT` included, numbered from 0 in the order the handler takes them.
- `sync.dfy` (module `Sync`):
  - each table is a finite map from its primary key to the rest of the row;
  - `ProfileFetched`, `VoteAdded` and `StakeDelegated` give each handler's effect as a pure function;
  - the class `SyncStore` holds the three maps as fields. It runs each handler statement by statement, with `BEGIN`/`ROLLBACK`/`COMMIT`. It is proved to end either in the function's result or, when a statement throws, in the state it started from.
- `sync_properties.dfy` (module `SyncProperties`): what the handlers do under replay and amendment, and how they move the sum of `totalStake`.
- `name_order.dfy` (module `NameOrder`): the order of JavaScript's default `sort()`. Strings are compared as UTF-16 code-unit sequences, so characters above U+FFFF count as surrogate pairs. An insertion sort is proved to return a sorted permutation, and the only one.
- `migrate.dfy` (module `Migrate`):
  - the file selection `files.filter(...).sort()`;
  - the plan of pending files;
  - the prefix of the plan that a run gets through;
  - the class `MigrationStore`. It holds the `migrations` table (id to name), the SERIAL counter and the applied schema changes, with `ExecuteMigration` and `RunMigrations`.

## The model follows the code

The model follows the code as written, including behaviour that a replay-safe projection would avoid. A replay-safe projection would update counters and stakes from the prior row's value; the code does not:

- **Vote counters.** `handleVoteAdded` adds 1 to `upvotes` when the type is `"UP"` and 1 to `downvotes` when it is `"DOWN"`. It does this whatever vote the same voter cast before (backend/db/sync.js:87-88).
- **Whose counters.** The profile updated is the one whose address is the **voter**, not the subject (backend/db/sync.js:89). The subject's address is passed to the handler and never used.
- **Stake moves.** `handleStakeDelegated` overwrites the stake row with the event's `amount`. It then moves that whole `amount` from the delegator's `totalStake` to the delegate's, not the difference from the previous amount (backend/db/sync.js:119-128).
- **Missing profiles.** A missing profile is not an error. The `UPDATE` simply matches no row.

The lemmas in `SyncProperties` spell out what follows from this:
- a replayed vote counts twice;
- changing a vote from UP to DOWN leaves both counters raised;
- votes raise the voter's counters, not the subject's, unless the two are the same account;
- a replayed delegation moves the amount twice;
- amending a delegation from `a` to `b` moves `a + b` (100 then 40 moves 140);
- the total stake over all profiles is conserved when both profiles exist or neither does; otherwise it moves by −amount or +amount.

## Model

| member | source | states |
|---|---|---|
| `Sync.ProfileFetched` | backend/db/sync.js:26-51 | After the upsert the row for the address is exactly the event's profile, whether or not a row existed. Every other profile row, all votes and all stakes are unchanged. |
| `Sync.AddVoteCounts` | backend/db/sync.js:81-91 | The counter `UPDATE` adds the increments to the matching row only. With no matching row it changes nothing, and it never adds or removes a row. |
| `Sync.AdjustStake` | backend/db/sync.js:117-122 | A `totalStake` `UPDATE` changes only the matching row's `totalStake`, by the delta. With no matching row it is a no-op. |
| `Sync.VoteAdded` | backend/db/sync.js:60-93 | The (voter, hash) vote row now holds the latest event's type, stake and timestamp×1000 (the row built at lines 71-77); other vote rows are unchanged. On the VOTER's profile (if present), upvotes rise by 1 iff the type is "UP" and downvotes by 1 iff it is "DOWN" (lines 87-88), and nothing else changes. Every other profile and the stakes are untouched. |
| `Sync.StakeDelegated` | backend/db/sync.js:105-131 | The (from, to) stake row holds exactly `amount`, overwriting any prior amount; other stake rows are unchanged. Each existing profile's totalStake changes by −amount if it is `from` and +amount if it is `to`, and nothing else in it changes. |
| `Sync.SyncStore.HandleProfileFetched` | backend/db/sync.js:23-55 | The one upsert either succeeds, and the tables become `ProfileFetched` of the old tables, or throws and nothing changes. |
| `Sync.SyncStore.HandleVoteAdded` | backend/db/sync.js:57-100 | It succeeds iff none of BEGIN, upsert, update or COMMIT throws. On success the tables are `VoteAdded` of the old ones. On failure, all three tables equal their pre-event state and the error is passed on. |
| `Sync.SyncStore.HandleStakeDelegated` | backend/db/sync.js:102-138 | It succeeds iff none of BEGIN, upsert, debit, credit or COMMIT throws. On success the tables are `StakeDelegated` of the old ones. On failure, all three tables equal their pre-event state. |
| `Sync.SyncStore.Rollback` | backend/db/sync.js:94-96 | The three tables become the given snapshot; the handlers pass the state they saved at BEGIN, so this is ROLLBACK. |
| `SyncProperties.AdjustStakeSum` | backend/db/sync.js:117-129 | One totalStake update moves the sum of totalStake over all profiles by its delta, or by nothing when the row is missing. |
| `SyncProperties.StakeDelegatedSum` | backend/db/sync.js:117-129 | A delegation changes the total stake sum by −amount when the delegator's row exists and by +amount when the delegate's exists. So it is conserved when both exist or neither does. |
| `SyncProperties.SelfDelegationKeepsProfiles` | backend/db/sync.js:117-129 | When from == to, every profile (including its totalStake) is unchanged and the stake row still holds the new amount. |
| `SyncProperties.VoteAddedKeepsStakeSum` | backend/db/sync.js:81-91 | A vote never changes the sum of totalStake. |
| `SyncProperties.ProfileFetchedIdempotent` | backend/db/sync.js:31-39 | Applying the same profile snapshot twice gives the same state as once. |
| `SyncProperties.VoteReplayCountsTwice` | backend/db/sync.js:63-90 | Redelivering the same VoteAdded leaves the vote table as after one delivery, but raises the voter's counter by 2. With an UP or DOWN type and an existing profile, the state therefore differs from one delivery. |
| `SyncProperties.VoteChangeKeepsOldCount` | backend/db/sync.js:63-90 | An UP vote followed by a DOWN vote from the same voter on the same hash leaves one vote row, which says DOWN. The voter's upvotes and downvotes have both gone up by 1. |
| `SyncProperties.VotesDoNotReachSubject` | backend/db/sync.js:81-91 | From an empty store, take a profile snapshot of a subject, then an UP and a DOWN vote by another account. The subject's row equals the snapshot, and exactly one vote row (DOWN) exists. |
| `SyncProperties.StakeReplayMovesTwice` | backend/db/sync.js:108-129 | Redelivering the same StakeDelegated leaves the stake row as one delivery does, but debits `from` and credits `to` twice. |
| `SyncProperties.StakeAmendmentAddsUp` | backend/db/sync.js:108-129 | Delegating `a` and then `b` on the same pair leaves a row of `b`, but moves `a + b` from `from` to `to` (100 then 40 moves 140). |
| `NameOrder.CodeUnits` | backend/db/migrate.js:79 | A character below U+10000 is the one code unit equal to it, never a surrogate. Any other character is a high surrogate (0xD800-0xDBFF) followed by a low surrogate (0xDC00-0xDFFF) that decode back to it. |
| `NameOrder.Utf16Injective` | backend/db/migrate.js:79 | Different strings have different UTF-16 code-unit sequences. |
| `NameOrder.UnitsLeFirstDifference` | backend/db/migrate.js:79 | The comparison used by `sort()`: `a` sorts no later than `b` iff `a` is a prefix of `b` or, at the first code unit where they differ, `a`'s unit is smaller. |
| `NameOrder.UnitsLeAntisymmetric` | backend/db/migrate.js:79 | Two code-unit sequences that each sort no later than the other are equal. |
| `NameOrder.NameLeAntisymmetric` | backend/db/migrate.js:79 | Two file names that each sort no later than the other are the same name. |
| `NameOrder.UnitsLeTotal` | backend/db/migrate.js:79 | Any two code-unit sequences are comparable under the lexicographic order. |
| `NameOrder.UnitsLeTransitive` | backend/db/migrate.js:79 | The lexicographic code-unit order is transitive. |
| `NameOrder.Insert` | backend/db/migrate.js:79 | Inserting into a sorted list gives a sorted list holding the old names plus the new one. |
| `NameOrder.SortNames` | backend/db/migrate.js:79 | `sort()` returns a permutation of its input that is sorted by UTF-16 code units. |
| `NameOrder.SortedUnique` | backend/db/migrate.js:79 | Two sorted lists holding the same names with the same multiplicities are equal. |
| `NameOrder.SortNamesUnique` | backend/db/migrate.js:79 | Every sorted permutation of the names equals `SortNames` of them, so `SortNames` gives exactly the result of `sort()`. |
| `Migrate.SqlFileSuffix` | backend/db/migrate.js:78 | `IsSqlFile` holds iff the name is some stem followed by ".sql", as `endsWith('.sql')` does. |
| `Migrate.Filter` | backend/db/migrate.js:77-78 | `filter` keeps exactly the elements the predicate accepts. |
| `Migrate.FilterMultiset` | backend/db/migrate.js:77-78 | `filter` keeps every copy of an accepted element and no copy of a rejected one. |
| `Migrate.FilterConcat` | backend/db/migrate.js:82-86 | Filtering a concatenation is the concatenation of the filtered parts. |
| `Migrate.FilterSorted` | backend/db/migrate.js:82-86 | Skipping elements of a sorted list leaves it sorted. |
| `Migrate.MigrationFiles` | backend/db/migrate.js:76-79 | The selected files are a permutation of the directory entries ending in ".sql" (each kept as often as it occurs), in ascending UTF-16 order. |
| `Migrate.Plan` | backend/db/migrate.js:77-83 | The files executed are exactly the ".sql" entries not in the record read before the loop (the `includes` test of line 83, `NotIn`), in ascending order. |
| `Migrate.PlanMultiset` | backend/db/migrate.js:77-83 | The plan holds each pending ".sql" entry as often as the listing does, and nothing else. |
| `Migrate.SucceedingPrefix` | backend/db/migrate.js:82-86 | The files a run gets through are a prefix of the plan that contains no failing file. When it is shorter than the plan, the next file fails. |
| `Migrate.SucceedingPrefixUnique` | backend/db/migrate.js:84 | Those three properties determine which files a run gets through. |
| `Migrate.MigrationStore.ExecutedMigrations` | backend/db/migrate.js:29-37 | The names returned are exactly those of the `migrations` rows, listed by `NamesBelow` in id order; when `Valid()` holds they are the migrations in effect on the schema. `RecordAppend` shows a new row is read back last. |
| `Migrate.NamesBelowMembers` | backend/db/migrate.js:32-33 | A name is read back iff some row with an id below the bound carries it. |
| `Migrate.RecordAppend` | backend/db/migrate.js:32-33 | A row inserted with the next SERIAL id is read back last by `ORDER BY id`, so the record lists migrations in execution order. |
| `Migrate.RecordStaysDuplicateFree` | backend/db/migrate.js:83 | If neither the record nor the listing has a repeated name, the record has none after the run. A recorded file is never executed again. |
| `Migrate.SecondRunPlansNothing` | backend/db/migrate.js:83 | After a complete run every ".sql" entry is recorded, and a second run over the same listing plans nothing. |
| `Migrate.CompletedRunRecordsAll` | backend/db/migrate.js:82-86 | When no planned file fails, the run gets through the whole plan and every ".sql" entry ends up recorded. |
| `Migrate.FailureEndsPrefix` | backend/db/migrate.js:84 | When the loop meets its first failing file, the files executed so far are the succeeding prefix, and the failing file is the next one in the plan. |
| `Migrate.PendingStep` | backend/db/migrate.js:83 | The loop plans one more file exactly when that file is not in the record. |
| `Migrate.MigrationStore.ExecuteMigration` | backend/db/migrate.js:39-65 | It succeeds iff none of the file read, BEGIN, the SQL, the INSERT or COMMIT throws. On success exactly the file name is appended to the record and the SQL takes effect. On failure neither persists; the schema and the record always agree. |
| `Migrate.MigrationStore.ExecutePending` | backend/db/migrate.js:82-86 | Files not in the record are executed in order until the first failure. The record grows by exactly the succeeding prefix, and the outcome names the failing file. |
| `Migrate.MigrationStore.RunMigrations` | backend/db/migrate.js:67-91 | The record grows by the succeeding prefix of the plan. The run reports completion iff nothing failed, and otherwise names the first failing file, with no later file attempted. After a complete run every ".sql" entry is recorded. |

## Left out

- Connection handling: the `pg` pool, `connect`/`release`, `pool.end` and the environment configuration. A "client" is direct access to the store.
- The `ethers` provider, the contract object and the `contract.on` subscriptions. Events are method calls on `SyncStore`, one at a time. The source dispatches handlers concurrently, and `handleProfileFetched` runs outside a transaction. Interleavings of concurrent handlers are not modelled: each handler is one atomic transition.
- `unhandledRejection`, the SIGTERM/SIGINT shutdown, `process.exit` and the `console.log`/`console.error` logging (backend/db/migrate.js:57, 60, 88, 90): process concerns.
- BigNumber conversions. `toNumber()` throws above 2^53, and amounts and counters here are unbounded `int`. `Date` conversion is also left out: timestamps are `int` milliseconds, and only the ×1000 scaling is kept.
- Column types. `totalStake - $1` is taken to be integer arithmetic. The schema that fixes the column types comes from migration files that are not part of this model.
- `voteType` is the string the handler compares with `'UP'`/`'DOWN'`. How the ledger encodes the enum is not part of this model.
- A `ROLLBACK` that itself throws. The rollback always restores the snapshot.
- `createMigrationsTable`. A `MigrationStore` always has its `migrations` table. `CREATE TABLE IF NOT EXISTS` leaves an existing table as it is.
- A failing `getExecutedMigrations` or `readdir` before the loop: `runMigrations` then exits having executed nothing.
- The `executed_at` column (backend/db/migrate.js:21) is not modelled.
- The SQL text of each migration. It is opaque: its effect is recorded in `schema` as the file name, and whether a statement throws is given by a `Fault` per file.
- The SERIAL counter when the `INSERT` itself throws. The model does not advance it then. It does advance it when `COMMIT` throws after the insert, since sequences are not rolled back. Only the relative order of ids is used.
