# Verified model of RTRT's session migration and its protocols

RTRT gives every project a private OpenCode store. This project models the logic that moves sessions
there and the protocols around it, and proves what they promise on all inputs and over all runs.

- **Migration of the global session store** (`crates/rtrt-cli/src/opencode_sessions.rs`). The source graph is
  routed (`SessionForest`, `Quarantine`, `Routing`, `SessionRouting`, `RouteMeaning`), split into one plan per destination
  (`Selection`, `SelectionClosure`, `PlanContents`) and merged into private stores that their owners have changed meanwhile:
  event logs by prefix comparison with an archive for forks (`EventGraph`, `EventStore`, `EventMerge`, `Forks`), other tables
  by primary key or by counting rows (`RowKeys`, `TableMerge`), a destination and then all of them
  all-or-nothing and repeatable (`Migration`, `MigrationRun`, `MigrationMeaning`); `Delivery` and `Journals` follow a row the whole way.
  Private stores are repaired (`Repair`, `RepairKeeps`),
  reads are bracketed by generation stamps (`Checkpoints`), schemas are compared by a token signature (`SchemaSignature`, `SchemaMeaning`).
- **Permission broker and child sessions** (`plugins/opencode/rtrt-provenance.js`): event handlers that interleave at their
  awaits over shared maps (`BrokerState`, `BrokerSafety`, `BrokerRuns`, `BrokerMeaning`, `Broker`;
  `ChildLifecycle`, `ChildSafety`, `ChildMeaning`, `Lifecycle`).
- **Registry of authorised projects** (`crates/rtrt-cli/src/sandbox.rs`): a lock file among launchers that may die (`Registry`, `RegistryMeaning`).
- **Durable outbox** (`crates/rtrt-cli/src/forward.rs` with its spool and the collector): at-least-once delivery that is
  stored once (`Outbox`, `OutboxMeaning`).
- **Hashing** (the vendored ring): buffered digests, keyed hashes and key expansion against their one-shot
  standards (`Digest`, `Padding`, `DigestContext`, `Hmac`, `Hkdf`).
- **Token compression** (`crates/rtrt-compress/src/ml.rs`): the best tokens of a budget (`Compression`, `TokenOrder`).

`Wrappers` and `Basics` hold what several of them share. `dafny verify dfyconfig.toml` checks everything.

## How the model is built

- A table with a primary key is a map from key to row; one without is a sequence of rows, compared as a multiset.
  A history is one aggregate's sequence row with its events in order. A transaction either replaces the state or leaves it.
- Code that changes state step by step is a class or a loop whose contract names a function of the old state; the lemmas
  are about those functions, and the modules whose names end in `Meaning` say what they come to without them. Iteration in unspecified order picks any element left.
- The concurrent parts are state machines. A step is the code between two awaits, or between two accesses to shared
  storage, and runs are arbitrary sequences of steps. The classes beside them carry out exactly one step per method.
- Parameters stand for what is not modelled: the path-to-project function, the fingerprint of a fork in the migration, SQLite's
  verdict on a store (integrity, foreign keys, unique indexes), the stamps of a database and the versions it goes
  through, answers of OpenCode and of the collector, the block function of a hash, the Unicode classes of characters.

## What the proofs brought up

The model follows the code. Each of these is a lemma with the exact condition and, beside it, an input that shows the difference.

- `Quarantine.QuarantinesAgreeIff` and `Quarantine.QuarantinesMayDiffer`: the catch-up overlooks a badly named session that has no route of its own; it goes with its
  nearest routed ancestor, possibly into a project's store, and the repair there removes it.
- `Repair.NoneNamesRemovedIff` and `Repair.RemovedCanBeNamed`: the repair looks at the message alone where a table has a column for messages, so a row of a
  removed session stays when its message is of another.
- `Selection.QuarantinedIsDroppedIff` and `SelectionClosure.HangingRowCanBeKept`: the catch-up looks at the session first, so a row that names a session of its
  own is kept although its message goes with a quarantined one.
- `SelectionClosure.ParentKeptIff` and `SelectionClosure.ParentCanBeLeftBehind`: a child with a path of its own can be
  selected without its parent, exactly when that path leads elsewhere; where the schema declares that reference it then dangles, and the destination's merge is aborted.
- `Selection.ProjectRowKeptIff` and `Selection.ProjectRowCanBeLost`: a row linked to a project alone is in no plan when the project leads to a destination that no
  session goes to, whether or not the project has sessions.
- `EventGraph.CatchUpIsConfluent` and `EventGraph.CatchUpCanDiffer`: merging in two steps differs from merging once exactly when an event appended in
  between reuses an id of the private store.
- `Repair.RootsConserved` and `Repair.WrongCase`: the query that counts root sessions ignores case (`LIKE`), the check of names does not.
- `SchemaSignature.RewritingKeepsTokens` and `SchemaSignature.MinusIsSwallowed`: a line comment directly after a minus sign swallows the minus.
- `Outbox.NothingLostIff` and `Outbox.ReusedIdLosesAnEvent`: the row to delete is found by its id alone, so an id used for a second event can delete
  that event unsent.
- `ChildSafety.ForgottenIff` and `ChildSafety.EndToldTwice`: an end can be told twice, as when a child idles and is then deleted; at the bound each telling
  forgets the oldest other child, so one can be forgotten although there is room for it.
- `Compression.HardKeepsSurviveIff` and `Compression.HardKeepCanBeLost`: tokens that carry facts do not survive every ratio, as the comment at
  `crates/rtrt-compress/src/ml.rs:76` says; they survive when the budget has room for all of them. The heuristic's
  ceiling is 1.2, not 1.5 as the comment at line 73 says (`Compression.HardKeepsScoreHighest`, `Compression.LongWordsReachCeiling`), and its scores
  leave the range [0, 1] that the trait documents, exactly as `Compression.InUnitRangeIff` says and for `Compression.UnitRangeCanBeLeft`.

A message and a comment of the code are confirmed, and one list of failures is completed:

- `Registry.DeadHolderFreezes`: a lock left by a dead launcher is never broken, as the error message says.
- `Hkdf.MacFailsIff` settles what the comment at `THIRD_PARTY_NOTICES/ring@0.17.14/src/hmac.rs:362` calls quite difficult to
  prove: the outer hash never fails.
- `Hkdf.FillOkm`: beside the documented failure, filling fails exactly for a buffer of the wrong length, and panics exactly when the
  info is too long to hash.

## Model

| member | source | states |
|---|---|---|
| `EventGraph.RepresentsIsValid` | crates/rtrt-cli/src/opencode_sessions.rs:1894-1933 | tables that hold well-formed histories, with unique keys, are exactly dense, in range and duplicate-free as the check demands |
| `EventGraph.RepresentsUnique` | crates/rtrt-cli/src/opencode_sessions.rs:2702-2741 | the two tables determine the histories they hold |
| `EventGraph.MergeKeepsPrivateHistories` | crates/rtrt-cli/src/opencode_sessions.rs:2638-2694 | every private history is a prefix of what is there after the merge, under the same owner |
| `EventGraph.MergeIsLossless` | crates/rtrt-cli/src/opencode_sessions.rs:2617-2694 | every source history is a prefix of what is there after the merge, or is a conflict and goes to the archive whole |
| `EventGraph.ConflictsLeavePrivateAlone` | crates/rtrt-cli/src/opencode_sessions.rs:2633-2639 | a conflicting aggregate stays exactly as the private store had it |
| `EventGraph.MergeIsValid` | crates/rtrt-cli/src/opencode_sessions.rs:2612-2694 | the merged histories are dense and their ids unique again, although the private ids are collected once before the loop |
| `EventGraph.ForksIffNoCommonExtension` | crates/rtrt-cli/src/opencode_sessions.rs:2648-2674 | a history is set aside if and only if no well-formed store could contain it together with all private histories |
| `EventGraph.MergeIsIdempotent` | crates/rtrt-cli/src/opencode_sessions.rs:2610-2694 | merging the same source again changes nothing and reports the same conflicts |
| `EventGraph.CatchUpIsConfluent` | crates/rtrt-cli/src/opencode_sessions.rs:2610-2694 | merging an earlier and then a grown source equals merging the grown one directly, if and only if no event appended in between reuses an id of the private store behind a history that was taken over |
| `EventGraph.CatchUpCanDiffer` | crates/rtrt-cli/src/opencode_sessions.rs:2654-2674 | two aggregates and a reused id: merging in two steps differs from merging once |
| `EventStore.HighWaters` | crates/rtrt-cli/src/opencode_sessions.rs:1902-1909 | accepts the sequence rows if and only if aggregates are unique and marks not negative; returns the mark of each |
| `EventStore.Positions` | crates/rtrt-cli/src/opencode_sessions.rs:1910-1926 | accepts the event rows if and only if ids and positions are unique and within the marks; returns the occupied positions |
| `EventStore.ValidateEventGraph` | crates/rtrt-cli/src/opencode_sessions.rs:1894-1933 | true if and only if the tables are well-formed: every log dense from zero to its mark, ids and positions unique |
| `EventStore.GroupEvents` | crates/rtrt-cli/src/opencode_sessions.rs:2702-2730 | fails if and only if an event has no sequence row; otherwise each history has its events in row order |
| `EventStore.EventHistories` | crates/rtrt-cli/src/opencode_sessions.rs:2702-2741 | for well-formed tables the one family of histories that they hold |
| `EventStore.SortedIsDense` | crates/rtrt-cli/src/opencode_sessions.rs:2731-2739 | sorting the events of an aggregate by position puts event k at place k, up to the mark |
| `EventStore.GroupedIsHistories` | crates/rtrt-cli/src/opencode_sessions.rs:2702-2741 | grouping and sorting yields the histories the tables hold, whatever the order of the rows |
| `EventMerge.TailIsFresh` | crates/rtrt-cli/src/opencode_sessions.rs:2612-2667 | an id found new against the ids collected before the loop is still new when its turn comes |
| `EventMerge.TailInserts` | crates/rtrt-cli/src/opencode_sessions.rs:2640-2681 | what is about to be inserted collides with no id and no position in the tables as they are by then |
| `EventMerge.EventTables.InsertEvent` | crates/rtrt-cli/src/opencode_sessions.rs:3033-3050 | an event goes in if and only if neither its id nor its position is taken |
| `EventMerge.EventTables.UpdateHighWater` | crates/rtrt-cli/src/opencode_sessions.rs:2688-2691 | only the mark of the named aggregate changes, not its owner |
| `EventMerge.EventTables.Adopt` | crates/rtrt-cli/src/opencode_sessions.rs:2640-2646 | an absent aggregate is inserted with all its events, never refused by a key |
| `EventMerge.EventTables.Append` | crates/rtrt-cli/src/opencode_sessions.rs:2678-2692 | the tail and the new mark extend the private history in place, never refused by a key |
| `EventMerge.EventTables.MergeHistory` | crates/rtrt-cli/src/opencode_sessions.rs:2617-2693 | one turn of the loop takes the tables to the histories the merge defines, counting changes, conflicts and archived forks |
| `EventMerge.EventTables.MergeHistories` | crates/rtrt-cli/src/opencode_sessions.rs:2617-2694 | the loop, in any order of the aggregates, ends in the merged histories with the exact counts; it fails only on a fingerprint collision, some forks archived |
| `EventMerge.EventTables.MergeEventGraph` | crates/rtrt-cli/src/opencode_sessions.rs:2590-2695 | the in-place merge of the tables equals the merge of their histories, fails only on malformed private tables or a collision, and stores every conflict whole |
| `EventMerge.ForkArchive.Archive` | crates/rtrt-cli/src/opencode_sessions.rs:2786-2832 | stores a history once; the same fingerprint with other content is an error that changes nothing |
| `EventMerge.ArchivedOrCollision` | crates/rtrt-cli/src/opencode_sessions.rs:2796-2832 | archiving the next conflict succeeds exactly as long as no fingerprint serves two histories |
| `EventMerge.ArchiveResumes` | crates/rtrt-cli/src/opencode_sessions.rs:2786-2853 | an archive that already has some of the forks accepts the rest, or refuses, exactly as an empty one |
| `Forks.SameForkIdIff` | crates/rtrt-cli/src/opencode_sessions.rs:2744-2756 | two different histories have the same fingerprint if and only if the 64-bit hash collides on their texts |
| `Forks.CollisionIff` | crates/rtrt-cli/src/opencode_sessions.rs:2744-2832 | archiving the conflicts of a merge fails if and only if that hash collides on the texts of two histories archived or to be |
| `Forks.StaysFiled` | crates/rtrt-cli/src/opencode_sessions.rs:2786-2832 | every archived history stays under its own fingerprint |
| `Forks.HashBytes` | crates/rtrt-cli/src/opencode_sessions.rs:2750-2754 | the loop computes the hash, byte by byte with wrapping products |
| `Forks.Fingerprint` | crates/rtrt-cli/src/opencode_sessions.rs:2744-2756 | the fingerprint of a history is v1- and the hash of its text in sixteen hexadecimal digits |
| `RowKeys.KeyRoundTrip` | crates/rtrt-cli/src/opencode_sessions.rs:3007-3031 | a row's byte key can be read back to the row |
| `RowKeys.KeyInjective` | crates/rtrt-cli/src/opencode_sessions.rs:3007-3031 | two rows with the same key are the same row, whatever their width |
| `RowKeys.RowKey` | crates/rtrt-cli/src/opencode_sessions.rs:3007-3025 | the loop over the values builds that key |
| `RowKeys.ForkText` | crates/rtrt-cli/src/opencode_sessions.rs:2746-2749 | the text a fork's fingerprint is taken of: the sequence row's key followed by the events' keys |
| `RowKeys.ForkTextInjective` | crates/rtrt-cli/src/opencode_sessions.rs:2746-2749 | different histories have different texts, so only the hash itself can collide |
| `TableMerge.FilledMeaning` | crates/rtrt-cli/src/opencode_sessions.rs:3059-3099 | no private row changes; a free key is taken by the first source row that bears it, and no other key appears |
| `TableMerge.FilledIdempotent` | crates/rtrt-cli/src/opencode_sessions.rs:2542-2551 | merging the same keyed rows again changes nothing |
| `TableMerge.JoinedCounts` | crates/rtrt-cli/src/opencode_sessions.rs:2978-2993 | for every row the larger of the two counts |
| `TableMerge.JoinedIdempotent` | crates/rtrt-cli/src/opencode_sessions.rs:2950-2995 | merging the same keyless rows again changes nothing |
| `TableMerge.TableStore.EnsureTable` | crates/rtrt-cli/src/opencode_sessions.rs:2856-2881 | a missing table is created, one of another kind is a schema conflict, and nothing else changes |
| `TableMerge.TableStore.InsertOrCompare` | crates/rtrt-cli/src/opencode_sessions.rs:3059-3099 | inserted, identical or conflict, and the private row stays in the last two cases |
| `TableMerge.TableStore.MergeKeyed` | crates/rtrt-cli/src/opencode_sessions.rs:2542-2551 | the loop adds exactly the rows with free keys and counts insertions and conflicts |
| `TableMerge.TableStore.MergeKeyless` | crates/rtrt-cli/src/opencode_sessions.rs:2950-2995 | every row ends with the larger of its counts, private rows keep their places, and the number of insertions is exact |
| `TableMerge.CountRows` | crates/rtrt-cli/src/opencode_sessions.rs:2951-2957 | grouping by byte key counts every distinct source row |
| `TableMerge.GroupDone` | crates/rtrt-cli/src/opencode_sessions.rs:2978-2993 | topping up one group leaves the counts of all others |
| `Migration.CreateTables` | crates/rtrt-cli/src/opencode_sessions.rs:2526-2528 | all tables of the plan exist afterwards, or one of them is of another kind |
| `Migration.CopyTables` | crates/rtrt-cli/src/opencode_sessions.rs:2534-2553 | in any order of the tables, each ends in its merged content; what that is, table by table and for journals, say `MigrationMeaning.KeyedTableMeaning`, `MigrationMeaning.KeylessTableMeaning`, `MigrationMeaning.TableStays` and `Journals.JournalsStay` |
| `MigrationMeaning.KeyedTableMeaning` | crates/rtrt-cli/src/opencode_sessions.rs:2534-2553 | under a primary key is the private row, else the first row of the plan that bears the key, else nothing |
| `MigrationMeaning.KeylessTableMeaning` | crates/rtrt-cli/src/opencode_sessions.rs:2534-2553 | in a table without one, every row is there as often as in the store or in the plan, whichever is more |
| `MigrationMeaning.TableStays` | crates/rtrt-cli/src/opencode_sessions.rs:2526-2553 | a table outside the plan stays as it is; one whose rows are not copied, as a journal in a store that existed, stays or is created empty |
| `MigrationMeaning.RejectedMeaning` | crates/rtrt-cli/src/opencode_sessions.rs:2542-2551 | the number of conflicts reported is that of the rows whose key the table holds with other columns |
| `Journals.JournalsStay` | crates/rtrt-cli/src/opencode_sessions.rs:2534-2553 | a store that was there keeps each journal exactly, and has an empty one where it had none, however often the migration was cut short and repeated |
| `Journals.NewStoreHolds` | crates/rtrt-cli/src/opencode_sessions.rs:2534-2553 | a new store holds every copied row of its plan, journals included, as often as the plan does, and no other |
| `Journals.SourceJournalsSeeded` | crates/rtrt-cli/src/opencode_sessions.rs:35-42 | over the whole way from the source, a new store starts with its four migration logs, row by row |
| `Journals.SourceJournalsStay` | crates/rtrt-cli/src/opencode_sessions.rs:2534-2553 | and a store that was there has none of their rows added |
| `Migration.MergedStoreKeepsPrivateRows` | crates/rtrt-cli/src/opencode_sessions.rs:2466-2588 | every private row of every table and every private event is there after the merge of a whole plan |
| `Migration.MergedStoreIsFixed` | crates/rtrt-cli/src/opencode_sessions.rs:2466-2588 | a merged store is a fixed point of its plan, journals included, now that it exists |
| `Migration.FinishedIsFixed` | crates/rtrt-cli/src/opencode_sessions.rs:2466-2588 | a finished destination can be merged again, and that changes neither store nor archive |
| `Migration.ResumedIsSame` | crates/rtrt-cli/src/opencode_sessions.rs:2466-2588 | from wherever an interruption left a destination, the merge succeeds if and only if it would have, with the same outcome |
| `Migration.RerunIsUninterrupted` | crates/rtrt-cli/src/opencode_sessions.rs:307-325 | a migration cut short anywhere and repeated ends in the same stores as one that was not |
| `Migration.InterruptedAgain` | crates/rtrt-cli/src/opencode_sessions.rs:307-325 | it may be cut short any number of times before the run that completes |
| `MigrationRun.OpenedMerge` | crates/rtrt-cli/src/opencode_sessions.rs:2492-2570 | the transaction on an opened store is the destination merge |
| `MigrationMeaning.PrecheckedIff` | crates/rtrt-cli/src/opencode_sessions.rs:2399-2464 | the checks ask of a destination that exists that it is well-formed, sound and has tables of the plan's kinds, and of a new one nothing |
| `MigrationMeaning.MergedIff` | crates/rtrt-cli/src/opencode_sessions.rs:2466-2588 | a destination is merged if and only if it passes those checks, no fingerprint serves two histories, and the outcome is sound |
| `MigrationMeaning.FinalIsSound` | crates/rtrt-cli/src/opencode_sessions.rs:297-326 | after a migration, cut short or not, every destination passes the checks, and no other store has changed |
| `MigrationRun.Home.Precheck` | crates/rtrt-cli/src/opencode_sessions.rs:2399-2464 | accepts a destination if and only if it is absent, or well-formed, sound and of the same schema |
| `MigrationRun.Home.MergeTables` | crates/rtrt-cli/src/opencode_sessions.rs:2526-2553 | creating, merging events and copying rows succeeds exactly without schema conflict and collision, and yields the merged content |
| `MigrationRun.Home.MergeSite` | crates/rtrt-cli/src/opencode_sessions.rs:2466-2588 | all or nothing: the merged store, or the old one with at most some forks archived |
| `MigrationRun.Home.MergeAll` | crates/rtrt-cli/src/opencode_sessions.rs:314-321 | destinations in any order; the first that fails ends the run in a state that can be repeated |
| `MigrationRun.Home.Migrate` | crates/rtrt-cli/src/opencode_sessions.rs:297-326 | nothing is written unless every destination passes its checks; then the run ends in the final stores or in a repeatable state |
| `MigrationRun.KilledAnywhere` | crates/rtrt-cli/src/opencode_sessions.rs:307-325 | a run killed between or inside destination merges can be repeated with the same outcome as if it had not been |
| `SessionForest.SettledReaches` | crates/rtrt-cli/src/opencode_sessions.rs:2102-2115 | when a sweep changes nothing, every session below a routed one is routed |
| `SessionForest.Sweep` | crates/rtrt-cli/src/opencode_sessions.rs:2103-2111 | one sweep in any order only hands routes from parents to children, and reports whether it did |
| `SessionForest.Propagate` | crates/rtrt-cli/src/opencode_sessions.rs:2102-2115 | as many rounds as sessions route exactly the sessions with a routed ancestor, each to its nearest, whatever the order |
| `SessionForest.NearestRouteIs` | crates/rtrt-cli/src/opencode_sessions.rs:2049-2121 | own route, else that of the nearest routed ancestor, else legacy-global, in cycles of parents too |
| `SessionForest.ChildGoesWithParent` | crates/rtrt-cli/src/opencode_sessions.rs:2102-2121 | a session without a route of its own goes wherever its parent goes |
| `SessionForest.CloseUnderParents` | crates/rtrt-cli/src/opencode_sessions.rs:1046-1060 | as many rounds as rows reach the least set closed under having a parent in it |
| `Quarantine.MalformedSessionClosure` | crates/rtrt-cli/src/opencode_sessions.rs:1036-1062 | the least set with the badly named sessions, the children of badly named parents, and everything below |
| `Quarantine.QuarantineSessions` | crates/rtrt-cli/src/opencode_sessions.rs:2069-2097 | the same over the seeds of the catch-up, which sees a bad name only on a directly routed session |
| `Quarantine.LeastIsUnique` | crates/rtrt-cli/src/opencode_sessions.rs:1046-1060 | there is only one such least set |
| `Quarantine.LeastMeaning` | crates/rtrt-cli/src/opencode_sessions.rs:1046-1060 | a session is in it if and only if it is a seed or below one |
| `Quarantine.RepairMeaning` | crates/rtrt-cli/src/opencode_sessions.rs:1036-1062 | the repair removes a session if and only if it or an ancestor is badly named |
| `Quarantine.CatchUpMeaning` | crates/rtrt-cli/src/opencode_sessions.rs:2069-2097 | the catch-up quarantines it if and only if an ancestor proper is badly named, or it is itself and has a route of its own |
| `Quarantine.QuarantinesAgreeIff` | crates/rtrt-cli/src/opencode_sessions.rs:1036-1097 | the two sets agree exactly when every badly named session without a route of its own has a badly named ancestor |
| `Quarantine.QuarantinesMayDiffer` | crates/rtrt-cli/src/opencode_sessions.rs:2069-2097 | they differ for a single badly named session without route or parent |
| `Routing.AllConsistentAgrees` | crates/rtrt-cli/src/opencode_sessions.rs:2232-2243 | an id goes where all its rows point, and to legacy-global as soon as two differ |
| `Routing.MetadataMeaning` | crates/rtrt-cli/src/opencode_sessions.rs:2245-2250 | the first of the worktree, the directory, the path and the root that identifies a destination decides |
| `Routing.OrderIsImmaterial` | crates/rtrt-cli/src/opencode_sessions.rs:2232-2243 | the outcome does not depend on the order or number of the rows |
| `Routing.ProjectRouteMeaning` | crates/rtrt-cli/src/opencode_sessions.rs:1984-2019 | a project goes where its own paths and its directories agree, else to legacy-global, also when nothing is known |
| `Routing.RouteProjects` | crates/rtrt-cli/src/opencode_sessions.rs:1984-2019 | the three loops over projects and directories compute that |
| `Routing.WorkspaceRouteMeaning` | crates/rtrt-cli/src/opencode_sessions.rs:2020-2044 | a workspace goes where its project goes, else where its own paths point, else to legacy-global |
| `Routing.OnlyWorkspacesRouted` | crates/rtrt-cli/src/opencode_sessions.rs:2020-2044 | and nothing but the ids of workspace rows is routed |
| `Routing.RouteWorkspaces` | crates/rtrt-cli/src/opencode_sessions.rs:2020-2044 | the loops compute the routes of which these two say what they are |
| `SessionRouting.RouteSessionRows` | crates/rtrt-cli/src/opencode_sessions.rs:2045-2121 | every session is routed to its own, its nearest ancestor's, or the legacy destination, quarantined ones to legacy-global; which is its own says `RouteMeaning.SessionRouteMeaning` |
| `RouteMeaning.SessionRouteMeaning` | crates/rtrt-cli/src/opencode_sessions.rs:2050-2121 | outside the quarantine a session goes where its directory belongs, else with its workspace, else with its project, and only then with its parent, or to legacy-global without one; inside it to legacy-global |
| `RouteMeaning.QuarantinedMeaning` | crates/rtrt-cli/src/opencode_sessions.rs:2065-2100 | the catch-up quarantines a session below a badly named one, and a badly named one itself exactly if its directory, workspace or project gives it a route |
| `SessionRouting.MalformedToLegacy` | crates/rtrt-cli/src/opencode_sessions.rs:2098-2100 | quarantined sessions all go to legacy-global |
| `SessionRouting.CollectNeeds` | crates/rtrt-cli/src/opencode_sessions.rs:2145-2189 | a destination needs a project or workspace if and only if a well-formed session that goes there refers to it, the workspace's project included |
| `SessionRouting.CollectDirectoryNeeds` | crates/rtrt-cli/src/opencode_sessions.rs:2190-2208 | and the projects of directories that identify it |
| `SessionRouting.RouteSessions` | crates/rtrt-cli/src/opencode_sessions.rs:1979-2230 | fails exactly on a missing session or message table or a session without text id; otherwise it yields an attribution of which `RouteMeaning.SessionRouteMeaning` and `RouteMeaning.QuarantinedMeaning` say where each session goes, with legacy-global among the destinations when something is unattributed |
| `Selection.SelectRows` | crates/rtrt-cli/src/opencode_sessions.rs:2267-2338 | each table of a plan has the rows that are kept for the destination, in order; which these are say `PlanContents.ProjectKeptIff`, `PlanContents.WorkspaceKeptIff`, `PlanContents.SessionKeptIff` and the rows below |
| `PlanContents.ProjectKeptIff` | crates/rtrt-cli/src/opencode_sessions.rs:2145-2296 | a project is in a plan if and only if a session kept there names it, or names a workspace whose row names it, or a directory that belongs there names it and some session goes there |
| `PlanContents.WorkspaceKeptIff` | crates/rtrt-cli/src/opencode_sessions.rs:2161-2306 | a workspace is in a plan if and only if a session kept there names it |
| `PlanContents.SessionKeptIff` | crates/rtrt-cli/src/opencode_sessions.rs:2327-2333 | a session is in the plan of the destination it is routed to unless quarantined, and in no other |
| `PlanContents.MalformedMessageIff` | crates/rtrt-cli/src/opencode_sessions.rs:2122-2144 | a message is quarantined with its session, and for no other reason |
| `PlanContents.HealthyIsNotDropped` | crates/rtrt-cli/src/opencode_sessions.rs:2327-2354 | what hangs on nothing quarantined is not dropped |
| `PlanContents.UnroutedKeptIff` | crates/rtrt-cli/src/opencode_sessions.rs:2356-2390 | a row that leads to no session and no routed project is in the plan of legacy-global alone |
| `PlanContents.OnlyProjectKeptIff` | crates/rtrt-cli/src/opencode_sessions.rs:2356-2390 | a row linked to a routed project alone can be in the plan of that project's destination alone |
| `Selection.KeptRowsCount` | crates/rtrt-cli/src/opencode_sessions.rs:2267-2338 | a kept row is there as often as in the source, any other not at all |
| `Selection.HomeIsDestination` | crates/rtrt-cli/src/opencode_sessions.rs:2209-2228 | the home of a row that hangs on a session, message or aggregate, or on nothing, is one of the destinations |
| `Selection.KeptOnce` | crates/rtrt-cli/src/opencode_sessions.rs:2280-2333 | conservation: a row is in one destination's plan and no other, except when quarantined or when its project-only home is no destination |
| `Selection.NothingDropped` | crates/rtrt-cli/src/opencode_sessions.rs:2327-2330 | outside the catch-up nothing is dropped |
| `Selection.QuarantinedIsDroppedIff` | crates/rtrt-cli/src/opencode_sessions.rs:2328-2354 | in the catch-up a row that hangs on a quarantined session, message or aggregate is dropped if and only if it does not name another session, or else another message, first |
| `Selection.HangingKeptIff` | crates/rtrt-cli/src/opencode_sessions.rs:2328-2354 | and is in some plan after all exactly if it does |
| `SelectionClosure.HangingRowCanBeKept` | crates/rtrt-cli/src/opencode_sessions.rs:2340-2354 | a part that names a session of its own is kept although its message goes with a quarantined one |
| `Selection.UnroutedIff` | crates/rtrt-cli/src/opencode_sessions.rs:2356-2390 | which rows have no route, said on the source rows: they lead to no session of the source and to no routed project |
| `Selection.DestinationIff` | crates/rtrt-cli/src/opencode_sessions.rs:2209-2228 | a store is a destination if and only if some session goes there, or it is legacy-global and there is no session or some row has no route |
| `Selection.ProjectRowKeptIff` | crates/rtrt-cli/src/opencode_sessions.rs:2209-2228 | a row whose only link is a project is in a plan if and only if the project has no route, or one where some session goes, or legacy-global when that is a destination anyway |
| `Selection.ProjectRowCanBeLost` | crates/rtrt-cli/src/opencode_sessions.rs:2209-2228 | and one input where it is in none: the project leads to a destination that no session goes to |
| `SelectionClosure.SessionReferencesKept` | crates/rtrt-cli/src/opencode_sessions.rs:2161-2189 | a kept session's project and workspace are kept with it |
| `SelectionClosure.WorkspaceProjectKept` | crates/rtrt-cli/src/opencode_sessions.rs:2177-2188 | and so is the project of its workspace |
| `SelectionClosure.DirectoryKeptIff` | crates/rtrt-cli/src/opencode_sessions.rs:2307-2326 | a directory row is kept exactly where its own path identifies the destination, some well-formed session goes there, and it names a project |
| `SelectionClosure.KeptWithSession` | crates/rtrt-cli/src/opencode_sessions.rs:2356-2372 | a row that names a session is kept exactly where the session is |
| `SelectionClosure.KeptWithMessage` | crates/rtrt-cli/src/opencode_sessions.rs:2363-2365 | a row that names a message alone is kept exactly where the message is |
| `SelectionClosure.ParentKeptIff` | crates/rtrt-cli/src/opencode_sessions.rs:2327-2333 | a kept session's parent is kept with it if and only if the session has no route of its own, or one that leads where the parent goes |
| `SelectionClosure.ParentCanBeLeftBehind` | crates/rtrt-cli/src/opencode_sessions.rs:2053-2064 | two sessions with paths of their own: the child is selected without its parent |
| `SelectionClosure.EventRowKept` | crates/rtrt-cli/src/opencode_sessions.rs:2351-2372 | whether an event row is kept depends on its aggregate alone |
| `SelectionClosure.KeptGraphHistories` | crates/rtrt-cli/src/opencode_sessions.rs:2280-2333 | a destination's event tables are well-formed and hold exactly the histories of its aggregates |
| `Delivery.PlansAreOk` | crates/rtrt-cli/src/opencode_sessions.rs:2267-2338 | routing and selection yield plans that the migration can take, for every source with unique keys and well-formed event tables |
| `Delivery.SelectionSeen` | crates/rtrt-cli/src/opencode_sessions.rs:2267-2338 | the rows of a plan, seen as routing sees them, are those that the selection yields |
| `Delivery.DueIsDelivered` | crates/rtrt-cli/src/opencode_sessions.rs:2466-2588 | each destination ends with the copies of a row that are due to it, on top of its private rows, unless one of those has the key |
| `Delivery.RowsAreConserved` | crates/rtrt-cli/src/opencode_sessions.rs:297-326 | conservation over routing, selection and a migration cut short anywhere and repeated: in new stores each row is found as often as in the source in the one store it is due to, and not at all in the others |
| `Journals.TablesCarried` | crates/rtrt-cli/src/opencode_sessions.rs:15-42 | the tables this holds for, by name: sessions, messages, parts, todos, shares, inputs, projections, diffs, snapshots and the rest |
| `Delivery.DueSomewhere` | crates/rtrt-cli/src/opencode_sessions.rs:2209-2333 | that store is one of the destinations, exactly unless the row is dropped in the catch-up or known only from a project that leads to none |
| `Delivery.HistoriesAreConserved` | crates/rtrt-cli/src/opencode_sessions.rs:297-326 | event histories end whole, each in the store of its aggregate alone |
| `Delivery.HistoryGoesOnce` | crates/rtrt-cli/src/opencode_sessions.rs:2209-2333 | there is exactly one such store, or none if and only if the aggregate is a quarantined session |
| `Delivery.HistoryEndsOnce` | crates/rtrt-cli/src/opencode_sessions.rs:297-326 | both together: over the whole way every history of the source ends whole in exactly one new store, or in none if and only if its aggregate is a quarantined session |
| `Repair.PrivateStore.DeleteAllLinked` | crates/rtrt-cli/src/opencode_sessions.rs:1129-1147 | rows that hang on messages or sessions of the set go from every linked table; that no other row goes says `RepairKeeps.RepairedCount` |
| `Repair.PrivateStore.RemoveMalformedGraph` | crates/rtrt-cli/src/opencode_sessions.rs:1116-1167 | the graph of the set is removed, and nothing else (`RepairKeeps.RepairedCount`, `RepairKeeps.HealthyStays`); zero reported changes mean an unchanged store |
| `RepairKeeps.RepairedCount` | crates/rtrt-cli/src/opencode_sessions.rs:1116-1196 | in every table a row that names no session of the set, and no message of one where the table has that column, is there as often as before, up to its project; any other is gone |
| `RepairKeeps.HealthyStays` | crates/rtrt-cli/src/opencode_sessions.rs:1116-1147 | a row that names no session of the set and no message of one goes from no table |
| `RepairKeeps.OthersUntouched` | crates/rtrt-cli/src/opencode_sessions.rs:1169-1196 | outside the tables of sessions and workspaces not even the project changes |
| `Repair.PrivateStore.ReassignDirectories` | crates/rtrt-cli/src/opencode_sessions.rs:1175-1184 | all directories end under the one project, none lost; zero changes mean none were touched |
| `Repair.PrivateStore.NormalizeRuntimeProject` | crates/rtrt-cli/src/opencode_sessions.rs:1169-1196 | directories, workspaces and accepted sessions end under the project; zero changes mean an unchanged store |
| `Repair.PrivateStore.Repair` | crates/rtrt-cli/src/opencode_sessions.rs:753-866 | all or nothing: refused on malformed tables, a missing project or failed checks; otherwise the repaired store and its count of roots |
| `Repair.NothingChangedTwice` | crates/rtrt-cli/src/opencode_sessions.rs:838-839 | removing and attributing cannot cancel out |
| `Repair.RootsConserved` | crates/rtrt-cli/src/opencode_sessions.rs:850-854 | the roots counted afterwards are the well-named roots from before; the count from before was the same if and only if no root is named in the wrong case |
| `Repair.WrongCase` | crates/rtrt-cli/src/opencode_sessions.rs:850-854 | a name in capitals is a session's to the query that counts, and not to the check of names |
| `Repair.NothingDangles` | crates/rtrt-cli/src/opencode_sessions.rs:1116-1167 | no surviving session has a removed or badly named parent, no message a removed session; a surviving row of a linked table hangs on no removed message or, without a column for messages, on no removed session |
| `Repair.NoneNamesRemovedIff` | crates/rtrt-cli/src/opencode_sessions.rs:1129-1147 | no surviving row names a removed session at all if and only if no row that does, in a table with a column for messages, has a message that stays |
| `Repair.RemovedCanBeNamed` | crates/rtrt-cli/src/opencode_sessions.rs:1129-1147 | a part of a removed session, as the schema at line 3254 allows it, stays when its message is of another session |
| `Repair.AllOfTheProject` | crates/rtrt-cli/src/opencode_sessions.rs:1169-1196 | the directories are the same set under the project, and every surviving session and workspace is of the project |
| `Repair.NoneMalformedAfter` | crates/rtrt-cli/src/opencode_sessions.rs:1036-1062 | the closure of the repaired store is empty |
| `Repair.RepairedIsFixed` | crates/rtrt-cli/src/opencode_sessions.rs:753-866 | a second repair changes no row |
| `Repair.HistoriesLeft` | crates/rtrt-cli/src/opencode_sessions.rs:1148-1157 | event tables stay well-formed and lose exactly the histories of removed sessions |
| `Checkpoints.World.RefreshCheckpoint` | crates/rtrt-cli/src/opencode_sessions.rs:997-1034 | a checkpoint pairs a generation with the root count of a state that had it, whatever others commit in between; it fails only for an invalid project, one that is not there exactly once, or a commit in every try |
| `Checkpoints.World.CheckpointHit` | crates/rtrt-cli/src/opencode_sessions.rs:762-771 | a hit returns the root count of a state that was there during the call; undisturbed, it is a hit if and only if the checkpoint bears the project and the present generation |
| `Checkpoints.World.PrepareSource` | crates/rtrt-cli/src/opencode_sessions.rs:1234-1290 | the plans come from the state with the generation that is returned; it fails only when the source cannot be read or a commit comes in every try |
| `SchemaSignature.EncodeInjective` | crates/rtrt-cli/src/opencode_sessions.rs:1723-1728 | length-prefixed tokens can be read back in one way only |
| `SchemaSignature.SignatureDecides` | crates/rtrt-cli/src/opencode_sessions.rs:1640-1728 | two accepted texts have equal signatures if and only if they are the same tokens |
| `SchemaMeaning.SameSignatureIff` | crates/rtrt-cli/src/opencode_sessions.rs:1640-1728 | said on the lexemes: signatures are equal if and only if literals are the same text, names and words the same up to ASCII case, and each is of the same kind |
| `SchemaMeaning.CaseShows` | crates/rtrt-cli/src/opencode_sessions.rs:1694-1719 | the case of a literal shows, that of a name does not, and the three kinds never agree |
| `SchemaMeaning.OneLexeme` | crates/rtrt-cli/src/opencode_sessions.rs:1694-1719 | two texts that differ in a literal alone differ in their signature; in the case or quotes of a name alone, they do not |
| `SchemaMeaning.BytesMeaning` | crates/rtrt-cli/src/opencode_sessions.rs:1641-1643 | the size is that of the UTF-8 encoding, one byte a character if and only if all is ASCII |
| `SchemaSignature.AcceptedIff` | crates/rtrt-cli/src/opencode_sessions.rs:1640-1721 | the scanner accepts a text with certain tokens if and only if it can be written as lexemes that spell them, with gaps between those that would merge |
| `SchemaSignature.TouchingApart` | crates/rtrt-cli/src/opencode_sessions.rs:1646-1719 | which neighbours would merge: two words, two literals in the same quotes, two dashes, a slash and a star |
| `SchemaSignature.RewritingKeepsTokens` | crates/rtrt-cli/src/opencode_sessions.rs:1646-1719 | spacing, comments, quoting style of names and case outside literals do not change the tokens, if and only if no line comment directly follows a dash |
| `SchemaSignature.RewritingKeepsSignature` | crates/rtrt-cli/src/opencode_sessions.rs:1640-1728 | a text within the limit has the signature of an accepted one if and only if it is a way of writing the same tokens |
| `SchemaSignature.NoneSwallowedIff` | crates/rtrt-cli/src/opencode_sessions.rs:1650-1658 | the tokens read are those spelled exactly when no dash is followed by a line comment |
| `SchemaSignature.MinusIsSwallowed` | crates/rtrt-cli/src/opencode_sessions.rs:1650-1658 | a minus before a newline is a token, before a line comment it is gone |
| `SchemaSignature.ReadQuoted` | crates/rtrt-cli/src/opencode_sessions.rs:1674-1693 | the scanner's quoted text is that of the grammar, doubled quotes and all, or does not end |
| `SchemaSignature.ReadWord` | crates/rtrt-cli/src/opencode_sessions.rs:1703-1717 | the longest word, in lower case |
| `SchemaSignature.SkipGap` | crates/rtrt-cli/src/opencode_sessions.rs:1647-1673 | spaces and comments are skipped without a token; an open block comment is an error |
| `SchemaSignature.SchemaSqlSignature` | crates/rtrt-cli/src/opencode_sessions.rs:1640-1721 | the scanner computes the signature, with its size limit and its two errors |
| `BrokerRuns.DueIsKnown` | plugins/opencode/rtrt-provenance.js:750-899 | every continuation of every run finds what it looks up |
| `BrokerRuns.RunKeeps` | plugins/opencode/rtrt-provenance.js:660-899 | the whole invariant holds after every run of interleaved steps |
| `BrokerRuns.PendingIsBounded` | plugins/opencode/rtrt-provenance.js:758-773 | as many requests are counted as are in flight, never more than the limit |
| `BrokerRuns.AskedOnce` | plugins/opencode/rtrt-provenance.js:840-875 | over every run OpenCode is asked at most once for a request id of a tool call |
| `BrokerRuns.AnswersAreRecorded` | plugins/opencode/rtrt-provenance.js:839-898 | over every run an answer given for an id of a call is the finished decision remembered for it, and an answer without an id is a rejection |
| `BrokerRuns.AnswersAgree` | plugins/opencode/rtrt-provenance.js:838-845 | so two answers given for one id of one call agree, however far apart |
| `BrokerRuns.DecisionsStay` | plugins/opencode/rtrt-provenance.js:850-893 | a finished decision never changes, an answer neither, and a request answers what its waiter was settled with |
| `BrokerRuns.RunLater` | plugins/opencode/rtrt-provenance.js:660-899 | a later state of a run extends an earlier one: no id, decision or grant is taken back, no record becomes valid again |
| `BrokerRuns.GrantWasReplied` | plugins/opencode/rtrt-provenance.js:1154-1168 | a digest is granted only by an always-reply to a waiter of that session whose call was valid |
| `BrokerRuns.AlwaysWasReplied` | plugins/opencode/rtrt-provenance.js:857-893 | always is answered only for a digest that such a reply accepted for the session, then or before |
| `BrokerRuns.PermittedIff` | plugins/opencode/rtrt-provenance.js:750-899 | a step lets a request through if and only if it is OpenCode's allowance, the user's reply to this request, a cached approval or a finished replay |
| `BrokerRuns.StepFollows` | plugins/opencode/rtrt-provenance.js:750-899 | what each handler promises its callers: the invariant, nothing decided undone, and requests let through exactly as the event permits |
| `Broker.RejectAll` | plugins/opencode/rtrt-provenance.js:660-665 | rejecting the waiters one by one, in any order, is rejecting them at once |
| `Broker.InvalidateTwice` | plugins/opencode/rtrt-provenance.js:1181-1183 | invalidating calls one after the other is invalidating them together |
| `Broker.PermissionBroker.Invalidate` | plugins/opencode/rtrt-provenance.js:682-689 | the call is forgotten, its record invalid and its waiters rejected; an unknown call changes nothing |
| `Broker.PermissionBroker.CacheApproval` | plugins/opencode/rtrt-provenance.js:669-680 | true if and only if the digest was there or fits into both limits, and then it is cached |
| `Broker.PermissionBroker.Arrives` | plugins/opencode/rtrt-provenance.js:750-773 | refused, or counted within the limit; no request is let through and nothing decided changes |
| `Broker.PermissionBroker.BodyArrives` | plugins/opencode/rtrt-provenance.js:774-852 | lets the request through exactly if a finished decision of the same id and body says so; otherwise it is refused, or remembered and mapped, under the conditions of `BrokerMeaning.RefusedIff` and `BrokerMeaning.FreshMeaning` |
| `BrokerMeaning.ArriveMeaning` | plugins/opencode/rtrt-provenance.js:750-773 | a request is refused at once if and only if the broker is disposed, the head is not right or the limit is reached; otherwise it is read and counted |
| `BrokerMeaning.RefusedIff` | plugins/opencode/rtrt-provenance.js:774-852 | a body is refused if and only if it is malformed or unauthorised, repeats an unfinished id or one with another body, or comes after 128 ids |
| `BrokerMeaning.RepeatMeaning` | plugins/opencode/rtrt-provenance.js:838-845 | a repetition that is not refused gets the decision of its id, and nothing else changes |
| `BrokerMeaning.FreshMeaning` | plugins/opencode/rtrt-provenance.js:846-852 | a new id that is not refused is remembered, unfinished, and its request is mapped; nothing else changes |
| `BrokerMeaning.ApprovedIsConcluded` | plugins/opencode/rtrt-provenance.js:852-863 | what the session has approved is let through for good and remembered so |
| `BrokerMeaning.UnapprovedIsAsked` | plugins/opencode/rtrt-provenance.js:864-875 | everything else is put to OpenCode under a new permission, once |
| `BrokerMeaning.DecidedByOpenCode` | plugins/opencode/rtrt-provenance.js:876-880 | OpenCode's allowance and refusal end the request and are remembered |
| `BrokerMeaning.AskedWaits` | plugins/opencode/rtrt-provenance.js:881-890 | if OpenCode asks the user, a request whose peer is there waits under its permission |
| `BrokerMeaning.ResumedMeaning` | plugins/opencode/rtrt-provenance.js:891-898 | the decision that was waited for is remembered and answered |
| `Broker.PermissionBroker.MappingDone` | plugins/opencode/rtrt-provenance.js:852-875 | lets the request through exactly if its mapping is approved for the session; otherwise refused, or put to OpenCode under a new id |
| `Broker.PermissionBroker.MappingFails` | plugins/opencode/rtrt-provenance.js:893-898 | the request is refused and no longer counted; its id stays unfinished |
| `Broker.PermissionBroker.CreationDone` | plugins/opencode/rtrt-provenance.js:876-891 | lets the request through exactly if OpenCode allows it; otherwise refused, or waiting for the reply, or rejected with its call when the peer is gone already |
| `Broker.PermissionBroker.Hangs` | plugins/opencode/rtrt-provenance.js:738-742 | the peer went away: the call is invalidated and the waiter rejected |
| `Broker.PermissionBroker.ReplyArrives` | plugins/opencode/rtrt-provenance.js:1154-1168 | lets through exactly the request waiting under the id: once, or always if its call is valid and the digest can be cached |
| `BrokerMeaning.RepliedMeaning` | plugins/opencode/rtrt-provenance.js:1154-1168 | a reply settles the one request under its permission: always if the call is valid and there is room, once for once, otherwise refused |
| `BrokerMeaning.ApprovedMeaning` | plugins/opencode/rtrt-provenance.js:1154-1168 | the digest is approved for the session exactly then; no other approval comes or goes |
| `Broker.PermissionBroker.Resumes` | plugins/opencode/rtrt-provenance.js:892-898 | the decision is recorded and answered, and the request no longer counted |
| `Broker.PermissionBroker.ToolStarts` | plugins/opencode/rtrt-provenance.js:1018-1034 | an earlier call under the key is invalidated and a new record made |
| `BrokerMeaning.ToolStartsMeaning` | plugins/opencode/rtrt-provenance.js:1018-1034 | a call under the same name ends with its waiters; the new one can be looked up, valid and with nothing remembered |
| `BrokerMeaning.InvalidateMeaning` | plugins/opencode/rtrt-provenance.js:682-689 | of a set of calls exactly their records become invalid, exactly their waiters are refused, and nothing else changes |
| `BrokerMeaning.SessionDeletedMeaning` | plugins/opencode/rtrt-provenance.js:1169-1184 | exactly the calls and approvals of the session go |
| `BrokerMeaning.DisconnectedMeaning` | plugins/opencode/rtrt-provenance.js:738-742 | a peer that goes away takes the call as it runs now and all who wait for it |
| `BrokerMeaning.GoneMeaning` | plugins/opencode/rtrt-provenance.js:738-742 | one that is gone already when OpenCode asks is as one that goes right after |
| `BrokerMeaning.DisposeEndsCalls` | plugins/opencode/rtrt-provenance.js:986-998 | at the end no call can be looked up or is valid; a second end is none |
| `BrokerMeaning.DisposeRefusesAll` | plugins/opencode/rtrt-provenance.js:986-998 | and nobody waits: every request that did is refused |
| `Broker.PermissionBroker.SessionDeleted` | plugins/opencode/rtrt-provenance.js:1169-1184 | approvals and calls of the session go |
| `Broker.PermissionBroker.Dispose` | plugins/opencode/rtrt-provenance.js:986-998 | everything is invalid and every waiter rejected |
| `ChildSafety.RunKeeps` | plugins/opencode/rtrt-provenance.js:907-998 | the lifecycle invariant holds after every run of events and continuations |
| `ChildSafety.TrackedAndEnded` | plugins/opencode/rtrt-provenance.js:934-984 | over every run tracked and ended sessions are disjoint, both bounded, and none is remembered twice |
| `ChildSafety.OneAtATime` | plugins/opencode/rtrt-provenance.js:967-974 | until dispose, an operation that has begun finds every earlier one of its session done |
| `ChildSafety.MayStartIff` | plugins/opencode/rtrt-provenance.js:967-974 | over every run, until dispose, a queued operation may start if and only if every earlier one of its session is done |
| `ChildSafety.NeverStuck` | plugins/opencode/rtrt-provenance.js:967-974 | no chain is ever stuck: while an operation is not done, it or an earlier one of its session is under way or may start |
| `ChildSafety.SerializedWaits` | plugins/opencode/rtrt-provenance.js:967-974 | a new operation may start at once if and only if nothing of its session is unfinished |
| `ChildSafety.TrackedIff` | plugins/opencode/rtrt-provenance.js:934-998 | the one list of events that make a session tracked or no longer so, with the bound; as long as it is tracked it keeps its entry |
| `ChildSafety.EndedIsRemembered` | plugins/opencode/rtrt-provenance.js:976-984 | a child that has ended is remembered, and so not tracked again, until as many ends as there is room for have come after it, or dispose |
| `ChildSafety.RememberedIff` | plugins/opencode/rtrt-provenance.js:976-998 | the exact condition, per step, for a session to be remembered as ended afterwards |
| `ChildSafety.ForgottenIff` | plugins/opencode/rtrt-provenance.js:976-998 | one that was is forgotten if and only if the plugin is disposed, or another end counts at the bound and this one is the oldest |
| `ChildSafety.EndToldTwice` | plugins/opencode/rtrt-provenance.js:976-984 | a run of three ends, two of them of the same child, that forgets the other child although there is room for both |
| `ChildSafety.AbortAskedIff` | plugins/opencode/rtrt-provenance.js:907-965 | a step asks for an abort if and only if it is a recovery of a child managed, or just confirmed, that can be aborted, has not ended and was not tried before |
| `ChildSafety.AbortedOnce` | plugins/opencode/rtrt-provenance.js:907-932 | over every run abort is asked for at most once per tracked entry |
| `ChildSafety.AbortsWereRightful` | plugins/opencode/rtrt-provenance.js:907-965 | every abort was asked for when the child was managed, not ended, and the plugin not disposed |
| `ChildSafety.ManagedIff` | plugins/opencode/rtrt-provenance.js:953-963 | a child becomes managed if and only if OpenCode confirms, before end and dispose, that it is one, and the one that was announced |
| `Lifecycle.Plugin.ReserveChildCandidate` | plugins/opencode/rtrt-provenance.js:934-947 | an entry if and only if the plugin runs, the session has not ended and is tracked or there is room; all others stay tracked, and nothing else is |
| `Lifecycle.Plugin.SerializeLifecycle` | plugins/opencode/rtrt-provenance.js:967-974 | the operation waits exactly as long as an earlier one of its session is not done |
| `Lifecycle.Plugin.TombstoneChild` | plugins/opencode/rtrt-provenance.js:976-984 | no longer tracked but remembered, with all others tracked as they were; of the others exactly the oldest is forgotten, and only at the bound |
| `Lifecycle.Plugin.AbortTracked` | plugins/opencode/rtrt-provenance.js:907-932 | asks if and only if the entry can be aborted, and afterwards it cannot be again |
| `Lifecycle.Plugin.SessionIsCreated` | plugins/opencode/rtrt-provenance.js:1077-1104 | a candidate is tracked at once if there is room, with its confirmation queued; nobody else's tracking, management or abort changes |
| `ChildMeaning.AnnouncedIsConfirmed` | plugins/opencode/rtrt-provenance.js:1077-1104 | an announced child is tracked and its confirmation queued behind its chain, exactly if it can be taken up; otherwise nothing happens |
| `ChildMeaning.LimitIsRecovered` | plugins/opencode/rtrt-provenance.js:1137-1153 | a limit queues a recovery exactly if the session has not ended and is tracked or there is room |
| `ChildMeaning.OthersQueueNothing` | plugins/opencode/rtrt-provenance.js:1105-1176 | a status and an end only put a pause on the chain |
| `ChildMeaning.StartMeaning` | plugins/opencode/rtrt-provenance.js:949-974 | a confirmation asks OpenCode about the entry it was queued for; a pause is over at once |
| `ChildMeaning.RecoveryMeaning` | plugins/opencode/rtrt-provenance.js:934-965 | a recovery asks OpenCode if nothing is known, asks for the abort if the child is managed and can be aborted, and is over otherwise |
| `ChildMeaning.ConfirmedMeaning` | plugins/opencode/rtrt-provenance.js:953-965 | an answer ends a confirmation; a recovery goes on to the abort if it is a child that can be aborted |
| `ChildMeaning.AbortAnsweredMeaning` | plugins/opencode/rtrt-provenance.js:919-929 | the abort's answer ends the recovery, and only an acceptance is noted |
| `ChildMeaning.FinishedMeaning` | plugins/opencode/rtrt-provenance.js:971-973 | a chain is dropped with its last operation, and never before |
| `Lifecycle.Plugin.LimitIsSeen` | plugins/opencode/rtrt-provenance.js:1137-1153 | a candidate is tracked at once if there is room, with its recovery queued; nobody else's tracking, management or abort changes |
| `Lifecycle.Plugin.SessionHasEnded` | plugins/opencode/rtrt-provenance.js:1169-1176 | exactly the ended session is no longer tracked, exactly the oldest is forgotten if the bound asks for it, and nothing is aborted or managed by it |
| `Lifecycle.Plugin.Begin` | plugins/opencode/rtrt-provenance.js:949-952 | a recovery tracks its session if there is room and asks for the abort if the child is managed already; any other operation only starts |
| `Lifecycle.Plugin.OwnershipIsKnown` | plugins/opencode/rtrt-provenance.js:953-964 | the entry is managed exactly as the answer says if it comes before end and dispose, and in a recovery aborted then |
| `Lifecycle.Plugin.AbortIsAnswered` | plugins/opencode/rtrt-provenance.js:919-929 | only the operation ends and an acceptance is noted |
| `Lifecycle.Plugin.IsFinished` | plugins/opencode/rtrt-provenance.js:971-973 | the chain is dropped if the operation was its last; nobody's tracking, management or abort changes |
| `Lifecycle.Plugin.Dispose` | plugins/opencode/rtrt-provenance.js:986-998 | nothing is tracked or remembered and no chain is kept |
| `Registry.RunKeeps` | crates/rtrt-cli/src/sandbox.rs:349-436 | the registry invariant holds after every run of launchers that interleave and die |
| `Registry.NoProjectIsLost` | crates/rtrt-cli/src/sandbox.rs:763-791 | a project once registered stays, with its tools, through every run |
| `Registry.ReportedIsAuthorized` | crates/rtrt-cli/src/sandbox.rs:914-956 | who reports success has its project in the registry, which never has more than 128 |
| `RegistryMeaning.UpdatedMeaning` | crates/rtrt-cli/src/sandbox.rs:914-956 | under the lock a project is added exactly if setup agrees, it is not there, there is room and the file can be written; already there exactly if recorded with the same tools; otherwise an error, and the file as it was |
| `RegistryMeaning.AloneSucceedsIff` | crates/rtrt-cli/src/sandbox.rs:930-956 | a launcher that no other disturbs is done after six steps, leaves no lock, and succeeds if and only if its project is registered or may be added |
| `Registry.LockIsExclusive` | crates/rtrt-cli/src/sandbox.rs:370-436 | at most one launcher, dead ones included, holds the lock, and it is the file on disk |
| `Registry.HolderFreezes` | crates/rtrt-cli/src/sandbox.rs:944-953 | while a launcher holds the lock and does nothing, neither registry nor lock changes |
| `Registry.DeadHolderFreezes` | crates/rtrt-cli/src/sandbox.rs:415-425 | behind a launcher that died with the lock the registry stays as it is |
| `Registry.Disk.AcquireRegistryLock` | crates/rtrt-cli/src/sandbox.rs:370-436 | the lock is held and is the file on disk, or the wait was given up; undisturbed, a free lock is not missed |
| `Registry.Disk.ReleaseRegistryLock` | crates/rtrt-cli/src/sandbox.rs:356-368 | the own lock file is removed |
| `Registry.Disk.UpdateUnderLock` | crates/rtrt-cli/src/sandbox.rs:945-953 | under the lock the update has the effect and the result it would have without any other launcher |
| `Registry.Disk.AuthorizeProjectAt` | crates/rtrt-cli/src/sandbox.rs:930-956 | success means the project is registered; one that was before succeeds without a write, one that setup or the recorded tools contradict is refused; undisturbed, it does what the update does and leaves no lock |
| `Outbox.RetryDelayIsCapped` | crates/rtrt-cli/src/forward.rs:55-61 | the delay doubles with every attempt up to five minutes |
| `Outbox.RunKeeps` | crates/rtrt-cli/src/forward.rs:210-297 | the delivery invariant holds after every run of flushes, crashes, late answers and ingestions |
| `Outbox.NoIdIsLost` | crates/rtrt-cli/src/forward.rs:247-297 | an accepted id is always queued, or the collector has an event of that id |
| `Outbox.StoredOnce` | crates/rtrt-memory/src/lib.rs:2350-2413 | however often an event is posted, the collector keeps one memory for its receipt |
| `Outbox.LeavesWhenAcknowledged` | crates/rtrt-cli/src/forward.rs:261-276 | an id leaves the queue only by a flush that got a positive memory id for it |
| `Outbox.NoEventIsLost` | crates/rtrt-cli/src/forward.rs:210-297 | an accepted event itself is queued or stored, as long as no id is used for two events |
| `Outbox.ReusedIdLosesAnEvent` | crates/rtrt-cli/src/forward/spool.rs:286-289 | two flushes and a reused id can delete an event that was never posted |
| `Outbox.NothingLostIff` | crates/rtrt-cli/src/forward/spool.rs:167-194 | delivery loses nothing if and only if no id is used for two different events |
| `Outbox.FlushedQueued` | crates/rtrt-cli/src/forward.rs:261-282 | a flush removes exactly the ids it got an acknowledgement for |
| `OutboxMeaning.BatchIsHandled` | crates/rtrt-cli/src/forward.rs:257-282 | the row of an item of the batch is gone after an acknowledgement; after any other answer it is put off, one attempt more and twice the delay up to five minutes |
| `OutboxMeaning.OthersStay` | crates/rtrt-cli/src/forward.rs:257-282 | a row whose id is not in the batch stays as it is, and no other appears under its id |
| `OutboxMeaning.FlushedDistinct` | crates/rtrt-cli/src/forward.rs:257-282 | a flush never leaves two rows of one id |
| `OutboxMeaning.EnqueueMeaning` | crates/rtrt-cli/src/forward/spool.rs:167-194 | an event is refused only while another is queued under its id; a new one is queued last, with no attempts |
| `OutboxMeaning.IngestMeaning` | crates/rtrt-memory/src/lib.rs:2350-2413 | the first delivery of a key is stored, and every delivery is answered with the id of what was stored first |
| `OutboxMeaning.DeliveryStores` | crates/rtrt-cli/src/forward.rs:210-297 | from any state a run reaches, a delivery that is not disturbed stores the event, unless its key was stored before, and takes its row alone away |
| `OutboxMeaning.FailurePutsOff` | crates/rtrt-cli/src/forward.rs:257-282 | one without an answer puts the row off and changes nothing else |
| `Outbox.Spool.FlushToUrl` | crates/rtrt-cli/src/forward.rs:247-297 | all of the batch is handled; success if and only if all were acknowledged, with their number |
| `Digest.FoldAppend` | THIRD_PARTY_NOTICES/ring@0.17.14/src/digest.rs:139-147 | folding the block function over whole blocks can be done in pieces |
| `Digest.ZeroBytesIff` | THIRD_PARTY_NOTICES/ring@0.17.14/src/digest.rs:95-128 | the number of zero bytes is the only one below a block with which the padded message ends a block |
| `Padding.PaddingMeaning` | THIRD_PARTY_NOTICES/ring@0.17.14/src/digest.rs:95-128 | the message, a one bit, fewer zero bytes than a block and the length in bits, read as a number, fill whole blocks |
| `Padding.PaddedIsInjective` | THIRD_PARTY_NOTICES/ring@0.17.14/src/digest.rs:95-128 | no two messages are padded to the same blocks |
| `Digest.RemainderIsModulo` | THIRD_PARTY_NOTICES/ring@0.17.14/src/digest.rs:62-72 | what is left over is the length modulo the block |
| `Digest.PaddedSplit` | THIRD_PARTY_NOTICES/ring@0.17.14/src/digest.rs:95-128 | one or two final blocks behind the whole ones are the padding of section 5.1 of FIPS 180-4 |
| `DigestContext.BlockContext.BlockDataOrder` | THIRD_PARTY_NOTICES/ring@0.17.14/src/digest.rs:139-147 | all whole blocks are folded and the rest returned |
| `DigestContext.BlockContext.Update` | THIRD_PARTY_NOTICES/ring@0.17.14/src/digest.rs:62-72 | the message fed so far grows by the whole blocks, counted with saturation |
| `DigestContext.BlockContext.TryFinish` | THIRD_PARTY_NOTICES/ring@0.17.14/src/digest.rs:79-137 | the one-shot digest, or too long if and only if the bits exceed 2^64-1, saturation included |
| `DigestContext.Context.Update` | THIRD_PARTY_NOTICES/ring@0.17.14/src/digest.rs:215-254 | the message so far grows by the data, however it is buffered, and a partial block stays partial |
| `DigestContext.Context.TryFinish` | THIRD_PARTY_NOTICES/ring@0.17.14/src/digest.rs:267-280 | the one-shot digest of everything that was fed, or an error if it is too long |
| `DigestContext.DigestInPieces` | THIRD_PARTY_NOTICES/ring@0.17.14/src/digest.rs:290-295 | any split of a message into updates gives the digest of the whole |
| `Hmac.Remasked` | THIRD_PARTY_NOTICES/ring@0.17.14/src/hmac.rs:253-256 | removing one mask and applying the other in one step gives the other masked key |
| `Hmac.NewKey` | THIRD_PARTY_NOTICES/ring@0.17.14/src/hmac.rs:222-266 | for every key length the two contexts hold the key block masked as section 2 of RFC 2104 says; fails only if the key itself is too long to hash |
| `Hmac.Signing.TrySign` | THIRD_PARTY_NOTICES/ring@0.17.14/src/hmac.rs:346-375 | the code of everything that was fed; it fails exactly when the inner hash does |
| `Hmac.Sign` | THIRD_PARTY_NOTICES/ring@0.17.14/src/hmac.rs:385-389 | H((K xor opad) || H((K xor ipad) || m)) for every key and every split of the message |
| `Hkdf.MacFailsIff` | THIRD_PARTY_NOTICES/ring@0.17.14/src/hmac.rs:358-374 | the outer hash never fails: the code fails if and only if block and message are too long together |
| `Hkdf.OkmUnique` | THIRD_PARTY_NOTICES/ring@0.17.14/src/hkdf.rs:188-233 | key material of one length is unique, and a shorter request is the start of a longer one |
| `Hkdf.FillRounds` | THIRD_PARTY_NOTICES/ring@0.17.14/src/hkdf.rs:203-232 | the loop fills the output with the first bytes of T(1)||T(2)||..., of section 2.3 of RFC 5869, in at most 255 rounds |
| `Hkdf.Advance` | THIRD_PARTY_NOTICES/ring@0.17.14/src/hkdf.rs:205-231 | a round ends the filling or goes on, and goes on only while the counter is below 255 |
| `Hkdf.FillOkm` | THIRD_PARTY_NOTICES/ring@0.17.14/src/hkdf.rs:188-233 | refused if and only if the lengths differ; panics if and only if a round has too much to hash; otherwise filled as specified |
| `Hkdf.Expand` | THIRD_PARTY_NOTICES/ring@0.17.14/src/hkdf.rs:127-142 | refused exactly for more than 255 times the output length, or a buffer of another length |
| `Compression.BestIsUnique` | crates/rtrt-compress/src/ml.rs:155-160 | there is only one choice of k tokens with every kept score at least every dropped one and ties to the earlier |
| `Compression.BestAreNested` | crates/rtrt-compress/src/ml.rs:155-160 | a larger budget drops nothing that a smaller one keeps |
| `Compression.SortByScore` | crates/rtrt-compress/src/ml.rs:155-156 | the stable sort ranks by score, earlier first among equals, and keeps every entry |
| `Compression.MarkBest` | crates/rtrt-compress/src/ml.rs:157-160 | marking the head of the ranking keeps the best of the budget |
| `Compression.BudgetIsLeast` | crates/rtrt-compress/src/ml.rs:150-150 | the budget is the least number of tokens, one at least, no less than the share asked for |
| `Compression.JoinedSplits` | crates/rtrt-compress/src/ml.rs:167-167 | the text put out splits into the tokens that were kept |
| `TokenOrder.KeptInOrder` | crates/rtrt-compress/src/ml.rs:161-166 | of two tokens that are kept the earlier stays the earlier, and nothing else is put out |
| `Compression.Compress` | crates/rtrt-compress/src/ml.rs:145-168 | below the full ratio the output's tokens are the best of the budget in their old order; otherwise the input unchanged, or nothing for no tokens |
| `Compression.NegationIsHardKeep` | crates/rtrt-compress/src/ml.rs:79-88 | a negation is known in any case, with either apostrophe, and with punctuation around it |
| `Compression.HardKeepsScoreHighest` | crates/rtrt-compress/src/ml.rs:90-110 | tokens that carry facts score above every other |
| `Compression.InUnitRangeIff` | crates/rtrt-compress/src/ml.rs:36-39 | a score lies between zero and one, as the trait documents, if and only if the token carries no facts and is punctuation, or has no capital, or at most eight characters |
| `Compression.LongWordsReachCeiling` | crates/rtrt-compress/src/ml.rs:97-106 | a word of ten characters or more that begins with a capital scores the ceiling of 1.2 |
| `Compression.UnitRangeCanBeLeft` | crates/rtrt-compress/src/ml.rs:36-39 | Extraordinary is one |
| `Compression.HardKeepsFirst` | crates/rtrt-compress/src/ml.rs:90-168 | of the tokens that carry facts all survive, or nothing else does |
| `Compression.HardKeepsSurviveIff` | crates/rtrt-compress/src/ml.rs:76-78 | all of them survive if and only if there are no more of them than the budget |
| `Compression.HardKeepCanBeLost` | crates/rtrt-compress/src/ml.rs:76-78 | three numbers at three tenths: they do not survive any ratio |

## Left out

- Real values and column collations: row keys and comparisons are over null, integer, text and blob values, compared exactly.
- Null primary keys, which SQLite does not keep unique: a key is a key.
- Type checks of columns (`required_text`, `required_integer`): rows are typed; a value of another type is an error before the modelled code.
- The hash behind generation stamps: stamps are assumed not to repeat across different states. Fork ids are an arbitrary function in the migration, with the code's own collision check; `Forks` says what a collision of the code's own function is.
- `EventMerge.ForkArchive.Archive`: does not model the archive's tables, its integrity checks or the failure of an insertion; an archived fork is one entry.
- `ProjectIdentity::derive`, symbolic links and absolute paths: one function from paths to destinations.
- SQLite itself, its files, pragmas, modes, backups, staging names and syncing: a transaction commits or changes nothing. Unique indexes and foreign keys beyond primary keys are part of the `sound` verdict that aborts a merge or a repair.
- `MigrationRun.Home.Precheck`: compares the kind of key for each table; column lists, indexes and signatures are part of the `check` verdict.
- `Repair.PrivateStore.Repair`: does not model the integrity and foreign-key checks before the transaction, the answer that a probe is needed, nor the archive of the database taken before rows are removed.
- A `parent_id` that is neither null nor text counts as no parent.
- `Selection.SelectTable`: tables whose rows are never copied are tables outside the two lists and have empty plans.
- `TableMerge.TableStore.EnsureTable`: compares the kind of key; columns, foreign keys, options and the signature of an existing table are part of the `check` verdict.
- `Migration.CreateTables`: does not model indexes; a schema conflict is a different kind of key.
- The migration's manifest, its process lock, dry runs and reports.
- `Checkpoints.World.RefreshCheckpoint`: does not model the checkpoint's file format and its bounds; a malformed file is an error before the modelled code. `Interfere` also stands for other writers of checkpoints, which are assumed to write honest ones.
- The broker's HTTP server, body limits, tokens and their constant-time comparison, digests of bodies and permissions: a request carries its outcome, and credentials name the record they belong to.
- `permission.ask` and `permission.asked` handlers, agents, temporary directories and environment variables of the plugin.
- The pattern of safe session names and the length bounds of event fields: events that fail them do nothing.
- `Lifecycle.Plugin.AbortTracked`: does not model the kind and status kept for diagnostics.
- `Registry.Disk.AcquireRegistryLock`: does not model a lock file of the wrong type or owner, nor its removal by an operator; giving up after any number of tries covers the errors.
- A recorded project whose entry is malformed counts as absent; removing projects (deauthorisation) is another command.
- `Outbox.StoredOnce`: does not model deletion of a memory, which takes its receipt along and lets the event be stored afresh.
- `Outbox.Spool.FlushToUrl`: does not model the early end when updating the spool itself fails; a crash in the middle of a flush is a step of the runs.
- `OutboxMeaning.BatchIsHandled`: does not model the saturation of the due time at 64 bits; times are unbounded.
- Validation of events, the pairing of tokens with guests and projects, and the due-time selection: a batch is any list of queued rows.
- The block functions, the other algorithms and the constant-time claims of ring; `extract` is one keyed hash.
- Rounding of `f32`, signed zeros and NaN in scores: scores and ratios are reals. `CompressionTarget::new` accepts 0.05 although its message excludes it; `compress` is modelled for every ratio.
- The ONNX scorer, the LLM compressor, bubblewrap arguments, services, dashboards, packaging and the rest of the repository.
