# Baley's SQLite ledger and its anchors

A Dafny model of the core of Baley's SQLite adapter and of the anchor protocol
that runs on it. Tables are maps and sequences, a transaction is one atomic
step, and the writer queue gives the steps an order. The code's loops and
in-place updates are methods and classes; each is proved against a
specification, and the promises are proved of the specification, over every
run. Check it with `dafny verify dfyconfig.toml`.

Four state machines and two data algorithms carry most of the content.

- **Views and generations** (`Projection`, `ProjectionHistories`, `Projecting`,
  `Fences`, `Generations`, `GenerationRuns`, `GenerationAnswers`,
  `GenerationHistories`, `Refusals`, `Rebuilds`, `Merging`). Commands change
  the live documents; a rebuild replays the chain into a new generation in
  bounded batches and flips; a sweep removes the rest; a verification replays
  into a scratch generation and merges it against the live one. Projectors are
  any functions at all, one for each view and version, which every binary that
  declares that version shares. Batches may end whenever the clock says,
  commands and first stamps come between any two, and a crash may come
  anywhere.
- **Paging** (`Ordering`, `Seeks`, `Views`, `Paging`, `PageMeanings`,
  `Following`, `Cursors`, `Decimal`). A page of a mixed ascending and
  descending index, read as range seeks under an overlay of unwritten changes,
  and resumed from cursors.
- **Claims and anchors** (`Claims`, `ClaimRuns`, `ClaimAnswers`,
  `ClaimReplays`, `ClaimStore`, `Anchors`, `AnchorRuns`, `AnchorStore`).
  Requests, scopes, leases and reconciliation; then pushes to a remote whose
  tags never change, landing early, late or never, and observations of absence
  that may be stale.
- **Payload retention** (`Excerpts`, `Retention`, `RetentionRuns`,
  `RetentionAnswers`). Bodies shared by hash, released, reduced and purged
  across projects.
- **Reading and waiting** (`Readable`, `Acquire`). The readable-through mark,
  and acquisitions bounded by a guard's deadline.

The modules ending in `Runs`, `GenerationHistories` and `ClaimReplays` hold the
theorems over whole runs; those ending in `Answers`, `ProjectionHistories` and
`PageMeanings` say of each single operation what it answers and leaves, told
from its inputs alone; `Rebuilds`, `ClaimStore`, `AnchorStore` and the classes
of `Retention`, `Readable` and `Acquire` hold the imperative code and tie it to
the same specifications.

## What the code does not promise

- The live view set version can go down. A rebuild that was started on a
  project with no generation row and no event goes on although `stamp_empty`,
  which takes no maintenance lock, let a newer binary stamp the project
  meanwhile (`crates/baley-store-sqlite/src/rebuild.rs:223-267` and `132-148`).
  `GenerationRuns.AStaleRebuildTakesTheSetBack` is such a run, and
  `GenerationHistories.RebuildsTakeViewsBackOnlyAfterAStamp` says that this is
  the only way: from the start to the flip, it happens if and only if the
  project was unused at the start and a binary past the rebuild's own stamped
  it. `TheLiveSetNeverGoesDown` and `ProjectorVersionsNeverGoDown` are the
  promises over whole runs.
- A batch can hide a body that `write_change` would refuse, when a later event
  of the batch replaces it. The safety results need no assumption about that:
  they hold of every batch that commits. `Refusals.AcceptableIsEveryPrefix`
  says for which chains no way of cutting batches is refused, and there a
  rebuild flips and a verification reports.
- A marked generation equals the replay of its applied events only until its
  removal begins: a crash part way through leaves the marker on rows already
  thinned out. It is that replay if and only if, since it was marked, no batch
  removed part of it (`GenerationHistories.MarkedIsReplayUntilItsRemoval`), and
  `AnInterruptedRemovalIsNoReplay` is a run of eight steps that ends without.
  The session that builds it never finds it so.
- A view query reads cursors it never issued: any text of its own with a
  number spelled another way that `parse` reads, with a plus sign, leading
  zeros or as minus zero, though the comment at
  `crates/baley-store-sqlite/src/view.rs:1314-1315` says only issued ones. Which
  texts it reads, and which of them it issued, is stated exactly in `Cursors`;
  the ledger's own reader takes exactly the issued ones.
- A purge's requested hash may be in neither `removed` nor `shared`; when it is
  in one is stated exactly.
- A guard's connection gets its busy timeout once, at the reading it was taken
  at, although the comment at `crates/baley-store-sqlite/src/store.rs:50-54`
  asks for one before every statement. `open` and `create` do set it before
  every statement, and there no wait crosses the deadline
  (`Acquire.Surroundings.RunBounded`). On a connection a statement's wait
  crosses it if and only if the statement starts after that reading and its
  lock is still taken at the deadline; some lock can bring that about unless
  the connection runs one statement at most, at once. The first statement of a
  write, `BEGIN IMMEDIATE`, is such a one, and the write lock keeps the rest
  from waiting; a snapshot of several statements has no such protection.

## Model

| member | source | states |
|---|---|---|
| Cursors.CursorIdentity | crates/baley-store-sqlite/src/view.rs:1272-1293 | the identity pushed piece by piece is one sealed list of project, view, version, generation, index and equality values |
| Cursors.IssueCursor | crates/baley-store-sqlite/src/view.rs:1306-1312 | the cursor is the identity followed by the encoded position |
| Cursors.ReadCursor | crates/baley-store-sqlite/src/view.rs:1316-1334 | the reading loop gives the position the text decodes to at the declared kinds, with nothing left over, and otherwise none |
| Cursors.CursorRoundTrip | crates/baley-store-sqlite/src/view.rs:1297-1350 | a view cursor decodes to the position it was issued at, for every position of i64 integers and texts |
| Cursors.CursorIsBoundToItsQuery | crates/baley-store-sqlite/src/view.rs:1272-1350 | a view cursor another query can read was issued by that same query: project, view, version, generation, index and equality values all agree |
| Cursors.ViewCursorsAreReadRespelled | crates/baley-store-sqlite/src/view.rs:1314-1350 | a view query reads a text as a position if and only if the position has the declared kinds and the text is the issued one with its numbers spelled as `parse` reads them |
| Cursors.OnlyTheShortestSpellingWasIssued | crates/baley-store-sqlite/src/view.rs:1297-1312 | such a text is the issued one exactly when every number is spelled the shortest way |
| Cursors.AnUnissuedCursorIsRead | crates/baley-store-sqlite/src/view.rs:1336-1350 | `i+5;` after any identity reads as 5, and no position's cursor is that text |
| Decimal.IntegersAreReadRespelled | crates/baley-store-sqlite/src/view.rs:1345-1348 | the texts `parse` reads as an i64 are exactly an optional sign, zeros and its shortest text |
| Decimal.LengthsAreReadRespelled | crates/baley-store-sqlite/src/view.rs:1339-1343 | and as a length exactly an optional plus sign, zeros and its shortest text |
| Cursors.SealedListsArePrefixFree | crates/baley-store-sqlite/src/view.rs:1272-1304 | two sealed identities of one family are equal once one text continues the other |
| Cursors.HistoryIdentity | crates/baley-store-sqlite/src/ledger.rs:119-138 | the loop over the event types builds the identity of the clamped history query |
| Cursors.EventCursorsReadExactly | crates/baley-store-sqlite/src/ledger.rs:31-57 | a ledger query reads a cursor as a position if and only if it issued exactly that text for that position |
| Cursors.LedgerCursorIsBoundToItsQuery | crates/baley-store-sqlite/src/ledger.rs:107-138 | one ledger query reads another one's cursor exactly when the two are equal once their numbers are clamped to i64, and then at the issued position |
| Cursors.FamiliesDoNotMix | crates/baley-store-sqlite/src/ledger.rs:107-138 | no ledger query reads a view cursor and no view query a ledger cursor |
| Ordering.CompareReverses | crates/baley-store-sqlite/src/view.rs:1256-1270 | comparing the other way round gives the opposite answer, and equal only for equal columns, in any mix of directions |
| Ordering.PrecedesTransitive | crates/baley-store-sqlite/src/view.rs:1256-1270 | the page order is transitive in any mix of directions |
| Seeks.SeeksListThePage | crates/baley-store-sqlite/src/view.rs:669-727 | the seeks after a position, run in order, list exactly the rows strictly after it, each once and in index order, whatever mix of ascending and descending columns |
| Seeks.SeeksAreDisjoint | crates/baley-store-sqlite/src/view.rs:669-727 | no row is selected by two seeks of one page |
| Paging.ReadSeeks | crates/baley-store-sqlite/src/view.rs:1205-1222 | reading seek by seek and stopping early gives the first rows of the page |
| Paging.StagedPlaces | crates/baley-store-sqlite/src/view.rs:729-770 | a staged body is placed iff its columns start with the equality values |
| Paging.PlaceStaged | crates/baley-store-sqlite/src/view.rs:1224-1238 | the staged loop collects exactly the matching staged bodies after the cursor, or refuses iff one has no position |
| Paging.OverlayIsExact | crates/baley-store-sqlite/src/view.rs:1170-1178 | reading as many rows past the page as there are staged keys is enough: the page over what was read is the page over everything |
| Paging.FindWithStaged | crates/baley-store-sqlite/src/view.rs:1179-1254 | `find_with_staged` answers the refusals in order, or the first matching documents after the cursor of the stored rows minus staged keys plus staged bodies: never more than the query's limit or the view's bound, exactly the least of limit, bound and matches where the staged keys fit, and a cursor if and only if limit and bound are positive and more match than the smaller; with staged keys that do not fit, still a page of matching documents |
| PageMeanings.ValuesBelow | crates/baley-store/src/view.rs:8-13 | values compare as texts by bytes, integers by size, every text before every integer |
| PageMeanings.FirstDifferenceDecides | crates/baley-store-sqlite/src/view.rs:1256-1270 | one list of columns comes before another exactly when the first column that differs says so in its own direction |
| PageMeanings.PageOrderIsDeclared | crates/baley-store-sqlite/src/view.rs:652-667 | two documents stand in a page by the first declared index field in which they differ, in that field's own direction, and then by key ascending |
| PageMeanings.PageMembersAreDeclared | crates/baley-store-sqlite/src/view.rs:669-770 | a document is in the page exactly when it has the equality values in the leading index fields and stands past the cursor's position |
| PageMeanings.RefusedBodiesAreDeclared | crates/baley-store-sqlite/src/view.rs:729-770 | the staged bodies that make a query refuse are exactly those whose first equality field not as asked for is missing, or that match the equality values and lack a later index field or a key value |
| PageMeanings.PagesAreTheFirstAsked | crates/baley-store-sqlite/src/view.rs:1179-1254 | an answered page holds documents that are stored and not staged, or staged and not deleted, with the equality values and past the cursor, in the declared order, and every such document it leaves out comes after them |
| PageMeanings.RefusalsAreDeclared | crates/baley-store-sqlite/src/view.rs:1179-1234 | an undeclared index, equality values that do not fit its leading fields, a cursor that is not the query's own and a staged body without a place are refused in that order, and a limit or bound of zero answers an empty page before the last |
| PageMeanings.OnlyItsOwnCursorsAreRead | crates/baley-store-sqlite/src/view.rs:1272-1334 | a query goes on only from a text that no query of another project, view, version, generation, index or equality values issued |
| PageMeanings.IndexesAreDeclared | crates/baley-store-sqlite/src/view.rs:600-611 | an index is found exactly where one of that name is declared |
| Following.ReadAll | crates/baley-store-sqlite/src/claim.rs:48-95 | following cursors to the end lists the whole sorted match list, each document once, whatever the page size; it terminates |
| Following.RestOfPage | crates/baley-store-sqlite/src/view.rs:1239-1254 | what matches after the last row of a page is what matched before it minus the page |
| Projection.BatchResumes | crates/baley-store-sqlite/src/view.rs:1065-1144 | once a batch commits, going on from its rows equals having folded both parts and written once, faults included |
| Projection.BatchesAgree | crates/baley-store-sqlite/src/view.rs:1065-1144 | any split into batches that all commit leaves the rows, `produced_seq` and versions one batch leaves |
| Projection.EverySplitAgrees | crates/baley-store-sqlite/src/view.rs:931-1020 | if no event stages a body `write_change` refuses, every split gives exactly what one batch gives |
| Projection.BatchingHidesOnlyRefusedBodies | crates/baley-store-sqlite/src/view.rs:931-1144 | writing after every event succeeds if and only if one batch does and no event stages a refused body |
| Projection.ABatchCanHideARefusedBody | crates/baley-store-sqlite/src/view.rs:1121-1144 | a concrete projector and two events: one batch commits, the first event alone is refused |
| Projection.EveryPrefixWrites | crates/baley-store-sqlite/src/view.rs:1065-1144 | every prefix of the events can be written if and only if all of them can and no event stages a refused body |
| ProjectionHistories.BatchesAreTheirHistory | crates/baley-store-sqlite/src/view.rs:1065-1144 | a batch commits if and only if its events can be told turn by turn and every key they changed may be written: each turn's projector was given exactly the requested keys that had a row by then, in key order, each with its latest put body, and the rows left are, key by key, the last put with that event's sequence as `produced_seq`, nothing after a later delete, and the old row where no change named the key |
| ProjectionHistories.FaultsAreWhereItStops | crates/baley-store-sqlite/src/view.rs:1078-1118 | a fold fails exactly at the first event that asks for a key which does not fit the view and no earlier event changed, or whose projector fails on the documents that existed by then |
| Refusals.AcceptableIsEveryPrefix | crates/baley-store-sqlite/src/rebuild.rs:412-483 | a chain replays as one batch with no refused body on the way if and only if every prefix of it replays |
| Refusals.AcceptableRunsAreNotRefused | crates/baley-store-sqlite/src/rebuild.rs:412-483 | over any run that leaves a chain acceptable to a binary's projectors, no replay batch of its sessions is refused, however the clock cut them |
| Projecting.ApplyProjector | crates/baley-store-sqlite/src/view.rs:1078-1118 | the loops over keys and changes stage what the projector's one application stages |
| Projecting.FoldEvent | crates/baley-store-sqlite/src/view.rs:1065-1118 | the loop over projectors extends every view's fold by one event, or refuses because some view does |
| Projecting.WriteView | crates/baley-store-sqlite/src/view.rs:1121-1144 | writing each staged document once lays the staged map over the table, or refuses iff one document is refused |
| Projecting.WriteStaged | crates/baley-store-sqlite/src/view.rs:1121-1144 | all views are written or none |
| Fences.FencesAreExact | crates/baley-store-sqlite/src/view.rs:208-247 | views are current exactly when the live stamps are the binary's own, newer exactly when some stamp is past it, unstamped exactly when the project has no row and no events |
| Fences.RequestFollowsSet | crates/baley-store-sqlite/src/view.rs:249-272 | a current set makes the request view current, and a newer request view refuses the set |
| GenerationAnswers.RequestFencesAreExact | crates/baley-store-sqlite/src/view.rs:249-285 | the request view is unstamped, newer, current or behind exactly as its own stamp is absent on an empty project, past, equal to, or older than or missing against the declared version |
| Generations.ReplayResumes | crates/baley-store-sqlite/src/rebuild.rs:412-483 | a replay continued from its marker is the replay of the longer prefix |
| GenerationRuns.CommandReplays | crates/baley-store-sqlite/src/transact.rs:989-1023 | a command's write into the live generation keeps it a full replay of the longer chain |
| GenerationAnswers.CommandsAreWritten | crates/baley-store-sqlite/src/transact.rs:246-292 | a command's events are written if and only if the live stamps are its own binary's, they follow the head one by one and no view's projector or row refuses them |
| GenerationAnswers.CommandsWriteTheirEvents | crates/baley-store-sqlite/src/transact.rs:989-1023 | the chain is then the old one and all of the events, each view's live rows are what their batch leaves, and no other generation, stamp or marker moves |
| GenerationRuns.StepKeeps | crates/baley-store-sqlite/src/rebuild.rs:223-595 | every transaction of commands, stamps, rebuilds, verifications, cleanups and crashes keeps the invariant |
| GenerationRuns.ViewsAreReplaysInEveryRun | crates/baley-store-sqlite/src/rebuild.rs:1-22 | in every run the live documents are one full replay of the chain by the projectors that stamped them, and the marked generation is a replay of its applied events or strictly fewer of its rows |
| GenerationHistories.MarkedIsReplayUntilItsRemoval | crates/baley-store-sqlite/src/rebuild.rs:352-405 | in every run the marked generation is the replay of exactly its first applied events if and only if no batch has removed part of it since it was marked, and always while its session builds it |
| GenerationHistories.AnInterruptedRemovalIsNoReplay | crates/baley-store-sqlite/src/rebuild.rs:336-350 | a concrete run of eight steps, two of them crashes, ends with a marker that counts an event whose row is gone |
| GenerationHistories.LiveRowsAreTheirHistory | crates/baley-store-sqlite/src/rebuild.rs:1-22 | in every run each live row of each view is the last put its key received from the whole chain, with that event's sequence, and a key with no row was deleted last or never put |
| GenerationRuns.RunsAgree | crates/baley-store-sqlite/src/rebuild.rs:1-22 | two runs that end with one chain and one set of projectors show the same documents, however events were batched, built and flipped |
| GenerationRuns.CleanupKeepsLiveRows | crates/baley-store-sqlite/src/rebuild.rs:352-405 | no start, sweep, removal, replay batch, verification or crash changes a live row, a live stamp or the live number |
| GenerationRuns.RemovalProgresses | crates/baley-store-sqlite/src/rebuild.rs:352-405 | each removal batch deletes at least one and at most 200 rows until the generation is gone |
| GenerationAnswers.RemovalTurnsAreBounded | crates/baley-store-sqlite/src/rebuild.rs:352-405 | no removal turn deletes more than 200 rows, the one that clears stamps and marker included, and only that one leaves none |
| GenerationAnswers.SweepsTakeTheLowest | crates/baley-store-sqlite/src/rebuild.rs:297-334 | a sweep takes up the lowest stored generation past the last it finished that is neither live nor marked, and ends exactly when there is none |
| GenerationAnswers.StartAnswers | crates/baley-store-sqlite/src/rebuild.rs:223-267 | a rebuild starts exactly where no live stamp is past the binary, a verification exactly where the stamps are its own and nothing is marked; a marked generation is cleared first, and a rebuild sweeps before it allocates |
| GenerationAnswers.FirstStampsAnswer | crates/baley-store-sqlite/src/rebuild.rs:132-148 | a project with no row and no event ends with generation 0 live, stamped by this binary and empty; any other is left as it was |
| GenerationAnswers.AllocatesOnePast | crates/baley-store-sqlite/src/rebuild.rs:932-963 | a generation is allocated exactly under the number one past the highest that is live or stored, with no row, a marker at no event and this binary's stamps |
| GenerationAnswers.ReplayTurnsAreBounded | crates/baley-store-sqlite/src/rebuild.rs:412-483 | a replay turn goes through with at most 200 of the next events, and none only at the head, exactly where no view refuses them |
| GenerationAnswers.ReplayTurnsWriteOneBatch | crates/baley-store-sqlite/src/rebuild.rs:412-483 | it moves the marker past exactly those events, leaves what their batch leaves in the marked generation and writes no other |
| GenerationAnswers.FlipsAreAtTheHead | crates/baley-store-sqlite/src/rebuild.rs:557-588 | a finish turn makes the built generation live if and only if its batch goes through and leaves no event of the chain unapplied, and otherwise leaves the live one as it was |
| GenerationRuns.CleanupLeavesOnlyTheLive | crates/baley-store-sqlite/src/rebuild.rs:297-334 | a finished cleanup leaves rows and stamps of the live generation only |
| GenerationRuns.NumbersAreNotLiveAgain | crates/baley-store-sqlite/src/rebuild.rs:932-963 | a generation about to be built is past every one that has ever been live |
| GenerationRuns.LiveNumbersNeverComeBack | crates/baley-store-sqlite/src/rebuild.rs:557-588 | over every run the live generation number never goes down |
| GenerationRuns.CommandsWriteTheirOwnViews | crates/baley-store-sqlite/src/transact.rs:246-254 | a command writes only where every live stamp is its own binary's |
| GenerationHistories.RebuildsTakeViewsBackOnlyAfterAStamp | crates/baley-store-sqlite/src/rebuild.rs:557-588 | from the start that took the maintenance lock to the flip, a rebuild takes live stamps back if and only if the project had no row and no event at the start and a binary past the rebuild's stamped it before the flip |
| GenerationHistories.TheLiveSetNeverGoesDown | crates/baley-store-sqlite/src/rebuild.rs:114-130 | over every run of a project with live stamps the view set version never decreases, whatever binaries share the store, unless a session was already overtaken when the run begins |
| GenerationHistories.ProjectorVersionsNeverGoDown | crates/baley-store-sqlite/src/view.rs:208-247 | over every run whose binaries all declare a view, its live projector version never decreases |
| GenerationRuns.AStaleRebuildTakesTheSetBack | crates/baley-store-sqlite/src/rebuild.rs:132-148 | the failing family, concretely: a rebuild begun on an unused project, stamped meanwhile by a newer binary, takes the set version from 2 to 1 |
| Rebuilds.ViewStore.Write | crates/baley-store-sqlite/src/transact.rs:989-1023 | the write loop commits exactly the folded events and rows, or nothing |
| Rebuilds.ViewStore.StampEmpty | crates/baley-store-sqlite/src/rebuild.rs:132-148 | generation 0 is stamped only for a project with no row and no events |
| Rebuilds.ViewStore.ReplayBatch | crates/baley-store-sqlite/src/rebuild.rs:412-483 | the replay loop stops by count or clock with at least one event applied or the head reached, and leaves exactly the batch's rows and marker |
| Rebuilds.ViewStore.BuildTurn | crates/baley-store-sqlite/src/rebuild.rs:537-548 | one batch of a session, stepped by itself, moves the marker forward or is at the head |
| Rebuilds.ViewStore.FinishTurn | crates/baley-store-sqlite/src/rebuild.rs:557-588 | the tail and the flip happen in one turn, and the flip only at the head |
| Rebuilds.ViewStore.RemoveRows | crates/baley-store-sqlite/src/rebuild.rs:352-405 | the removal loop refuses the live generation, deletes at most 200 rows, and clears stamps and marker only when no row is left |
| Rebuilds.ViewStore.NextAfter | crates/baley-store-sqlite/src/rebuild.rs:897-930 | the lowest generation above one that has stamps or rows |
| Rebuilds.ViewStore.NextNumber | crates/baley-store-sqlite/src/rebuild.rs:932-963 | one past the highest generation live or stored |
| Rebuilds.ViewStore.Sweep | crates/baley-store-sqlite/src/rebuild.rs:297-334 | the sweep ends under any clock and any commands in between, with every spare generation gone and the live one as it was |
| Rebuilds.ViewStore.RemoveGeneration | crates/baley-store-sqlite/src/rebuild.rs:336-350 | the marked generation and its marker are removed in batches, and the loop ends |
| Rebuilds.ViewStore.StartRebuild | crates/baley-store-sqlite/src/rebuild.rs:218-295 | a rebuild starts iff no stamp is newer, with a generation number never live before, through steps of the state machine |
| Rebuilds.ViewStore.Finish | crates/baley-store-sqlite/src/rebuild.rs:550-595 | catching up, flipping and cleaning up is a run of the state machine that flips if and only if no batch of it was refused, and always where the chain stays acceptable; flipped, the project has this generation live, stamped by this binary, no marker, and nothing else stored |
| Rebuilds.ViewStore.BringCurrent | crates/baley-store-sqlite/src/rebuild.rs:114-130 | newer views are refused, an unused project ends stamped, and one in use ends with this binary's stamps unless a replay batch was refused |
| Rebuilds.ViewStore.VerifyViews | crates/baley-store-sqlite/src/rebuild.rs:195-216 | for a project in use a report is made if and only if the views were not newer, no unfinished generation stood in the way of current ones, and no batch was refused; it names the head that a pinned snapshot had, no key differs in an undamaged store, and no marker is left |
| Rebuilds.CompareGenerations | crates/baley-store-sqlite/src/rebuild.rs:628-639 | the comparison names exactly the view and key pairs whose rows are missing, extra or unequal, damaged store or not |
| Merging.DifferingKeys | crates/baley-store-sqlite/src/rebuild.rs:690-742 | the two-cursor merge lists, in key order and once each, exactly the keys missing, extra or unequal |
| Merging.EqualRowsReportNothing | crates/baley-store-sqlite/src/rebuild.rs:690-742 | it reports nothing if and only if the two sides hold the same rows |
| Excerpts.StreamExcerpt | crates/baley-store-sqlite/src/retention.rs:95-146 | for any chunking the ring buffer loop gives the first and last 64 KiB of the body and its length |
| Excerpts.TheExcerptIsTheKeptRanges | crates/baley-store/src/retention.rs:22-25 | that excerpt is the body restricted to its two disjoint kept ranges, 128 KiB in all |
| Excerpts.ExcerptsAreNotReducible | crates/baley-store/src/retention.rs:22-25 | an excerpt is never long enough to be reduced again |
| Retention.PayloadStore.Attach | crates/baley-store-sqlite/src/payload.rs:26-89 | bodies are stored once, tombstoned ones refused, and each use becomes a reference, all or nothing |
| Retention.PayloadStore.Reduce | crates/baley-store-sqlite/src/retention.rs:49-189 | a reducible reference is released for its excerpt, and the body dropped only when nothing requires it |
| Retention.PayloadStore.Purge | crates/baley-store-sqlite/src/retention.rs:246-400 | the loops and the worklist give the specified purge, refusals included, in whatever order hashes are popped |
| Retention.PayloadStore.RunWorklist | crates/baley-store-sqlite/src/retention.rs:325-359 | the worklist ends and removes exactly the unrequired present released bodies and the unrequired originals whose excerpt went, in every pop order |
| RetentionRuns.StepKeeps | crates/baley-store-sqlite/src/retention.rs:49-400 | every attachment, reduction and purge keeps the invariant |
| RetentionAnswers.AttachIsRefused | crates/baley-store-sqlite/src/payload.rs:26-67 | an attachment is refused exactly where one of its bodies was reduced or purged before |
| RetentionAnswers.AttachRefers | crates/baley-store-sqlite/src/transact.rs:799-853 | it adds exactly one unreleased reference for each attached body, at the event's sequence and in the class it was attached in, and no other reference changes |
| RetentionAnswers.AttachStores | crates/baley-store-sqlite/src/payload.rs:26-67 | each attached body is present afterwards and every other as it was |
| RetentionAnswers.ReduceAnswers | crates/baley-store-sqlite/src/retention.rs:49-189 | a reduction goes through exactly for an unreleased output reference to a present body over 128 KiB whose excerpt may be stored; it releases that one reference, refers to the excerpt in its place and drops the body exactly where no other reference holds it |
| RetentionAnswers.PurgeIsRefused | crates/baley-store-sqlite/src/retention.rs:231-300 | a purge is refused as empty exactly where it names nothing, and as having nothing to purge exactly where some hash it names leaves this project no reference to release |
| RetentionAnswers.PurgeReleases | crates/baley-store-sqlite/src/retention.rs:246-324 | a reference is released if and only if this project holds it and its hash is requested, or one of this project's reductions at its sequence put it in place of a requested hash; it is released at the purge's own sequence and every other reference stays as it was |
| RetentionAnswers.PurgeRemoves | crates/baley-store-sqlite/src/retention.rs:325-400 | in every store a run reaches, a body is removed if and only if the purge released it and nobody uses it any more, or it was reduced to an excerpt so removed; every other body keeps its state, and shared names exactly the released bodies and requested reduced ones that stay |
| RetentionRuns.BodiesStayWhileReferenced | crates/baley-store-sqlite/src/retention.rs:489-499 | in every run of any projects a body is present iff some project holds an unreleased reference, and a reduced body's excerpt is present and is its two edges |
| RetentionRuns.StatesNeverComeBack | crates/baley-store-sqlite/src/payload.rs:26-67 | over every run a body goes from present to reduced to purged or straight to purged, never back |
| RetentionRuns.PurgesAccountForWhatTheyRelease | crates/baley-store-sqlite/src/retention.rs:325-375 | nothing removed is referenced by any project; removed and shared are disjoint and cover every released hash; the project keeps no reference to a requested hash |
| RetentionRuns.RequestedHashesReported | crates/baley-store-sqlite/src/retention.rs:360-375 | a requested hash is in removed or shared exactly when the project referred to it itself or its body was reduced |
| RetentionRuns.ARequestedHashCanGoUnreported | crates/baley-store-sqlite/src/retention.rs:360-375 | for any body long enough to reduce, three steps of two projects reach a store where a purge that goes through reports the requested hash in neither set |
| RetentionRuns.SomePurgeLeavesAHashOut | crates/baley-store-sqlite/src/retention.rs:360-375 | so a run from the empty store reaches a purge that goes through and reports the hash it was asked for in neither set |
| ClaimRuns.ScopesExclude | crates/baley-store-sqlite/src/transact.rs:295-368 | a command is blocked exactly when an open claim other than its own shares a token, and the earliest such claim is named with its state |
| ClaimRuns.LowestHolderIsExact | crates/baley-store/src/claim.rs:167-184 | the reported holder is the lowest-sequence open claim sharing a token; no token document is ever found that names a claim not holding it |
| ClaimRuns.StepKeeps | crates/baley-store-sqlite/src/claim.rs:99-254 | every operation keeps the invariant, whatever the leases and clocks say |
| ClaimRuns.ScopesExcludeInEveryRun | crates/baley-store/src/claim.rs:328-380 | in every run a token names a claim iff that request is open and its scope has the token, so no two open claims share one |
| ClaimRuns.CompletedAtMostOnce | crates/baley-store-sqlite/src/transact.rs:940-985 | no run holds two completions of one kind and request id |
| ClaimRuns.ClaimedAtMostOnce | crates/baley-store-sqlite/src/claim.rs:99-131 | no run holds two claims of one kind and request id |
| ClaimRuns.CompletedRequestsReplay | crates/baley-store-sqlite/src/transact.rs:153-186 | a completed request answers transact, claim and complete alike: its outcome for its digest, a refusal for another, nothing changed |
| ClaimRuns.ReplaysAreTheRecordedOutcome | crates/baley-store-sqlite/src/transact.rs:164-186 | the replayed outcome is the one in the chain, as a tombstone once its reference is released |
| ClaimRuns.CompletionsLast | crates/baley-store-sqlite/src/transact.rs:153-186 | a completed request stays as it is for the rest of any run |
| ClaimRuns.ALateRecordStepReplays | crates/baley-store-sqlite/src/claim.rs:178-200 | the owner's record step after a reconciliation, however much later, returns the reconciliation's outcome and writes nothing |
| ClaimRuns.ReconciliationsWaitForTheLease | crates/baley-store-sqlite/src/claim.rs:218-234 | a reconciliation goes through only when the lease is not live, and for a held claim only by the owner |
| ClaimRuns.ClaimsTakeTheirScope | crates/baley-store-sqlite/src/claim.rs:99-131 | a taken claim was known to nobody and had no rival, and adds exactly its own tokens |
| ClaimRuns.RecordStepsFreeTheirScope | crates/baley-store-sqlite/src/claim.rs:178-200 | a record step frees exactly its claim's tokens |
| ClaimRuns.ReconciliationsFreeTheirScope | crates/baley-store-sqlite/src/claim.rs:201-254 | a reconciliation frees exactly the claim's tokens when it resolves it, and none when it leaves it to the owner |
| ClaimRuns.RenewalsLastAMinute | crates/baley-store/src/claim.rs:122-165 | a renewed claim is active exactly until a minute after the renewal, and a renewal never shortens a lease or touches anything else |
| ClaimReplays.RowsAreTheirReplay | crates/baley-store/src/request.rs:262-317 | in every run the request and claim_scope rows are the projection of the chain, event by event, and no event of it is one the projectors refuse |
| ClaimAnswers.TransactAnswers | crates/baley-store-sqlite/src/transact.rs:133-275 | a known request is refused for another digest, replayed once completed and blocked by itself while open; a new one is blocked exactly by a rival, fails with its decision, or is recorded with the decision's outcome; nothing changes unless it is recorded |
| ClaimAnswers.TransactRecords | crates/baley-store-sqlite/src/transact.rs:49-104 | a recorded command leaves the old chain, then the decision's payloads as domain events in order, then exactly one completion with its id, digest, empty scope and outcome, and its request holds that outcome; nothing else moves |
| ClaimAnswers.TakeClaimAnswers | crates/baley-store-sqlite/src/claim.rs:98-131 | a claim answers as a command does, save that an open request is reported in progress |
| ClaimAnswers.TakeClaimRecords | crates/baley-store-sqlite/src/claim.rs:98-131 | a taken claim leaves the decision's events and one claim event, its tokens under that event's sequence and a lease from its time; one refused on its merits leaves the events and a completion |
| ClaimAnswers.NewClaimsLastAMinute | crates/baley-store/src/claim.rs:122-165 | a claim just taken is active before a minute has passed since its time and interrupted from then on |
| ClaimAnswers.CompleteAnswers | crates/baley-store-sqlite/src/transact.rs:164-245 | a record step is refused to an unknown claim, a held one, any other owner and any other scope, in that order, and no rival ever blocks the owner |
| ClaimAnswers.CompleteRecords | crates/baley-store-sqlite/src/claim.rs:177-199 | a record step leaves the decision's events, however many, and one completion with the claim's scope, frees exactly its tokens and ends its lease |
| ClaimAnswers.ReconcileAnswers | crates/baley-store-sqlite/src/claim.rs:201-240 | a reconciliation is refused by its authority, its caller, its own request, a rival and then the claim's state: unknown, completed, held for the owner, or its lease not a minute old |
| ClaimAnswers.ReconcileRecords | crates/baley-store-sqlite/src/claim.rs:226-254 | one that goes through leaves the decision's events, the finding with the claim's sequence, the claim's completion exactly where it is resolved, and its own completion; an unresolved claim keeps its tokens and lease and waits for the owner |
| ClaimAnswers.RenewAnswers | crates/baley-store-sqlite/src/claim.rs:133-175 | a renewal is refused to an unknown, closed or held claim, to another owner, and before the lease's last renewal or else the claim; otherwise only that lease starts anew |
| ClaimStore.LedgerStore.CheckScope | crates/baley-store-sqlite/src/transact.rs:295-368 | the token loop and the earliest holder give the specified block |
| ClaimStore.LedgerStore.Turn | crates/baley-store-sqlite/src/transact.rs:133-275 | digest, completion, hold, owner, scope, replay in progress, own block, unknown claim and scope check are judged in that order |
| ClaimStore.LedgerStore.Push | crates/baley-store/src/request.rs:262-317 | an event is appended and projected into the request and scope tables, or refused with nothing changed |
| ClaimStore.LedgerStore.Transact | crates/baley-store-sqlite/src/transact.rs:49-104 | the queue turn leaves the ledger and answers as the specified command does: every event pushed and then one completion, or nothing |
| ClaimStore.LedgerStore.Claim | crates/baley-store-sqlite/src/claim.rs:98-131 | a new claim appends one claim event, takes its tokens and writes its lease; a refusal is recorded as a completion; a known request is replayed or reported in progress |
| ClaimStore.LedgerStore.Renew | crates/baley-store-sqlite/src/claim.rs:133-175 | a renewal moves the lease of the owner's claimed request and never before its floor |
| ClaimStore.LedgerStore.Complete | crates/baley-store-sqlite/src/claim.rs:177-199 | the owner's completion appends its events and one completion with the claim's scope, and removes the lease; anyone else, another scope or a held claim is refused |
| ClaimStore.LedgerStore.Reconcile | crates/baley-store-sqlite/src/claim.rs:201-254 | the finding, the claim's completion or hold, and the reconciling command's own completion are written together, or nothing is |
| Anchors.TagsNameTheirSequence | crates/baley-core/src/forge.rs:106-115 | a tag names a sequence exactly when it is that sequence's anchor tag and fits u64 |
| Anchors.OnlyTheClaimedHeadIsAnchored | crates/baley-core/src/reconcile.rs:53-65 | a claim is found anchored exactly when its own tag is present and names the claimed sequence and hash |
| Anchors.ObservationsDecideThePlan | crates/baley-core/src/anchor.rs:570-590 | nothing is planned exactly where there is no remote or no way to it; a push exactly for the claim's own tag on the claimed head; a failure with the absence reason exactly for a confirmed absence, with the disagreement reason for every other tag found |
| AnchorRuns.UnseenRemotesRecordNothing | crates/baley-core/src/anchor.rs:646-690 | a reconciliation answers that it does not know, and leaves the world as it is, if and only if the remote could not be asked; a refused one changes nothing either |
| AnchorRuns.ReconciliationsRecordWhatWasSeen | crates/baley-core/src/anchor.rs:646-722 | one that goes through appends `anchor.pushed` and writes its row exactly for the claim's own tag on the claimed head, otherwise `anchor.failed` with its reason, then the finding, the claim's completion and its own |
| AnchorRuns.RecordStepsWriteWhatCame | crates/baley-core/src/anchor.rs:412-457 | a record step appends `anchor.pushed` and writes its row exactly where it is told of a push, otherwise `anchor.failed` with the reason given, and completes the claim with it |
| AnchorRuns.ClaimStepsIntendTheHead | crates/baley-core/src/anchor.rs:131-235 | a taken claim step records one claim of the head just before it under the anchor scope; without a remote or on an empty chain it is completed as refused with that reason; any other answer changes nothing |
| AnchorRuns.StagingNeverRefuses | crates/baley-store-sqlite/src/transact.rs:1137-1222 | the row of a record step or reconciliation is never refused, since its sequence has no row while its claim is open |
| AnchorRuns.StepKeeps | crates/baley-core/src/anchor.rs:131-235 | claims, pushes early or late, foreign tags, record steps, reconciliations from stale absences and other commands keep the invariant |
| AnchorRuns.AnchorRowsAreTrue | crates/baley-core/src/anchor.rs:344-372 | in every run each anchor row names the chain's own hash at its sequence and some remote holds the tag saying so |
| AnchorRuns.NoTwoClaimsIntendOneTag | crates/baley-core/src/anchor.rs:201-235 | each anchor claim intends the head right before it, so no two claims of a run intend one tag |
| AnchorRuns.ALatePushChangesNothing | crates/baley-core/src/anchor.rs:412-457 | a push recorded after its claim was reconciled changes neither ledger nor rows |
| AnchorStore.Anchoring.ClaimStep | crates/baley-core/src/anchor.rs:201-235 | the claim intends the head read inside its own transaction, and only a claim that was taken gives its owner something to act on |
| AnchorStore.Anchoring.Record | crates/baley-core/src/anchor.rs:442-457 | event, row and completion are written together or not at all |
| AnchorStore.Anchoring.ReconcileFrom | crates/baley-core/src/anchor.rs:646-722 | the answer is none, and the world unchanged, if and only if the remote could not be asked; otherwise event, row and completions are written as the observation says, or nothing is |
| AnchorStore.Anchoring.ActAndRecord | crates/baley-core/src/anchor.rs:994-1058 | the record step writes the pushed plan exactly where the answer came and the remote holds the tag, and a late one returns the reconciliation's outcome and changes nothing |
| AnchorStore.Anchoring.AnchorCommand | crates/baley-core/src/anchor.rs:916-992 | with any steps of others before each of its actions the command is a run of the protocol, reconciles at most once, acts on every claim it takes, and ends as its last action and the world that one found say: done, replayed late or early, in progress, turned down, blocked, unknown, lost or refused |
| Readable.HashesFixTheirChain | crates/baley-store-sqlite/src/transact.rs:495-515 | under an injective hash an event's hash fixes its sequence and every event before it |
| Readable.ReadableStore.Check | crates/baley-store-sqlite/src/transact.rs:370-411 | the check that reads only past the mark accepts exactly the chains all of whose events are readable, and then marks the head |
| Readable.ReadableStore.Command | crates/baley-store-sqlite/src/transact.rs:286-292 | a command is committed exactly on a readable chain with events this binary reads, and leaves the mark at the new head |
| Readable.TheMarkAgreesWithAFullScan | crates/baley-store-sqlite/src/transact.rs:370-411 | over any run of commands and whole-chain replacements the marked check agrees with a full scan |
| Readable.CommandsExtendReadableChains | crates/baley-store-sqlite/src/transact.rs:286-292 | a command appends all of its events exactly on a readable chain with events this binary reads, and the mark is then the head; a check that passed has moved the mark even where the command fails |
| Readable.ChecksReadOnlyWhatIsNew | crates/baley-store-sqlite/src/transact.rs:370-411 | after a check that passed, the next reads exactly the events others have written since |
| Readable.ReadableStore.CheckAfter | crates/baley-store-sqlite/src/transact.rs:370-411 | the store itself, after any run of its own and other binaries' commands and restores, is where the model is and answers as a full scan would |
| Acquire.Surroundings.Acquire | crates/baley-store-sqlite/src/queue.rs:217-242 | a bounded acquisition ends, tries only before its deadline, tries again after each pause, pauses only after a taken lock for the lesser of 10 ms and the time left, and never blocks; an unbounded one reads no clock and is never busy |
| Acquire.Surroundings.Connection | crates/baley-store-sqlite/src/store.rs:427-454 | a guard's busy timeout is positive and ends at the deadline from the reading it was set at |
| Acquire.Surroundings.RunBounded | crates/baley-store-sqlite/src/store.rs:55-65 | with the timeout set again before every statement no wait crosses the deadline, whatever locks are met, and a statement is answered busy only once the deadline is reached |
| Acquire.Surroundings.RunOnConnection | crates/baley-store-sqlite/src/store.rs:427-454 | the statements on one connection wait exactly as the specification of one shared timeout says |
| Acquire.LateStatementsCross | crates/baley-store-sqlite/src/store.rs:48-54 | under one timeout a statement's wait crosses the deadline if and only if it starts after the reading and its lock is still taken at the deadline, and by no more than it was late |
| Acquire.OneTimeoutBoundsOneStatement | crates/baley-store-sqlite/src/store.rs:48-54 | some locks make a wait cross the deadline if and only if the connection runs more than one statement or does not run its one at once |
| Acquire.AGuardCanWaitPastItsDeadline | crates/baley-store-sqlite/src/store.rs:427-454 | two statements under two seconds of storage time: the second waits until half a second past the deadline |

## Left out

- SQLite, the write-ahead log, `flock`, threads and files: a transaction is
  atomic, the queue serialises, a snapshot is a fixed value, the maintenance
  lock is a mutex.
- SHA-256, zstd, JSON and canonical JSON: hashes are terms that hold what they
  seal, a document body is its top-level texts and integers plus the rest, and
  annotations arrive parsed or malformed. A text is its UTF-8 bytes, one
  character a byte.
- Upcasting: the projection copy of an event is any function of it. Whether a
  binary reads an event is the subject of `Readable` alone; elsewhere a refused
  replay is a step that does not happen.
- The pre-push verification of the chain: it can only stop a push, so the
  protocol lets every push go ahead. Heartbeat threads are the renewals any run
  may hold.
- Hash reports, body checks, doctor, export, checkpoints, health, restore and
  the rest of the workspace: I/O or short judgements.
- Times that do not parse and sequence numbers past 64 bits: times are whole
  seconds (nanoseconds in `Acquire`) and numbers unbounded, except where
  cursors and tags clamp or refuse them.
- Stale-observation rechecks, stream versions and the attachment lists of
  events carried in JSON: a decision's result stands for its appended events,
  its outcome or its failure.
- Derived trace rows and export targets of a purge, and the scrub after it.
- Rebuilds.ViewStore.VerifyViews: reaching the head and pinning the snapshot
  are one loop, where the code first catches up and then loops again to pin;
  between the first judgement and what follows it at most one other
  transaction commits.
- Rebuilds.ViewStore.Finish: ends because the commands between its turns are
  finitely many; a chain that grows for ever faster than the batches is not
  excluded by the code.
- Following.ReadAll: the loop of `open_claims_in` over its pages; the claims it
  parses from the documents and the sort by sequence after it are not modelled.
- Merging.DifferingKeys: the rows come listed in key order, as the query's
  `ORDER BY` gives them.
- Paging.FindWithStaged: the first documents in order only for staged keys that
  fit the view, which the write at the end of the command demands of them
  anyway; other keys may tie.
- AnchorStore.Anchoring.AnchorCommand: a fetch reports the tags as they are
  when it is made; a push that was answered as done left its tag there.
- Acquire.Surroundings.RunOnConnection: setting a timeout and starting the
  statement take no time of their own; what passes between statements is a
  parameter.
- AnchorRuns.StepKeeps: assumes only anchor commands claim `anchor.push` and
  record anchor events or rows, as the callers do.
- Retention.PayloadStore.Purge: a refused purge does not name the hash that had
  nothing to release. It assumes that excerpts of reduced bodies are present,
  which every run keeps.
- Claims.Reconcile: the reconciling command's own answer is a fixed text in
  place of the JSON that names the claim and the sequence.
