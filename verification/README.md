# OpenPrints indexing pipeline: a verified model

OpenPrints indexes signed design events from Nostr relays. Relay workers put ingestible events on a
bounded queue; one reducer folds them into a version log and a current-design row per design; a second
task fetches the profiles of the designers it has seen. Around that sit the client's publish and edit
forms, its version page and its signer store. This project models that behaviour in Dafny and proves
what whole runs of it keep.

The store, the reducer, the refresher and the identity store are classes whose methods update their
fields as the program does; the loops of the readers, the validator, the builder, the merge and the
version search are methods with loops. Each is proved equal to a specification function, and the run-level
results are lemmas about these functions. Concurrency is interleaved steps: `Pipeline.Step`,
`IdentityRuns.Action` and `SignerStore.Step` are what can happen between two awaits, in any order.

Main results, by file:

- `ReducerRuns`: after any deliveries a design has a current row exactly when it has versions, and the row
  is the count, the maximum, the first and the last of them; the foreign key holds; and on every database the
  reducer can leave, crashes included, it raises exactly for the events stated below.
- `StoredEvents`: the same in terms of the events delivered: which event each version is, and that the row and the
  listing put first the one created last, of those as late the one with the greatest id.
- `Convergence`: delivery order, repetition and restarts do not matter to a design published without schema
  1.1, whatever else is delivered, under the hypothesis that equal ids mean equal events (`Unambiguous`;
  ingest does not check that an id hashes its event).
- `LineageRuns`: under schema 1.1 order does matter. Exactly the events delivered at or after their design's
  root are stored, so one pass can lose updates and two passes store everything storable. What a crash
  between the two commits costs is counted exactly; a design whose root crashed there gets a row exactly when
  a different opening event is delivered.
- `IdentityRuns`, `BoundedWaiting`: the identity rows tell the attempt history; misses are spaced by the
  backoff; pending keys come first; once its wait in seconds is over a failed key waits a bounded number of cycles,
  whatever order the database gives to equal rows.
- `ProfileMerge`, `IdentityIndexer`: the two-level profile merge keeps the newest event sent, and the refresher's cycle
  is a run of the machine above.
- `Pipeline`, `Shutdown`: nothing is lost, repeated or reordered between workers and reducer; a shutdown comes to
  an end and drains the queue; and exactly which events the relays send can kill the reducer loop, from whatever database it starts.
- `DesignDetail`, `VersionSearch`, `VersionOrder`, `VersionPages`: the paging search stops on any answers at all;
  against an unchanged database, exactly which designs reach the client, which of their versions the version page
  shows and under which numbers, through the client's two parsers.
- `SignerStore`, `SignerHistory`: whose key is active, authority, timeouts and non-overlap over all interleavings.
- `FormText` to `ComposingPlatform`: what the form and the validator report, what the form builds, the server accepts and the indexer stores; reopening
  an indexed design and publishing it unchanged rebuilds it exactly when its creator is named and its MIME type is
  still in NFC.
- `Examples`: concrete events run through the reducer for each way in which the parts fail to agree.
- `ApiId`: the composite id round-trips exactly for newline-free pubkeys.

Where the code and other documents differ, the model follows the code:

- On equal `created_at` the code keeps the GREATER event id (apps/indexer/openprints/indexer/reducer.py:253,
  apps/indexer/openprints/indexer/identity_indexer.py:55); NIP-01 keeps the lowest.
- docs/indexer-schema.md:295-301 says the reducer keeps state in memory and is not safe across restarts; the
  code reads the store on every event (apps/indexer/openprints/indexer/reducer.py:69 and 104), so a restart
  between two deliveries changes nothing.
- The description field is multi-line, but a newline is one of the refused control characters
  (apps/client/src/lib/design-publish/form-utils.ts:12, form-event-builder.ts:56-59), so the builder accepts
  one-line descriptions only (`FormBuilder.DescriptionIsOneLine`).
- The edit round trip fails for some inputs: the MIME type is lower-cased after NFC, and lower-casing can undo
  NFC (form-event-builder.ts:80). `EditRoundTrip.RebuildsUnchanged` gives the exact condition and
  `ComposingPlatform.RoundTripCanFail` an input.
- A creator name of nothing but blanks around U+FEFF is a name for Python's strip (identity_utils.py:56-61) and none
  for JavaScript's trim (apps/client/src/lib/designs/api.ts:120-124), so the client rejects every design of that
  creator: neither the edit form nor the version page opens (`DesignDetail.BlankNameIsByteOrderMark`,
  `ComposingPlatform.BlankNameBlocksEditing`).
- One pass over a schema 1.1 design can lose updates (`LineageRuns.OnePassDependsOnOrder`).
- The ingest filter passes events the database cannot take: numbers beyond 64 bits, which Python's integers
  hold, and strings with lone surrogates, which JSON escapes produce. Binding them raises, and since the
  reducer loop has no handler (apps/indexer/openprints/indexer/design_indexer.py:84-92) it dies with the queue
  undrained. `Pipeline.LoopCrashesExactly` says when, `Pipeline.CrashIsPossible` for which events, and
  `Examples.OversizedTimeExample` runs one. A profile whose text cannot be encoded ends the refresher alike
  (`IdentityIndexer.Refresher.RunCycle`).
- The client drops version rows its parser refuses, for example with a blank tag key, which ingest allows
  (apps/client/src/lib/designs/api.ts:200, 480-483). Stored versions can then be unfindable and numbers too high:
  `VersionPages.StoredVersionIsShown` gives the exact conditions and `Examples.BlankKeyExample` an input.
- The version page first needs a design its parser takes, which a legacy current row without a name is not
  (`Examples.NamelessExample`), and it trims ids on both sides (`Examples.PaddedIdExample`).

A schema tag whose own text is "unknown" is refused like a malformed one, as in the code.

## Model

| member | source | states |
|---|---|---|
| Text.LessTotal | apps/indexer/openprints/indexer/reducer.py:242-253 | any two ids are equal or one is less, so the tie-break always decides |
| Text.LessTransitive | apps/indexer/openprints/indexer/reducer.py:242-253 | the id order is transitive, so the winner rule has a maximum |
| Text.LessMeaning | apps/indexer/openprints/indexer/reducer.py:253 | a string is less than another if and only if it is a proper prefix of it or has the smaller code point where they first differ |
| Events.ReadTagValues | apps/indexer/openprints/common/event_utils.py:19-33 | the loop returns every value of well-shaped tags with the key, in order; no list, no values |
| Events.FirstValueMeaning | apps/indexer/openprints/common/event_utils.py:13-16 | the value read for a key is the one in the first well-shaped tag carrying it, and none only if there is no such tag |
| Events.ResolveSchemaVersion | apps/indexer/openprints/common/design_event_schema.py:15-51 | the loop resolves to 1.0 without a schema tag, to the stripped value of a single well-formed one, and to unknown otherwise |
| Events.SchemaVersionMeaning | apps/indexer/openprints/common/design_event_schema.py:18-22 | a version is read if and only if it is 1.0 and no tag carries the schema key, or exactly one tag does, well formed, and the version is its stripped text |
| Tables.SqliteStore.AppendDesignVersion | apps/indexer/openprints/indexer/store_sqlite.py:147-174 | raises exactly when a parameter cannot be bound, and otherwise appends the row exactly when the event id is new; in all other cases the log is unchanged |
| Tables.SqliteStore.UpsertDesignCurrent | apps/indexer/openprints/indexer/store_sqlite.py:176-203 | replaces the design's row, or fails and changes nothing when the latest event id names no version |
| Tables.SqliteStore.EnsureIdentityPending | apps/indexer/openprints/indexer/store_sqlite.py:205-217 | a new key becomes pending with no attempts; a known one only has its last-seen time changed |
| Tables.SqliteStore.UpdateIdentityProfile | apps/indexer/openprints/indexer/store_sqlite.py:250-291 | raises exactly when the profile cannot be bound; otherwise a known key becomes fetched at the given time with retry count 0 and an unknown key changes nothing |
| Tables.SqliteStore.MarkIdentityFetchMiss | apps/indexer/openprints/indexer/store_sqlite.py:293-305 | a known key becomes failed at the given time with one retry more; its profile stays |
| Tables.SqliteStore.ListIdentityPubkeysForRefresh | apps/indexer/openprints/indexer/store_sqlite.py:219-248 | from any answer the ORDER BY permits, the due keys in order up to the limit |
| Tables.SqliteStore.PickDue | apps/indexer/openprints/indexer/store_sqlite.py:239-248 | the selection loop with its early exit equals picking due rows until the limit |
| Tables.PickedIsFull | apps/indexer/openprints/indexer/store_sqlite.py:246-247 | leaving the loop at the limit loses nothing |
| Reducer.BuildOptionalTags | apps/indexer/openprints/indexer/reducer.py:223-239 | the loop builds the object of optional tags in order of first occurrence |
| Reducer.OptionalTagsMeaning | apps/indexer/openprints/indexer/reducer.py:223-239 | under every key without a column of its own the object holds exactly the values the tag reader finds, in order; under the others nothing |
| Reducer.OptionalTagsOrder | apps/indexer/openprints/indexer/reducer.py:223-239 | the object's keys are those found in the list that have no column, in the order in which each is first found |
| Reducer.PredecessorRead | apps/indexer/openprints/indexer/reducer.py:193-220 | however a 64-digit predecessor is spelled, in either case and between blanks, it is read as the lower-case id, unless it is the event's own |
| Reducer.ReducerWorker.ReduceOne | apps/indexer/openprints/indexer/reducer.py:35-161 | the step by step reduction leaves the tables and counters the specification says, raising exactly where it says, in its own checks or in the store |
| Reducer.ReducerWorker.HasDesignAndTimes | apps/indexer/openprints/indexer/reducer.py:45-55 | the reducer's own checks accept exactly what the ingest filter passes |
| Reducer.ReducerWorker.ReduceIngestible | apps/indexer/openprints/indexer/reducer.py:57-151 | from the schema version on: unreadable versions and broken 1.1 lineage are dropped without touching the design tables |
| Reducer.ReducerWorker.BuildNextCurrent | apps/indexer/openprints/indexer/reducer.py:109-148 | the next row, field by field, with the newer event's fields and one version more |
| Reducer.ReducerWorker.CommitVersion | apps/indexer/openprints/indexer/reducer.py:104-151 | append, then upsert; a row that cannot be bound raises before either, and a duplicate changes only its counter |
| ReducerRuns.MaximumStep | apps/indexer/openprints/indexer/reducer.py:127-132 | comparing the new event with the kept winner yields the maximum of the whole log |
| ReducerRuns.CommitKeepsViews | apps/indexer/openprints/indexer/reducer.py:104-150 | a new version that can be bound keeps every design's row a query over its versions, and its upsert passes the foreign key |
| ReducerRuns.ReduceKeepsViews | apps/indexer/openprints/indexer/reducer.py:35-161 | one delivery of any event, malformed ones included, keeps view agreement, and raises exactly if the event is not ingestible, its pubkey cannot be encoded, or it is admitted and its row cannot be bound |
| ReducerRuns.ViewAgreement | apps/indexer/openprints/indexer/store_sqlite.py:52-69 | for every run from an empty store: ids unique; a row exists exactly for keys with versions; its count is their number, its fields those of their (created_at, id) maximum, its first and last times those of the first and last stored |
| ReducerRuns.ForeignKeyHolds | apps/indexer/openprints/indexer/store_sqlite.py:68 | in every reachable state latest_event_id names a stored version of that design |
| StoredEvents.VersionsAreEvents | apps/indexer/openprints/indexer/reducer.py:89-103 | in every reachable log each version is the event of a delivery, column by column, with the time of that delivery |
| StoredEvents.RowShowsBest | apps/indexer/openprints/indexer/reducer.py:242-253 | in every reachable state a design's row shows, field by field, the stored event that was created later than all others of the design, or as late and has the greater id, with ids compared code point by code point |
| StoredEvents.SeenTimes | apps/indexer/openprints/indexer/store_sqlite.py:205-217 | in every reachable state a key is known if and only if an event of it was delivered with an id and a pubkey that can be encoded, and its row has the times of the first and the last such delivery |
| ReducerRuns.RaisesExactly | apps/indexer/openprints/indexer/reducer.py:41-104 | the same of the reducer on every sound database (unique ids, each row its key's and naming a stored version), whatever crashes came before; strings may hold lone surrogates anywhere (`Event.surrogates`), and of the clock it is assumed that its readings fit a column |
| ReducerRuns.RunKeepsSound | apps/indexer/openprints/indexer/store_sqlite.py:52-69 | a run on a sound database leaves a sound one |
| ReducerRuns.RowAppears | apps/indexer/openprints/indexer/reducer.py:71-150 | a design without a row gets one from a delivery if and only if the event is ingestible, storable, new, and may start the design |
| ReducerRuns.RowMeansOpener | apps/indexer/openprints/indexer/reducer.py:71-87 | a design that gets its row during a run gets it from such an event delivered in the run |
| ReducerRuns.ReduceSeesIdentity | apps/indexer/openprints/indexer/reducer.py:43 | whatever becomes of an event, its key is marked seen if it can be encoded, and no other identity is touched |
| Convergence.Convergence | apps/indexer/openprints/indexer/reducer.py:35-161 | two deliveries of the same set of events, the ingestible ones without schema 1.1, in any orders and repetitions, store the same ids and show the same latest id, time, count, fields and tags for every design |
| Convergence.DesignConverges | apps/indexer/openprints/indexer/reducer.py:242-253 | the same for one design, if only its own events are without schema 1.1 and the same in both, whatever else is delivered |
| LineageRuns.StoredLineage | apps/indexer/openprints/indexer/reducer.py:70-107 | in every reachable log a 1.1 version lacks a predecessor exactly when it was the first stored for its design; predecessors are 64 lower-case hex characters and not the version's own id |
| LineageRuns.StoredIffAfterRoot | apps/indexer/openprints/indexer/reducer.py:69-107 | with one root and otherwise updates, a storable event of the design is stored exactly when it is delivered at or after a delivery of the root |
| LineageRuns.TwoPassesStoreAll | apps/indexer/openprints/common/relay_protocol.py:20-22 | delivering a 1.1 design's events in any order, mixed with anything, and all again in any order stores every one the tables can hold |
| LineageRuns.TwoPassesSuffice | apps/indexer/openprints/indexer/reducer.py:69-150 | and then the row counts every such event of the design and shows the greatest |
| LineageRuns.OnePassDependsOnOrder | apps/indexer/openprints/indexer/reducer.py:76-81 | for every root and update, delivering the update first, and once, loses it |
| LineageRuns.CrashAccounting | apps/indexer/openprints/indexer/store_sqlite.py:173-203 | with crashes between the two commits, the versions a row does not count are exactly as many as such crashes, and the row still names a stored version |
| LineageRuns.RunStepsSound | apps/indexer/openprints/indexer/store_sqlite.py:173-203 | every database that deliveries and crashes between the two commits can leave is sound |
| LineageRuns.CrashedRootIsLost | apps/indexer/openprints/indexer/reducer.py:69-107 | when the opening event of a design crashes there, the design gets a row in any further steps if and only if a completed one of them delivers a different event that may start it and is not stored by then |
| LineageRuns.CrashedRootStaysLost | apps/indexer/openprints/indexer/reducer.py:69-107 | so redelivering that root and delivering updates, completed or crashing, never gives the design a row |
| IdentityRuns.IdentityHistory | apps/indexer/openprints/indexer/store_sqlite.py:205-305 | under any interleaving of ingest, refresh and restart: retry count is the length of the trailing run of misses, pending means never tried, fetched means retry 0 and fetched when last tried, and the profile and its time are those of the last hit, which misses keep |
| IdentityRuns.NeverPendingAgain | apps/indexer/openprints/indexer/store_sqlite.py:205-217 | no identity returns to pending |
| IdentityRuns.AttemptsAreSpaced | apps/indexer/openprints/indexer/store_sqlite.py:219-248 | every attempt of every run comes at least the stale time after a hit and at least the backoff after a miss of the same key |
| IdentityRuns.SpanClosedForm | apps/indexer/openprints/indexer/store_sqlite.py:504-511 | the delays of k misses add up to 60(2^(k-1)-1) seconds up to the tenth and to 30660+21600(k-10) beyond |
| IdentityRuns.BackoffBound | apps/indexer/openprints/indexer/store_sqlite.py:504-511 | in every run k misses in a row span at least that long |
| IdentityRuns.DueExactly | apps/indexer/openprints/indexer/store_sqlite.py:504-511 | a row is due if and only if it was never tried, has no misses, or 60, 120, 240, ... 15360 seconds have passed since its last attempt after one to nine misses, and 21600 after more |
| IdentityRuns.PassedOverWhenFull | apps/indexer/openprints/indexer/store_sqlite.py:239-248 | a due row is left out only when the batch was full before its turn |
| IdentityRuns.PendingComeFirst | apps/indexer/openprints/indexer/store_sqlite.py:230-234 | a batch never passes over a pending identity for one that is not, nor for a pending one seen less recently |
| BoundedWaiting.PassedOverByRowsAhead | apps/indexer/openprints/indexer/store_sqlite.py:219-248 | a selection that leaves out a due failed row is a full batch of distinct rows ahead of it, ties counted as ahead |
| BoundedWaiting.FewBeforeIsTaken | apps/indexer/openprints/indexer/store_sqlite.py:219-248 | a pending, failed or stale row whose wait in seconds is over is selected when fewer rows than fit the batch may come before it |
| BoundedWaiting.OnlyDueAreTaken | apps/indexer/openprints/indexer/store_sqlite.py:219-248 | and no row is selected that is fetched and fresh or whose wait is not over |
| BoundedWaiting.WaitingIsBounded | apps/indexer/openprints/indexer/identity_indexer.py:193-221 | with fewer than five batches ahead, no newcomers and a monotone clock, a failed row whose wait in seconds is over is tried within floor(ahead/limit)+1 cycles |
| BoundedWaiting.ReachableWaitingIsBounded | apps/indexer/openprints/indexer/identity_indexer.py:193-221 | the same from every state the refresher can reach |
| ProfileMerge.FetchFromRelay | apps/indexer/openprints/indexer/identity_indexer.py:85-112 | the handler keeps per key the candidate the fold over valid kind-0 events gives |
| ProfileMerge.MergeRelays | apps/indexer/openprints/indexer/identity_indexer.py:143-160 | the merge loop over the relays' results |
| ProfileMerge.MergeInto | apps/indexer/openprints/indexer/identity_indexer.py:155-158 | merging one relay's results, whatever order its keys are visited in |
| ProfileMerge.RelayIsBest | apps/indexer/openprints/indexer/identity_indexer.py:50-55 | per relay and key the candidate is the (created_at, id) maximum of the valid events sent |
| ProfileMerge.MergeIsBest | apps/indexer/openprints/indexer/identity_indexer.py:143-160 | the two-level merge is one maximum over the union of everything sent |
| ProfileMerge.NewestProfileWins | apps/indexer/openprints/indexer/identity_indexer.py:50-55 | over the events the relays sent: a key has a profile if and only if a valid kind-0 event of it was sent, and it is the content of the one created last, of those as late the one with the greatest id |
| ProfileMerge.MergeIsOrderFree | apps/indexer/openprints/indexer/identity_indexer.py:143-160 | so it depends only on the set of events, not on relays or arrival order, when equal time and id mean equal profile |
| IdentityIndexer.Refresher.constructor | apps/indexer/openprints/indexer/identity_indexer.py:163-179 | batch size at least 1 and stale time at least 0, taken as given when they are |
| IdentityIndexer.Refresher.RunCycle | apps/indexer/openprints/indexer/identity_indexer.py:193-221 | a cycle writes back the selected keys in order, a profile for those found and a miss for the others, under one attempt time, all of them or up to the first whose profile cannot be bound, where it raises |
| IdentityIndexer.Refresher.WriteAnswers | apps/indexer/openprints/indexer/identity_indexer.py:208-221 | the loop over the keys, with its counters |
| IdentityIndexer.DeliveryIsStep | apps/indexer/openprints/indexer/reducer.py:41-43 | a delivery changes the identities as the machine's ingest step does, or not at all without an id and a key that can be encoded |
| IdentityIndexer.MarksWriteBack | apps/indexer/openprints/indexer/identity_indexer.py:208-221 | the first n write-backs are n steps of the machine |
| IdentityIndexer.CycleIsRun | apps/indexer/openprints/indexer/identity_indexer.py:193-221 | a cycle is a run of the machine, complete exactly if every profile of the batch can be bound, so the run-level results hold of it |
| Pipeline.StepKeepsInv | apps/indexer/openprints/indexer/design_indexer.py:80-92 | every step of workers, queue, stop event and loop keeps conservation, bound, order, drain, and that the loop is dead exactly after an envelope that raises |
| Pipeline.PipelineConserves | apps/indexer/openprints/indexer/relay_worker.py:97-106 | in every interleaving, crashed ones included, the envelopes put are exactly those reduced, then the one in hand if any, then the queue, in this order; a positive maxsize is kept, and each relay's order is kept |
| Pipeline.ShutdownDrains | apps/indexer/openprints/indexer/design_indexer.py:49-57 | when the loop exits, every envelope put before that has been reduced exactly once, and the tables are those of a plain run over exactly these from the database found at the start |
| Shutdown.LoopEnds | apps/indexer/openprints/indexer/design_indexer.py:80-92 | with the stop event set and the workers gone the loop ends within three steps for each queued envelope and two more, and two for each time-out that comes although something is queued: with everything put reduced, or dead of an envelope that raises |
| Shutdown.NeverStuck | apps/indexer/openprints/indexer/design_indexer.py:84-92 | until it has ended the loop can always make a step |
| Shutdown.StopCancelsAll | apps/indexer/openprints/indexer/design_indexer.py:49-57 | cancelling the workers leads there from any state with the stop event set |
| Shutdown.StopIsSet | apps/indexer/openprints/indexer/relay_worker.py:86-93 | the stop event is set if and only if somebody set it or a worker gave up |
| Shutdown.WorkersStay | apps/indexer/openprints/indexer/relay_worker.py:46-95 | until then no worker leaves without being cancelled |
| Shutdown.ReceivedAsSent | apps/indexer/openprints/indexer/relay_worker.py:97-106 | what a worker received is the ingestible events of its relay in order, each stamped with that relay and the time it came |
| Shutdown.PutAsSent | apps/indexer/openprints/indexer/relay_worker.py:97-106 | and what it has put on the queue is a prefix of that |
| Shutdown.QueueFills | apps/indexer/openprints/indexer/design_indexer.py:31 | a queue of positive size can be filled to its bound, any other beyond every bound |
| Pipeline.LoopCrashesExactly | apps/indexer/openprints/indexer/design_indexer.py:84-92 | in every run, from any such database, the loop is dead of an exception if and only if one of the envelopes it has tried raises in the state the earlier ones leave |
| Pipeline.CrashIsPossible | apps/indexer/openprints/common/event_filter.py:9-21 | on any database the reducer has written, crashes included, some interleaving receiving only the given events kills the loop if and only if one of them is ingestible and has a pubkey that cannot be encoded; or cannot be bound and is admitted by the rows at the start; or cannot be bound, updates a design without a row, and a new storable event that may start that design is among them |
| Pipeline.OversizedTimeKillsLoop | apps/indexer/openprints/indexer/reducer.py:54 | an event created at 2^63 that the rows at the start admit kills the loop on its own |
| Pipeline.StorableEventsAreSafe | apps/indexer/openprints/indexer/design_indexer.py:84-92 | a loop that gets only storable events never dies of an exception, whatever such database it starts on |
| Pipeline.FinishOutcome | apps/indexer/openprints/indexer/design_indexer.py:89-92 | reducing the envelope in hand ends the loop exactly if it raises |
| VersionSearch.ConfiguredUnlessBlank | apps/client/src/lib/designs/version-page.ts:63-66 | the API counts as configured unless its trimmed base is empty or a lone slash |
| DesignDetail.FetchDesign | apps/indexer/openprints/api/routes/designs.py:110-127 | the detail endpoint and the client's parser: refused without a row or an npub, malformed where the parser rejects the payload, served otherwise |
| DesignDetail.ServedExactly | apps/client/src/lib/designs/api.ts:204-302 | a design reaches the client if and only if its key is 64 hex digits in either case, its name is not blank, no tag key is, and the creator's resolved name is absent or has a character JavaScript does not trim |
| DesignDetail.NameIsFirstGiven | apps/indexer/openprints/api/serializers/identity.py:19-24 | the resolved name is the first of display_name, name and nip05 that strips to something, and none if none does |
| DesignDetail.NpubIsHexKey | apps/indexer/openprints/common/identity_utils.py:6-17 | a key without blanks has an npub if and only if it is 64 hex digits |
| DesignDetail.BlankNameIsByteOrderMark | apps/indexer/openprints/common/identity_utils.py:56-61 | the creator names that keep a design from the client begin and end with U+FEFF, which Python's strip keeps and JavaScript's trim removes, and hold only blanks |
| DesignDetail.OptionalKeepsKeys | apps/indexer/openprints/indexer/reducer.py:223-239 | a current row's tag object has a blank key if and only if the event it shows has a well-shaped tag with one |
| VersionSearch.LoadDesignVersionView | apps/client/src/lib/designs/version-page.ts:147-345 | which error page each failed precondition gives, in order, and otherwise the page for the design's answer and the trimmed request; terminates for all answers |
| VersionSearch.SelectVersion | apps/client/src/lib/designs/version-page.ts:223-345 | the selection with its reassigned variables equals the specified view, errors included |
| VersionSearch.SearchPages | apps/client/src/lib/designs/version-page.ts:249-284 | the paging loop finds, misses or breaks as specified, for any answers, with measure total minus offset |
| VersionOrder.NewestFirstSorted | apps/indexer/openprints/indexer/store_sqlite.py:444 | the listed rows are strictly descending by (created_at, event_id) |
| StoredEvents.ListedBestFirst | apps/indexer/openprints/indexer/store_sqlite.py:444 | of two listed versions the first was created later, or as late and has the greater id |
| VersionOrder.NewestFirstIsPermutation | apps/indexer/openprints/indexer/store_sqlite.py:438-449 | and are exactly the design's versions |
| VersionOrder.PageHoldsRanks | apps/indexer/openprints/indexer/store_sqlite.py:424-469 | a page holds exactly the versions of the design with offset to offset + limit - 1 newer ones |
| VersionOrder.OlderComeAfter | apps/indexer/openprints/indexer/store_sqlite.py:444 | exactly the versions a row supersedes stand after it |
| VersionPages.FetchVersions | apps/client/src/lib/designs/version-page.ts:89-145 | one request for a page, through the store's query and the client's parser, answers as `StoreAnswers` says |
| VersionPages.StoreServes | apps/client/src/lib/designs/api.ts:480-493 | the endpoint over an unchanged log, through the client's parser, serves slices of one list without the rows that do not parse, and echoes limit and offset |
| VersionPages.LookupResult | apps/client/src/lib/designs/version-page.ts:250-284 | from the start of any page the loop finds the first match if and only if there is one and no page before its own is without parsing rows |
| VersionPages.SearchOutcome | apps/client/src/lib/designs/version-page.ts:237-310 | the whole search, first page included, against any served list |
| VersionPages.FailureIsReported | apps/client/src/lib/designs/version-page.ts:260-263 | when a request fails that the search cannot do without, the page reports the failure, not a missing version |
| VersionPages.RequestedVersion | apps/client/src/lib/designs/version-page.ts:147-345 | for any request that is not blank: an error page if the design does not reach the client; otherwise the newest version parsing to the trimmed id is shown if the search gets that far, numbered 1 plus how many are older plus the rows dropped above it on its page; otherwise the page says not found |
| VersionPages.StoredVersionIsShown | apps/client/src/lib/designs/version-page.ts:147-345 | requested by its own id, a stored version whose trimmed id no other parses to is shown if and only if the design reaches the client, the version parses, and no page before its own is without parsing rows; its number is 1 plus the count of older ones plus the rows dropped above it, hence right if and only if none is |
| VersionPages.OnlyStoredVersionsAreShown | apps/client/src/lib/designs/version-page.ts:298-310 | nothing is shown under a trimmed id no stored version parses to, nor of a design that does not reach the client |
| VersionPages.WhenAllParse | apps/client/src/lib/designs/version-page.ts:326-329 | when the design reaches the client and all its versions parse, under ids that differ when trimmed, every stored one is shown under 1 plus the count of older ones |
| VersionPages.DefaultVersion | apps/client/src/lib/designs/version-page.ts:234-235 | with none requested, on any sound database: the newest of the first thirty versions that parses is shown, numbered too high by as many as are newer; an error page if none parses or the design does not reach the client |
| VersionPages.LatestIsShown | apps/client/src/lib/designs/version-page.ts:234-235 | with none requested, in every state whose rows agree with the log, a design that reaches the client is shown by designs.latest_event_id under number version_count, unless that id or the design id is blank |
| VersionPages.ServedInView | apps/client/src/lib/designs/version-page.ts:193-200 | in such a state a design reaches the client if and only if it has versions, its key is 64 hex digits, the newest version has a name and no blank tag key, and the creator is named |
| VersionPages.BlankKeyMisleads | apps/client/src/lib/designs/api.ts:200 | of three versions the middle one with a blank tag key is not found and the oldest is called number 2 |
| ApiId.Utf8RoundTrip | apps/indexer/openprints/common/design_id.py:50-59 | decoding UTF-8 inverts encoding it |
| ApiId.Base64RoundTrip | apps/indexer/openprints/common/design_id.py:50-59 | the lenient decoder of section 5 of RFC 4648 inverts the encoder |
| ApiId.PaddingRestored | apps/indexer/openprints/common/design_id.py:50-58 | stripping the padding and putting back what the length calls for restores the text |
| ApiId.ApiIdRoundTrip | apps/indexer/openprints/common/design_id.py:47-65 | decoding an encoded pair returns it if and only if the pubkey has no newline |
| ApiId.ApiIdsDiffer | apps/indexer/openprints/common/design_id.py:47-50 | different designs of newline-free pubkeys have different ids |
| SignerStore.IdentityStore.constructor | apps/client/src/lib/identity-store.ts:83-90 | the module's initial variables |
| SignerStore.IdentityStore.SetActivePubkey | apps/client/src/lib/identity-store.ts:269-282 | the new values of the active key, its authority, the status and the wait, together |
| SignerStore.IdentityStore.TryReconcile | apps/client/src/lib/identity-store.ts:418-422 | goes on exactly when none is running and 1.2 s have passed since the last |
| SignerStore.IdentityStore.ReconcileMissing | apps/client/src/lib/identity-store.ts:427-448 | a missing signer starts or measures the wait of a provisional key, and never touches an authoritative one |
| SignerStore.IdentityStore.ReconcileAnswered | apps/client/src/lib/identity-store.ts:450-453 | an answer makes its key active, authoritative and confirmed |
| SignerStore.IdentityStore.BootstrapFromCache | apps/client/src/lib/identity-store.ts:466-477 | a cached key becomes active but provisional |
| SignerStore.IdentityStore.StartRefresh | apps/client/src/lib/identity-store.ts:343-368 | a request starts exactly when none is in flight for the key |
| SignerStore.IdentityStore.EndRefresh | apps/client/src/lib/identity-store.ts:369-373 | the in-flight entry is removed and no other |
| SignerStore.StepKeepsSigner | apps/client/src/lib/identity-store.ts:414-477 | every step keeps the authority invariant and never turns authority off |
| SignerStore.StepKeepsRequests | apps/client/src/lib/identity-store.ts:339-374 | every step keeps one running or settled request per in-flight entry |
| SignerStore.SignerAuthority | apps/client/src/lib/identity-store.ts:414-521 | over all interleavings: authoritative implies a pubkey, confirmed implies authoritative, timed out implies a provisional pubkey that has waited 10 s |
| SignerHistory.StoreTellsSigner | apps/client/src/lib/identity-store.ts:414-521 | over all interleavings, read off the steps: the active key is the signer's last answer, and authoritative, or else the key cached at the start; the status is confirmed if and only if that answer is the latest news, and timed out if and only if there was none and reconciliations have found no signer for ten seconds |
| SignerHistory.StartsIffIdle | apps/client/src/lib/identity-store.ts:418-422 | a reconciliation starts if and only if none is running and 1.2 seconds have passed since the last one started |
| SignerHistory.RefreshRuns | apps/client/src/lib/identity-store.ts:339-374 | a refresh asked for is one request, its own or one already on its way |
| SignerStore.AuthorityStays | apps/client/src/lib/identity-store.ts:269-282 | once authoritative, always authoritative |
| SignerStore.NoOverlap | apps/client/src/lib/identity-store.ts:339-422 | at most one reconciliation at a time and one backend request per pubkey |
| FormText.SingleLineIsNormal | apps/client/src/lib/design-publish/form-utils.ts:28-29 | a normalised line is trimmed, in NFC, and holds no space but single blanks |
| FormText.SingleLineKeeps | apps/client/src/lib/design-publish/form-utils.ts:28-29 | normalising such a line changes nothing |
| FormWords.SingleLineKeepsWords | apps/client/src/lib/design-publish/form-utils.ts:28-29 | a normalised line has the words of the text, in order |
| FormWords.NameKeepsWords | apps/indexer/openprints/common/event_validation.py:29-30 | so has the server's form of a name, for Python's whitespace |
| FormText.LineListRoundTrip | apps/client/src/lib/design-publish/form-utils.ts:34-38 | joining normal lines and parsing them gives the same list |
| FormWords.ListFieldKeepsLines | apps/client/src/lib/design-publish/form-utils.ts:34-38 | for any text the list is its lines that are not blank, trimmed, in order, and nothing else |
| FormWords.CrLfShortened | apps/client/src/lib/design-publish/form-utils.ts:31-32 | each CR LF becomes one line break |
| FormWords.LengthAdds | apps/client/src/lib/design-publish/form-event-builder.ts:31-36 | a name's length counts two for each character beyond the basic plane and one for every other |
| FormText.ListFieldIsNormal | apps/client/src/lib/design-publish/form-event-builder.ts:69-77 | the list fields come out as non-empty normal lines |
| FormBuilder.BuildUnsignedEvent | apps/client/src/lib/design-publish/form-event-builder.ts:17-133 | the builder returns the specified errors in order, or the specified event and warnings, over any NFC, lower-casing and URL parser |
| FormBuilder.CheckFields | apps/client/src/lib/design-publish/form-event-builder.ts:21-59 | the errors of the single fields in order, and the warning for a missing hash |
| FormBuilder.CheckPreviews | apps/client/src/lib/design-publish/form-event-builder.ts:61-67 | each preview becomes its serialised URL or an error |
| FormBuilder.CheckTagValues | apps/client/src/lib/design-publish/form-event-builder.ts:82-95 | one error per tag value with refused characters |
| FormBuilder.PushTags | apps/client/src/lib/design-publish/form-event-builder.ts:102-120 | the tags in their order, optional ones only when present |
| FormBuilder.BuiltIffPublishable | apps/client/src/lib/design-publish/form-event-builder.ts:17-100 | the builder accepts exactly the drafts that meet every requirement of the form |
| FormBuilder.ErrorsAreFaults | apps/client/src/lib/design-publish/form-event-builder.ts:21-99 | the errors of a refused form are exactly those whose condition its normalised fields meet, in the order of the checks |
| FormBuilder.DescriptionIsOneLine | apps/client/src/lib/design-publish/form-event-builder.ts:56-59 | no built event's content has a line break |
| PublishedEvents.BuiltTagValues | apps/client/src/lib/design-publish/form-event-builder.ts:102-120 | what the indexer's tag reader finds under any key of a built event |
| PublishedEvents.LeadingFields | apps/client/src/lib/design-publish/form-event-builder.ts:102-112 | under each leading key stands its own field and nothing else |
| PublishedEvents.TrailingFields | apps/client/src/lib/design-publish/form-event-builder.ts:113-120 | and likewise under each trailing key |
| PublishedEvents.EventCarriesForm | apps/client/src/lib/design-publish/form-event-builder.ts:17-133 | the event carries each field typed into the form under its own key, normalised, and nothing else there |
| PublishedEvents.WarnsWithoutHash | apps/client/src/lib/design-publish/form-event-builder.ts:49-54 | the warning comes if and only if the event has no hash |
| PublishedEvents.TagsInOrder | apps/client/src/lib/design-publish/form-event-builder.ts:102-120 | the tags come in the order d, schema, name, format, url, predecessor, hash, preview, category, material, printer, license, lnurl, m |
| PublishedEvents.BuiltSchema | apps/client/src/lib/design-publish/form-event-builder.ts:104 | every built event resolves to schema 1.1 |
| EventValidation.ValidateSignedDesignEvent | apps/indexer/openprints/common/event_validation.py:37-184 | the validator returns the specified errors in order, and the event only without any |
| EventValidation.CheckTypes | apps/indexer/openprints/common/event_validation.py:53-66 | one error per field of the wrong type, none exactly for typed events |
| EventValidation.CheckTags | apps/indexer/openprints/common/event_validation.py:98-182 | the tag and content checks in order |
| EventValidation.PassesIffValid | apps/indexer/openprints/common/event_validation.py:37-184 | no error exactly for events that meet every listed requirement |
| ValidationErrors.ErrorsAreFaults | apps/indexer/openprints/common/event_validation.py:37-184 | the errors returned are exactly those whose condition the event meets: missing fields alone, else wrong types alone, else bad fields, and tags and content only if all tags are lists of strings |
| Acceptance.UuidsAgree | apps/indexer/openprints/common/design_id.py:11-20 | among hex strings grouped 8-4-4-4-12 the server's UUID parser accepts exactly version 4 of the RFC 4122 variant |
| Acceptance.DesignIdsAgree | apps/client/src/lib/design-publish/form-utils.ts:9-10 | every design id the form lets through is one the server and the indexer accept, and of prefixed grouped hex they accept no other |
| Acceptance.NamesAgree | apps/indexer/openprints/common/event_validation.py:29-30 | the server's whitespace normaliser leaves the form's names alone, though the two whitespace classes differ |
| Acceptance.ReadyIsValid | apps/indexer/openprints/common/event_validation.py:37-184 | the validator accepts a built and signed event |
| Acceptance.ValidIsIngestible | apps/indexer/openprints/common/event_filter.py:9-21 | whatever the validator accepts passes the ingest filter with a readable schema version |
| Acceptance.BuiltLineage | apps/indexer/openprints/indexer/reducer.py:193-220 | the reducer reads a built event's predecessor as the form meant it |
| Acceptance.ReadyIsAdmitted | apps/indexer/openprints/indexer/reducer.py:71-87 | a built event is admitted exactly when it names a predecessor just if its design has a row |
| Acceptance.AcceptanceChain | apps/client/src/lib/design-publish/form-event-builder.ts:17-133 | built and signed, an event passes validator and filter and resolves to 1.1; on any sound database, on first delivery, it is stored if and only if the predecessor tag is absent exactly when the design has no row, and its clock reading fits 64 bits, past which the append raises |
| EditRoundTrip.RowParses | apps/client/src/lib/designs/api.ts:163-365 | the client takes the row of a built event if and only if the creator is named, whatever identity is stored |
| EditRoundTrip.PrefillIsFirst | apps/client/src/lib/design-publish/edit-prefill.ts:4-19 | a single-valued field is prefilled with the first value under its key that is not blank |
| EditRoundTrip.ReopenedDraft | apps/client/src/lib/design-publish/edit-prefill.ts:4-44 | the reopened form makes the same draft but for predecessor, serialised previews and re-normalised MIME type |
| EditRoundTrip.PredecessorReplaced | apps/client/src/lib/design-publish/form-event-builder.ts:109-111 | changing the predecessor changes that one tag and no other, nor their order |
| EditRoundTrip.RebuildsUnchanged | apps/client/src/lib/design-publish/edit-prefill.ts:23-44 | over any lawful NFC and lower-casing and any stored identity, an indexed event reopens and rebuilds unchanged, with the same content and the same tags in order but for the predecessor, if and only if its creator is named and its MIME type, as lower-cased, is in NFC |
| EditRoundTrip.PublishedThenReopened | apps/client/src/lib/design-publish/edit-prefill.ts:23-44 | the same through the index: delivered to any sound database it fits, stored, and becoming its design's latest, the event reopens if and only if its creator is named, and unchanged if and only if its MIME type is in NFC too, in any later state in which the row stands, whatever has become of the identities |
| ComposingPlatform.ComposingIsLawful | apps/client/src/lib/design-publish/form-utils.ts:28-50 | the laws assumed of NFC, lower-casing and URL serialisation are consistent |
| ComposingPlatform.RoundTripCanFail | apps/client/src/lib/design-publish/form-event-builder.ts:80 | published to a fresh index and reopened, a MIME type of capital J and combining caron is rebuilt differently |
| ComposingPlatform.BlankNameBlocksEditing | apps/client/src/lib/designs/api.ts:163-172 | without a MIME type, the design of a creator whose fetched display name is U+FEFF is indexed and does not reopen, though another name is there |
| Examples.BlankKeyExample | apps/client/src/lib/designs/api.ts:200 | three concrete events, the middle one with a blank tag key, run through the reducer: it is stored, the page does not find it, and the oldest is shown as number 2 |
| Examples.PaddedIdExample | apps/client/src/lib/designs/version-page.ts:154 | a stored event id with a blank before it is shown trimmed, as number 1 |
| Examples.NamelessExample | apps/client/src/lib/designs/version-page.ts:193-200 | a stored version of a design whose current row has no name is not shown: the design is unavailable |
| Examples.TieExample | apps/indexer/openprints/indexer/reducer.py:253 | of two events of a design created at 5 with ids a and b, delivered in this order, b is shown |
| Examples.OversizedTimeExample | apps/indexer/openprints/indexer/design_indexer.py:84-92 | one named event kills the loop of a fresh pipeline if and only if its time needs more than 64 bits |
| Examples.SurrogateExample | apps/indexer/openprints/indexer/reducer.py:43-107 | so does one with a lone surrogate, in its pubkey or elsewhere |

## Left out

- Websockets, HTTP, the SQLite driver and asyncio internals are steps; tables are plain maps and sequences; clocks are integers that do not run back. `wait_for(queue.get())` is one step.
- Disk errors, locks and SQLite's length limits. Clock readings of the indexer are assumed to fit a column.
- Schnorr signatures, SHA-256, bech32 and JSON text: ids are opaque strings and raw events are data.
- NFC, toLowerCase and `new URL` are parameters with stated laws (`FormText.Lawful`); their tables are not part of this model. Python's lower() and the client's pubkey parser are modelled on ASCII and the Kelvin sign, which decides every pattern their results are compared with.
- Texts typed into the form hold no lone surrogates.
- Nothing is claimed of first_published_at and receive times across delivery orders: they follow the first event stored.
- Pipeline.Step: a worker's retry count and delays are not modelled; `GiveUp` may happen whenever the worker listens, which covers the real loop. Parsing of relay messages appears only as `Receive`.
- BoundedWaiting.WaitingIsBounded: nothing is claimed of stale fetched rows, which sort after all failed ones, nor of runs with restarts or new identities.
- VersionPages.StoredVersionIsShown: a database that changes while the page loads is not considered. The design is the pair of key and id that the server decodes from the page's address (`ApiId`). Fields of a row other than its id take no part in the search; the browser rounds numbers beyond 2^53 when it shows them.
- SignerStore.SignerAuthority: subscribers that call back into the store, and the freshness of the profile caches, are not modelled; nor is it claimed that only confirmed keys sign.
- LogOnlyIndexStore never returns a current row, so the view properties do not apply to it.
- Paging of the global design list sorts by one non-unique column and has no fixed tie order.
- Astro components, the form controller, avatars and copy buttons; the CLI, configuration, health checks and the watchdog.
