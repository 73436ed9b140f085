# Proofs for the Firebase Rust SDK

A Dafny 4.11 model of the parts of the SDK where several functions, a state machine or concurrent
tasks have to fit together, with proofs of what they promise as a whole. `dafny verify dfyconfig.toml`
checks it.

Loops, in-place edits and objects of the source are methods and classes here. Each is proved against a
specification function, and the lemmas are about that function: what it means to a reader of the data, and
what it keeps. Each concurrent protocol is a
transition system whose steps are the atomic blocks of the source; beside it stands the loop that one
participant runs, proved to be one of its interleavings.

## Realtime Database

`Json`, `TreeEditors`, `TreeLaws`, `ManyWrites`. Two independently written tree editors, the mirror's and the
in-memory backend's, are compared through the leaves of a tree: which scalar or array sits at which
path, where nulls and empty objects contribute nothing. The leaf laws hold for all trees. The editors
disagree on scalars above an edited path, and the laws say exactly when. `ManyWrites` does the same for calls
of several writes, a later one of which can mend what an earlier one broke.

`LocalView`, `DatabaseClient`. The client keeps a partial mirror, serves `get()` from it whenever a
listener covers the path, and tells listeners what changed. `LocalView` describes every operation on
mirror, listeners and inboxes; class `Database` performs it. Over every run from the empty database in
which each call meets a condition its caller can check beforehand, `get()` returns the server's data and
every value listener was last told the server's data. The condition is exact, call by call and over runs: it
says which scalars that a listener covers a call has to keep clear of (`LocalView.AlwaysInSyncIff`).

`ChildRuns`. Over whole runs, the child events raised at a path replay to its present children at every
moment if and only if no new listener's seed changes them silently (`ChildRuns.RunReplaysIff`).

`Backend`, `Transactions`. Compare-and-set transactions of any number of clients, interleaved with sets,
updates and deletes. The in-memory backend's tag is a 64-bit hash, and no such tag tells all values apart.
`Transactions.Serializable` asks it to tell apart the values that one location held in the run; whatever
the tag, a run is serial exactly if no attempt commits blindly (`Transactions.SerialIffSighted`). That lost
races are real needs nothing of the tag. The precondition is that of section 13.1.1 of RFC 9110.

`ServerValue`, `ChildEvents`, `PushId`, `Paths`. Placeholder resolution at any depth, child events as a
replayable difference, push ids that grow, and paths that print and parse. `Text` and `Ordering` hold what
they share.

## The other components

`Registration`. Any number of tasks obtain the installation id of one app; each lock-protected block and
each await is one step.

`FirestoreOrder`, `ValueOrder`, `QueryEvaluator`, `QueryMeaning`, `QueryOrder`, `QueryLaws`. The cross-type
value order with its integer-to-double cast, and which order it is; the order-by list a query ends up with;
local query evaluation: what filters and cursors mean, stable sort, limits, pages.

`CallableStream`, `StreamMeaning`. An incremental line reader that refines a one-shot reading of the whole
text, and what that reading makes of the lines a server writes. The lines are a subset of the event stream of
section 9.2 of the WHATWG HTML Standard.

`Refresher`. A retry loop with back-off and cancellation, and the closed form of its waits.

## Where the code and its promise differ

Each of these is proved, as a concrete run or as an if-and-only-if.

- `set(null)` directly under a scalar empties the scalar in the backend and not in the mirror
  (`TreeLaws.SetAgreesIff`, `LocalView.SetInSyncIff`); `remove` two or more levels below a scalar does the
  reverse (`TreeLaws.RemoveAgreesIff`, `LocalView.RemoveInSyncIff`).
- Attaching a listener two or more levels below a scalar erases the scalar from the mirror, and its own
  listener hears nothing (`LocalView.AttachBelowLeafGoesUnnoticed`, `LocalView.AttachInSyncIff`).
- `update()` is documented as one write. On the in-memory backend it is all or nothing only if a bad
  placeholder sits in the first path (`Backend.FailureChangesNothingIff`); in a later one it leaves the
  earlier paths written, unknown to mirror and listeners (`LocalView.FailedUpdateDiverges`).
- Attaching below a path that is not there puts empty objects on the way into the mirror without telling
  anyone. A listener for added children can miss a child for good (`ChildRuns.SilentSeed`,
  `ChildRuns.SeedFitsIff`).
- A write below one element of an array turns the array into an object, and a listener on another element
  is not told (`TreeLaws.ArrayWriteGoesUnnoticed`).
- Over a store that already holds an id, two tasks can return different ids (`Registration.AgreementIff`).
- An error while taking the registration lock bars every later caller, unless an id has been entered or is
  about to be published (`Registration.CanSucceedIff`).
- A lower back-off bound under a millisecond makes every failure wait after the first one zero
  (`Refresher.NeverBelowLowerIff`).
- The value order is called total, but stops being transitive where integers exceed 2^53
  (`FirestoreOrder.TransitiveIff`). Filters use another equality than the order: 1 and 1.0 tie and are not
  equal (`QueryLaws.EqualIffTied`).
- A cursor made from a document names it by reference while the evaluator compares ids as strings, so
  starting after a document skips ties or repeats the document (`QueryLaws.StartAfterDocumentIff`).
- `get_docs` reverses limit-to-last answers. The in-memory store answers in the query's own order already,
  so its answers arrive backwards (`QueryLaws.LocalAnswerInOrderIff`,
  `QueryLaws.PlainQueryInOrderIff`).

## Model

| member | source | states |
|---|---|---|
| `TreeEditors.ApplyRealtimeValue` | crates/firebase-database/src/api.rs:1672-1700 | the mirror's cursor loop performs the write `Written`, whose leaves `TreeLaws.WrittenLeaf` describes |
| `TreeEditors.GetValueAtPath` | crates/firebase-database/src/api.rs:1756-1793 | the mirror's read, which also looks into arrays by index and through `.value`: `ValueAt` if it gets to the end of the path, else nothing; a stored null is found |
| `TreeEditors.SetAtPath` | crates/firebase-database/src/backend.rs:555-577 | the backend's cursor loop performs the write `SetAt`, whose leaves `TreeLaws.SetLeaf` describes |
| `TreeEditors.DeleteAtPath` | crates/firebase-database/src/backend.rs:604-626 | the backend's delete loop performs `DeletedAt`, whose leaves `TreeLaws.DeletedLeaf` describes |
| `TreeEditors.GetAtPath` | crates/firebase-database/src/backend.rs:579-595 | the backend's read: something is found, possibly a null, exactly when object members lead all the way down the path |
| `TreeLaws.WrittenLeaf` | crates/firebase-database/src/api.rs:1672-1700 | a mirror write puts exactly the leaves of the value at and below its path, wipes leaves above it except that a removal spares the immediate parent, and leaves every other leaf of the tree alone |
| `TreeLaws.SetLeaf` | crates/firebase-database/src/backend.rs:555-577 | the same account of a backend write, which wipes every leaf above its path even when it stores a null |
| `TreeLaws.DeletedLeaf` | crates/firebase-database/src/backend.rs:604-626 | a backend delete removes the leaves at and below its path and no others |
| `TreeLaws.GetLeaf` | crates/firebase-database/src/backend.rs:579-595 | a backend read returns exactly the leaves of the tree below the path |
| `TreeLaws.SetAgreesIff` | crates/firebase-database/src/api.rs:1165-1168 | where mirror and backend agree at and below a path, mirroring a backend `set` keeps them so if and only if it does not store a null directly under a scalar there |
| `TreeLaws.RemoveAgreesIff` | crates/firebase-database/src/api.rs:1371-1374 | where they agree at and below a path, mirroring a backend `delete` keeps them so if and only if no scalar there sits strictly above the parent of the removed path |
| `TreeLaws.SeedAgreesIff` | crates/firebase-database/src/api.rs:612-617 | seeding a new listener's path brings the mirror in line with the backend below it, wherever it was before; at and below any other path where they agree they go on agreeing if and only if no scalar there sits strictly above the seeded path's parent |
| `ManyWrites.WritesAgreeIff` | crates/firebase-database/src/backend.rs:168-181 | where mirror and backend agree at and below a path, a call of several writes keeps them so if and only if a later write mends whatever an earlier one broke there, for updates that set and merges that remove |
| `TreeLaws.ReadersAgree` | crates/firebase-database/src/api.rs:1720-1725 | on trees without arrays and wrappers the two readers return the same value |
| `TreeLaws.ReadBack` | crates/firebase-database/src/api.rs:1672-1725 | a non-null write reads back at its own path, whatever the tree held; at the root without its wrapper |
| `TreeLaws.UnrelatedReadIff` | crates/firebase-database/src/api.rs:1661-1670 | a write along a path without `.value` leaves the read at an unrelated path unchanged if and only if it does not replace a node the read went through; this is when skipping unrelated listeners is right |
| `TreeLaws.UnrelatedReadUnchanged` | crates/firebase-database/src/api.rs:1661-1670 | without arrays and wrappers skipping unrelated listeners is always right |
| `TreeLaws.ArrayWriteGoesUnnoticed` | crates/firebase-database/src/api.rs:1672-1700 | writing one element of an array changes what is read at another element, whose listener is not told |
| `TreeLaws.UnrelatedWritesCommute` | crates/firebase-database/src/api.rs:1672-1700 | writes at unrelated paths give the same tree in either order, arrays and wrappers included |
| `TreeLaws.LaterWriteAbsorbsIff` | crates/firebase-database/src/api.rs:1672-1700 | a write absorbs an earlier one at or below its path, except, exactly, a removal whose parent only the earlier write made an object |
| `TreeLaws.MergeOrderIrrelevant` | crates/firebase-database/src/api.rs:715-728 | a merge frame with pairwise unrelated keys gives the same tree in every order of its keys |
| `TreeLaws.WrittenAllLeaf` | crates/firebase-database/src/api.rs:715-728 | after unrelated writes each path has the leaves of its own value, and paths unrelated to them all have theirs as before |
| `TreeLaws.ReadsLookInside` | crates/firebase-database/src/api.rs:1756-1793 | the mirror's reader finds the i-th element of an array under i in decimal and nothing past the end, and looks through a `.value` wrapper |
| `TreeEditors.IndexReadsBack` | crates/firebase-database/src/api.rs:1756-1793 | an array index in decimal is read back, with or without a plus sign, below 2^64 |
| `ServerValue.ResolveServerValues` | crates/firebase-database/src/server_value.rs:37-72 | the loops over members and elements compute full recursive resolution, or fail |
| `ServerValue.ResolveLocally` | crates/firebase-database/src/backend.rs:229-235 | the early return for data without placeholders gives what full resolution against the stored data gives |
| `ServerValue.NothingLeftToResolve` | crates/firebase-database/src/server_value.rs:37-101 | a successful resolution contains no placeholder at any depth |
| `ServerValue.PlainDataUnchanged` | crates/firebase-database/src/server_value.rs:24-35 | data without placeholders resolves to itself |
| `ServerValue.KeepsAllOtherData` | crates/firebase-database/src/server_value.rs:37-72 | resolution keeps keys, array lengths, order and all data that is no placeholder |
| `ServerValue.FailsIffMalformed` | crates/firebase-database/src/server_value.rs:74-101 | resolution fails if and only if some placeholder is malformed, whatever is stored |
| `ServerValue.IncrementAddsAtDepth` | crates/firebase-database/src/server_value.rs:74-101 | an increment buried at any depth adds its delta to the number stored at the same place, or to zero |
| `ServerValue.IncrementAddsInArrays` | crates/firebase-database/src/server_value.rs:47-72 | an increment in an array, or under an index, adds to the stored array's element there, through wrappers, and to zero past its end |
| `ServerValue.TimestampIsNow` | crates/firebase-database/src/server_value.rs:74-80 | a timestamp buried at any depth becomes the clock's reading |
| `ServerValue.StoredPlaceholders` | crates/firebase-database/src/backend.rs:229-235 | what is stored at a path: a timestamp in it is the clock, an increment in it adds to the number stored at its own place below that path |
| `ChildEvents.ChildrenMap` | crates/firebase-database/src/api.rs:1727-1743 | the children of a value are an object's members or an array's elements by index, after unwrapping |
| `ChildEvents.WhichChildren` | crates/firebase-database/src/api.rs:1727-1743 | the members of an object, the elements of an array under their indices in decimal, nothing for scalars, and the same through a wrapper |
| `ChildEvents.PreviousKey` | crates/firebase-database/src/api.rs:1745-1754 | the key right before the first occurrence of the given one, none for the first key and for a key that is not listed |
| `ChildEvents.EmitChildEvents` | crates/firebase-database/src/api.rs:1040-1102 | the three emission loops raise, in key order, the events of the difference of the two values |
| `ChildEvents.EventsPartitionDifference` | crates/firebase-database/src/api.rs:1040-1102 | Added is raised for exactly the keys that are new, Removed for those that are gone, Changed for those whose value differs, once each and in key order |
| `ChildEvents.EventsCarry` | crates/firebase-database/src/api.rs:1040-1102 | a removed child's event carries its old value and the key before it among the old keys, the other events the new value and the key before it among the new keys |
| `ChildEvents.ReplayGivesNewChildren` | crates/firebase-database/src/api.rs:1040-1102 | applying Removed, Changed and then Added events in emission order, each added child right after its previous name, turns the old sorted child list into exactly the new one, keys and values |
| `Backend.InMemoryBackend.Set` | crates/firebase-database/src/backend.rs:161-166 | stores the resolved value at the path; a bad placeholder changes nothing |
| `Backend.InMemoryBackend.Update` | crates/firebase-database/src/backend.rs:168-181 | stores path by path; the first bad placeholder stops it and what was written by then stays |
| `Backend.UpdateReads` | crates/firebase-database/src/backend.rs:168-181 | after an update of unrelated paths each path reads as its own value, resolved against what was stored there before the update |
| `Backend.UpdateFailsIff` | crates/firebase-database/src/backend.rs:168-181 | a multi-path update fails if and only if one of its values holds a malformed placeholder, whatever is stored |
| `Backend.FailureChangesNothingIff` | crates/firebase-database/src/backend.rs:174-179 | a failing update is sure to change nothing, whatever is stored, if and only if its first value is already malformed |
| `Backend.InMemoryBackend.Delete` | crates/firebase-database/src/backend.rs:183-187 | removes the subtree at the path |
| `Backend.InMemoryBackend.Get` | crates/firebase-database/src/backend.rs:189-192 | returns the subtree at the path, null when there is none |
| `Backend.InMemoryBackend.ReadForUpdate` | crates/firebase-database/src/backend.rs:194-199 | returns the value with its own tag |
| `Backend.InMemoryBackend.CompareAndSet` | crates/firebase-database/src/backend.rs:201-224 | writes the resolved value, removing for a null, only if the stored value still carries the expected tag; otherwise reports the current value and writes nothing |
| `DatabaseClient.Database.IsSynced` | crates/firebase-database/src/api.rs:573-583 | a path is synced exactly if some listener sits at it or above it |
| `DatabaseClient.Database.ApplyLocalWrite` | crates/firebase-database/src/api.rs:590-598 | the new mirror and everything each listener is told by one local write |
| `DatabaseClient.Database.Seed` | crates/firebase-database/src/api.rs:612-617 | the mirror takes over what the backend holds at the path |
| `DatabaseClient.Database.HandleRealtimeData` | crates/firebase-database/src/api.rs:705-735 | one data or merge frame: the new mirror and all notices, or an error that leaves everything as it was: a bad path, a merge that is no object, or a bad key in it |
| `DatabaseClient.MergeInto` | crates/firebase-database/src/api.rs:715-728 | all entries of a merge frame are written below its path, in key order, or the first bad key fails the frame |
| `DatabaseClient.Database.RegisterListener` | crates/firebase-database/src/api.rs:869-928 | seeding, nobody else told, the value at once for a value listener and nothing for changed and removed children; a listener that is refused, or whose seed cannot be read, leaves nothing but a used id |
| `DatabaseClient.Database.RemoveListener` | crates/firebase-database/src/api.rs:930-936 | the listener is gone and nothing else changes |
| `DatabaseClient.Database.RevokeListener` | crates/firebase-database/src/api.rs:737-799 | exactly the listeners at the revoked path are dropped, each told once: permission denied or an internal error, with the server's detail or a default |
| `DatabaseClient.Database.FailListeners` | crates/firebase-database/src/api.rs:809-825 | every listener is dropped and told the error once |
| `DatabaseClient.Database.DispatchListeners` | crates/firebase-database/src/api.rs:958-992 | each listener at, above or below the change hears of its own change, a value listener once and only if its value changed; every other inbox is untouched, in whatever order listeners are visited |
| `DatabaseClient.Database.Set` | crates/firebase-database/src/api.rs:1165-1168 | the whole state after a `set`: the resolved value reads back, mirror and backend show it, other reads are as before; it fails exactly on a malformed placeholder, and then changes nothing |
| `DatabaseClient.Database.Remove` | crates/firebase-database/src/api.rs:1371-1374 | the whole state after a `remove`: nothing is left at the path in mirror or backend, other reads are as before |
| `DatabaseClient.Database.Update` | crates/firebase-database/src/api.rs:1332-1356 | the whole state after a multi-path `update`, and which of its errors it reports, including a failure half-way; after one of unrelated keys each key below the base reads as its own value, resolved, and all other data as before |
| `DatabaseClient.ToOperations` | crates/firebase-database/src/api.rs:1337-1349 | one write for each entry, at the base followed by the entry's own key, with its value; or the error of the first key that is blank, does not parse or names the base itself |
| `DatabaseClient.Database.RunTransaction` | crates/firebase-database/src/api.rs:1283-1325 | the whole state after a transaction nobody interferes with, and what its caller gets: committed with the stored value, which then reads back, aborted with the value seen, or an error, and then nothing changes |
| `DatabaseClient.Database.Get` | crates/firebase-database/src/api.rs:1363-1368 | the mirror's value when the path is synced, the backend's otherwise |
| `LocalView.LocalWriteCoherent` | crates/firebase-database/src/api.rs:590-598 | after a local write or data frame the last snapshot of every value listener is the mirror's value at its path |
| `LocalView.MergedCoherent` | crates/firebase-database/src/api.rs:715-735 | the same after a merge frame, although it dispatches once, for the shared path |
| `LocalView.FrameCoherent` | crates/firebase-database/src/api.rs:705-735 | the same after any frame the client accepts |
| `LocalView.DataFrameShows` | crates/firebase-database/src/api.rs:705-735 | after a data frame the mirror has the frame's leaves at and below its path, whatever it held |
| `LocalView.MergeFrameShows` | crates/firebase-database/src/api.rs:715-728 | after a merge frame of unrelated keys it has each entry's leaves at and below the path followed by that entry's key |
| `LocalView.StepAgrees` | crates/firebase-database/src/api.rs:573-617 | below every path on which mirror and backend agree they go on agreeing through every operation, if only this client writes or a listener covers the path |
| `LocalView.StepAgreesIff` | crates/firebase-database/src/api.rs:573-617 | for operations of this client that condition is exact, path by path |
| `LocalView.StepInSync` | crates/firebase-database/src/api.rs:573-617 | every operation keeps the client in sync, unless it meets a scalar that a listener covers: listeners told the truth, mirror and backend equal below every listener |
| `LocalView.AttachInSyncIff` | crates/firebase-database/src/api.rs:612-617 | attaching keeps the client in sync if and only if no scalar that a listener covers sits strictly above the parent of the path |
| `LocalView.RemoveInSyncIff` | crates/firebase-database/src/api.rs:1371-1374 | so does removing |
| `LocalView.SetInSyncIff` | crates/firebase-database/src/api.rs:1165-1168 | setting does if and only if it stores no null directly under a scalar that a listener covers |
| `LocalView.TransactInSyncIff` | crates/firebase-database/src/api.rs:1283-1325 | a transaction that stores something does if and only if that is no null, or its path may be removed |
| `LocalView.UpdateInSyncIff` | crates/firebase-database/src/api.rs:1332-1356 | an update of several paths does if and only if it goes through and mends whatever it breaks where a listener covers it, or fails having changed nothing a listener covers |
| `LocalView.RemoteInSyncIff` | crates/firebase-database/src/api.rs:705-735 | another client's write does if and only if it is no null, or its path may be removed |
| `LocalView.MergeInSyncIff` | crates/firebase-database/src/api.rs:715-735 | another client's update of several paths does if and only if it mends whatever it breaks where a listener covers it |
| `LocalView.AlwaysInSyncIff` | crates/firebase-database/src/api.rs:573-617 | over a run the client is in sync throughout if and only if every single call met its condition |
| `LocalView.RunInSync` | crates/firebase-database/src/api.rs:573-617 | so does every such sequence of sets, updates, removals, transactions, attachments, detachments, and rivals' writes and multi-path updates |
| `LocalView.GetIsServerData` | crates/firebase-database/src/api.rs:1358-1368 | over every such run from the empty database, `get()` returns the server's data whether the mirror or the backend answers |
| `LocalView.ListenersHearTheServer` | crates/firebase-database/src/api.rs:958-992 | over every such run, the last snapshot each attached value listener received is what the server holds at its path |
| `LocalView.LocalRunAgrees` | crates/firebase-database/src/api.rs:590-598 | while only this client writes and its calls meet the condition for all scalars, mirror and backend hold the same data everywhere, listened to or not |
| `LocalView.AlwaysAgreeIff` | crates/firebase-database/src/api.rs:590-598 | and of all its runs without arrays and wrappers they do so throughout if and only if every single call met its condition |
| `LocalView.AttachBelowLeafGoesUnnoticed` | crates/firebase-database/src/api.rs:907-913 | a run from the empty database: attaching two levels below a scalar wipes it from the mirror without telling its listener, and `get()` then answers differently from the server |
| `LocalView.FailedUpdateDiverges` | crates/firebase-database/src/api.rs:1351-1354 | a run in which an update fails on its second path: the server then holds a number where `get()` and the path's listener go on saying null |
| `ChildRuns.ListenerHearsItsKind` | crates/firebase-database/src/api.rs:958-992 | over any run, a child listener that stays attached has been told exactly the events of its kind, in order |
| `ChildRuns.RunReplays` | crates/firebase-database/src/api.rs:1040-1102 | over every guarded run without silent seeds, the events raised at a path, applied to its old child list, give exactly its new child list, keys and values |
| `ChildRuns.RunReplaysIff` | crates/firebase-database/src/api.rs:1040-1102 | over every guarded run the events raised at a path replay to its children at every moment if and only if no attachment changed them silently |
| `ChildRuns.FirstEventsBuildTheList` | crates/firebase-database/src/api.rs:1005-1022 | the events a new listener for added children gets at once build the present child list from nothing |
| `ChildRuns.SeedFitsIff` | crates/firebase-database/src/api.rs:612-617 | attaching leaves the child list of another path alone if and only if the paths are unrelated, or the server's answer has the same children there, or the mirror holds the answer already |
| `ChildRuns.SilentSeed` | crates/firebase-database/src/api.rs:612-617 | a guarded run in which a listener for added children never hears of a child that is there |
| `Transactions.Serializable` | crates/firebase-database/src/api.rs:1283-1325 | if the tag tells apart the different values each client's path held in the run, every interleaving leaves the data that its log of commits and writes gives when done one at a time; a transaction is in the log once, storing what it reported, if it committed, and never otherwise |
| `Transactions.SightedIfTagsTell` | crates/firebase-database/src/backend.rs:201-224 | with such a tag no commit overwrites data its closure did not see: this is what the version check is for |
| `Transactions.SerialIffSighted` | crates/firebase-database/src/backend.rs:201-224 | a run is serial at every moment, for all closures that make it come out the way it did, if and only if no attempt commits while the data's tag equals that of data which looked different to its closure |
| `Transactions.ConflictsAreRealChanges` | crates/firebase-database/src/api.rs:1287-1324 | for every tag and interleaving: a running transaction has lost fewer than 25 races and one that gave up has lost 25, each paid for by somebody else's write that changed the value since it began |
| `Transactions.GivesUpAfter25Changes` | crates/firebase-database/src/api.rs:1287-1324 | in a run in which others change its value fewer than 25 times a transaction never gives up |
| `Transactions.GivesUpAfter25Races` | crates/firebase-database/src/api.rs:1287-1324 | a transaction that loses every race is still running after 24 and has given up after 25 |
| `Transactions.IncrementsAreNotLost` | crates/firebase-database/src/backend.rs:201-224 | with such a tag, any interleaving of increments of one number with writes elsewhere adds exactly the number of commits |
| `Transactions.CollisionLosesUpdate` | crates/firebase-database/src/backend.rs:201-224 | a run with a blind commit: two values with one tag let a transaction overwrite a change its closure never saw |
| `Transactions.Interfere` | crates/firebase-database/src/backend.rs:160-225 | rivals' backend calls are steps of the interleaving |
| `Transactions.PerformedReads` | crates/firebase-database/src/backend.rs:160-225 | what a reader finds after a rival's set, delete or update |
| `Transactions.RunTransaction` | crates/firebase-database/src/api.rs:1283-1325 | the retry loop, with rivals writing between every read and write, is an interleaving of the protocol. It gives up only after 25 changes of its value and 25 disturbed attempts; otherwise it reports the value it stored, which reads back, the value its closure turned down, or a bad placeholder. A closure that always answers well commits |
| `Transactions.TryOnce` | crates/firebase-database/src/api.rs:1289-1321 | one turn: the closure, the conditional write, and either an answer or a lost race and the value to go on from |
| `PushId.PushState.NextPushId` | crates/firebase-database/src/push_id.rs:23-67 | twenty characters: eight that decode to the time, twelve that decode to the counter, which is the random digits in a new millisecond and else one more than before, modulo 64^12 |
| `PushId.PushState.EncodeTime` | crates/firebase-database/src/push_id.rs:28-34 | the digit loop writes the eight base-64 digits of the time |
| `PushId.PushState.Carry` | crates/firebase-database/src/push_id.rs:42-53 | the carry loop computes the successor of the counter, in place |
| `PushId.SuccessorAddsOne` | crates/firebase-database/src/push_id.rs:42-53 | the successor adds one modulo 64^12 |
| `PushId.TimeReadsBack` | crates/firebase-database/src/push_id.rs:28-34 | an id has twenty characters, the first eight of which decode to its time |
| `PushId.EncodeKeepsOrder` | crates/firebase-database/src/push_id.rs:4 | the alphabet makes character order numeric order |
| `PushId.Alphabet` | crates/firebase-database/src/push_id.rs:4 | the 64 characters are minus, digits, capitals, underscore and small letters |
| `PushId.NextIdGreaterIff` | crates/firebase-database/src/push_id.rs:23-67 | with a clock that does not go back the next id is greater if and only if the counter does not overflow within the millisecond |
| `PushId.LaterIdsGreater` | crates/firebase-database/src/push_id.rs:23-67 | over any run without overflow every later id is greater |
| `Paths.NormalizePath` | crates/firebase-database/src/api.rs:1631-1644 | the loop over pieces parses the path, or fails on an empty segment |
| `Paths.RefusedIff` | crates/firebase-database/src/api.rs:1631-1644 | a path is refused if and only if two slashes meet in it once those at its ends are off |
| `Paths.PrintParseIff` | crates/firebase-database/src/api.rs:1453-1459 | parsing a printed path gives back its segments if and only if they are non-empty and slash-free |
| `Paths.JoinedIsStable` | crates/firebase-database/src/api.rs:1631-1644 | parsing the joined segments of a successful parse gives them back |
| `Paths.NormalizedIsValid` | crates/firebase-database/src/api.rs:1631-1644 | a successful parse yields only non-empty, slash-free segments |
| `Registration.SectionIsExclusive` | crates/firebase-installations/src/api.rs:278-331 | whatever is stored and however tasks interleave, at most one is inside the section, and the flag is up exactly while one is inside or after one failed to take the lock |
| `Registration.RegistrationAgrees` | crates/firebase-installations/src/api.rs:256-381 | from an empty store every interleaving makes at most one registration and one announcement, and every success, the stored entry and the announcement carry that one id |
| `Registration.AgreementIff` | crates/firebase-installations/src/api.rs:292-306 | all successes of all interleavings agree if and only if the store was empty at the start |
| `Registration.LoadRacesRegistration` | crates/firebase-installations/src/api.rs:292-306 | an interleaving over a stored id in which two tasks return different ids, the cache keeps one and the store the other |
| `Registration.CanSucceedIff` | crates/firebase-installations/src/api.rs:321-326 | whatever was stored, from every reachable state a new caller can still succeed if and only if an id is entered or about to be published, or nobody failed to take the registration lock |
| `Registration.AnnouncedSurvivesRestart` | crates/firebase-installations/src/api.rs:364-377 | an announced id is what a restarted process returns, without registering again |
| `Registration.FailedRead` | crates/firebase-installations/src/api.rs:292-299 | alone, a caller whose read of the store fails gets that error, the flag is down, and the next caller registers |
| `Registration.LockNotTaken` | crates/firebase-installations/src/api.rs:321-333 | alone, a lock held elsewhere sends the caller back with the flag down, an error while taking it leaves the flag up |
| `Registration.FailedRegistration` | crates/firebase-installations/src/api.rs:335-347 | alone, a failed registration is reported and leaves nothing behind |
| `Registration.FailedWrite` | crates/firebase-installations/src/api.rs:364-371 | alone, a failed write is reported although the id is entered |
| `Registration.FailedRelease` | crates/firebase-installations/src/api.rs:372-377 | alone, a failed release is reported although the id is stored, and the id is not announced |
| `Registration.Installations.EnsureEntry` | crates/firebase-installations/src/api.rs:256-381 | the loop, pausing for rivals after every block and await, extends the interleaving so far by one of the protocol, returns what its position says, and from an empty store returns the registered id |
| `Registration.Installations.Look` | crates/firebase-installations/src/api.rs:257-275 | one round: an entered id is returned, a raised flag waited for, else what a load or a registration ends with, or nothing if the task is to look again |
| `Registration.Installations.LoadEntry` | crates/firebase-installations/src/api.rs:277-290 | an entry or a raised flag sends the task back to look; else the store is read and the load ends as it was found, or with the id entered meanwhile |
| `Registration.Installations.ReadStore` | crates/firebase-installations/src/api.rs:290 | the load ends with what was stored now, or the read's failure, or the id entered meanwhile |
| `Registration.Installations.FinishLoad` | crates/firebase-installations/src/api.rs:292-299 | an entered id wins, then the read's error, then the stored id; without any the task looks again |
| `Registration.Installations.Publish` | crates/firebase-installations/src/api.rs:301-306 | a loaded id is published without looking again, and returned |
| `Registration.Installations.RegisterEntry` | crates/firebase-installations/src/api.rs:309-319 | an entry or a raised flag sends the task back to look, and so does a lock that is not granted; a failed lock ends it, a granted one registers |
| `Registration.Installations.AcquireLock` | crates/firebase-installations/src/api.rs:321-333 | a refused lock sends the task back to look, a failed one leaves the flag up and is the only way to that error, a granted one registers |
| `Registration.Installations.RegisterRemotely` | crates/firebase-installations/src/api.rs:335 | the remote call's id, or its failure, decides the registration unless an id was entered meanwhile |
| `Registration.Installations.FinishRegistration` | crates/firebase-installations/src/api.rs:337-362 | an entered id wins over the fresh one and over the call's error; else the error, or the fresh id as far as writing and releasing go well |
| `Registration.Installations.PersistEntry` | crates/firebase-installations/src/api.rs:364-377 | writing, releasing and announcing, with the error of the step that fails |
| `Registration.Installations.Announce` | crates/firebase-installations/src/api.rs:372-377 | the id is announced and returned only if the release succeeds |
| `Refresher.Refresher.NextWait` | crates/firebase-app-check/src/refresher.rs:35-50 | the wait and the next failure wait after a success and after a failure |
| `Refresher.Refresher.RunLoop` | crates/firebase-app-check/src/refresher.rs:113-146 | every wait of a run is the success wait or the back-off for the current streak of failures, and the number of operations begun is that of the script |
| `Refresher.WaitsAfter` | crates/firebase-app-check/src/refresher.rs:35-50 | the first turn, and any turn after a success, waits as it is told; after one failure the wait is the lower bound, after each further one in a row twice the last in whole milliseconds, up to the upper bound |
| `Refresher.Refresher.Start` | crates/firebase-app-check/src/refresher.rs:81-98 | spawns exactly if not running, with the wait reset and no cancellation pending |
| `Refresher.Refresher.Stop` | crates/firebase-app-check/src/refresher.rs:100-103 | requests cancellation |
| `Refresher.ClosedFormIff` | crates/firebase-app-check/src/refresher.rs:35-50 | the j-th failure wait is min(lower * 2^j, upper) for all j if and only if the bounds lose nothing to whole milliseconds and 64 bits, both written out in nanoseconds |
| `Refresher.NeverBelowLowerIff` | crates/firebase-app-check/src/refresher.rs:42-47 | while the upper bound fits in 64 bits of milliseconds, no failure wait is below the lower bound if and only if that bound is zero, or at least a millisecond and within the whole milliseconds of the upper one |
| `Refresher.StopEndsTheRun` | crates/firebase-app-check/src/refresher.rs:100-128 | after a stop no operation begins, or one if the stop fell after the last check; none begins after a fatal failure |
| `Refresher.RunsUntilStopped` | crates/firebase-app-check/src/refresher.rs:113-142 | without stops and fatal failures every turn begins an operation |
| `CallableStream.CallableStream.ProcessLine` | crates/firebase-functions/src/api.rs:294-325 | what one trimmed line does to the result and the finished flag, and whether it yields a message or an error |
| `CallableStream.CallableStream.NextMessage` | crates/firebase-functions/src/api.rs:238-274 | what is delivered and what is left depend on the unread text alone, not on how it is cut into chunks; the end and a server's error finish the stream |
| `CallableStream.CallableStream.DrainLines` | crates/firebase-functions/src/api.rs:242-249 | draining buffered lines stops at the first message or error and otherwise leaves no complete line |
| `CallableStream.CallableStream.FinishBody` | crates/firebase-functions/src/api.rs:261-271 | the unterminated last line of a complete body is read once |
| `CallableStream.CallableStream.Result` | crates/firebase-functions/src/api.rs:287-292 | all messages and the final result of a stream are those of a one-shot parse of its whole text, for every chunking |
| `CallableStream.SessionIsDigest` | crates/firebase-functions/src/api.rs:238-274 | pulling message by message to the end reads what one pass over all lines reads |
| `StreamMeaning.StreamSays` | crates/firebase-functions/src/api.rs:238-325 | a body of messages, answers, other JSON, comments and blank lines, padded or not, its last line with or without a newline, reads as the messages in order and the last answer, decoded; if it breaks off, as what its complete lines say and an interruption |
| `StreamMeaning.StreamFails` | crates/firebase-functions/src/api.rs:294-325 | the first line with an error, or with data that is no JSON, ends it with that error after the messages before it, whatever follows |
| `StreamMeaning.UsualStream` | crates/firebase-functions/src/api.rs:287-292 | messages, each on its line, and a result read as exactly these messages and the decoded result |
| `FirestoreOrder.CompareValues` | crates/firebase-firestore/src/query_evaluator.rs:179-229 | the recursive comparison with its zip loops never fails to compare and computes `Compared` |
| `ValueOrder.ComparedIsTheOrder` | crates/firebase-firestore/src/query_evaluator.rs:151-229 | which order it is: kinds from null to sentinel; false before true; NaN before all numbers; instants, text, bytes and reference segments in dictionary order; arrays and maps by the first position that differs, else the shorter first |
| `ValueOrder.IntegerAsDouble` | crates/firebase-firestore/src/query_evaluator.rs:192-193 | an integer stands among doubles at its nearest 53-bit double, ties to even, and at itself up to 2^53 |
| `ValueOrder.InstantsInTime` | crates/firebase-firestore/src/query_evaluator.rs:194 | instants compare chronologically |
| `FirestoreOrder.ComparedReverses` | crates/firebase-firestore/src/query_evaluator.rs:179-229 | swapping the operands reverses the comparison, for all values |
| `FirestoreOrder.ComparedToItself` | crates/firebase-firestore/src/query_evaluator.rs:165-176 | every value compares equal to itself, NaN included |
| `FirestoreOrder.ComparedChains` | crates/firebase-firestore/src/query_evaluator.rs:179-229 | the comparison is transitive through arrays, maps and mixed numbers while integers stay within 2^53 |
| `FirestoreOrder.TransitiveIff` | crates/firebase-firestore/src/query_evaluator.rs:190-193 | it is transitive on all values with integers up to a bound if and only if the bound is at most 2^53 |
| `QueryEvaluator.CompareSnapshots` | crates/firebase-firestore/src/query_evaluator.rs:135-149 | the loop with early return compares two documents field by field with directions, missing fields as null |
| `QueryEvaluator.CompareSnapshotToBound` | crates/firebase-firestore/src/query_evaluator.rs:257-276 | the same against a cursor, which may stop short of the last field |
| `QueryMeaning.DocumentsInOrder` | crates/firebase-firestore/src/query_evaluator.rs:135-149 | documents are ordered by the first column that tells them apart, ascending or descending as it says, a missing field as null |
| `QueryMeaning.CursorsInOrder` | crates/firebase-firestore/src/query_evaluator.rs:239-276 | starting at a cursor keeps what does not come before it, starting after it what comes after it, and likewise for the end |
| `QueryMeaning.InequalityInOrder` | crates/firebase-firestore/src/query_evaluator.rs:82-92 | an inequality filter compares the field's value with the operand in the order of values |
| `QueryMeaning.InequalityIsACursor` | crates/firebase-firestore/src/query_evaluator.rs:82-92 | of the documents that have the field it selects what the cursor at its operand selects |
| `QueryMeaning.InequalityIsACursorBackwards` | crates/firebase-firestore/src/query_evaluator.rs:82-92 | in descending order the same filters are the opposite cursors |
| `QueryMeaning.MissingFieldPasses` | crates/firebase-firestore/src/query_evaluator.rs:60-67 | a document without the field passes `!=` for any operand but null, and nothing else |
| `QueryMeaning.MembershipByPosition` | crates/firebase-firestore/src/query_evaluator.rs:93-111 | the four membership operators, by positions in the field's array and the operand's; `not-in` asks besides for a value that is not null |
| `QueryMeaning.CompositesSelect` | crates/firebase-firestore/src/query_evaluator.rs:68-79 | a missing document is never selected; a conjunction selects what all its parts select, a disjunction what any part does |
| `QueryMeaning.FieldLeads` | crates/firebase-firestore/src/query_evaluator.rs:114-133 | a field path leads from map to map; the id field is the document's path joined by slashes |
| `QueryEvaluator.TestDocument` | crates/firebase-firestore/src/query_evaluator.rs:239-255 | which documents the filters, the start test and the end test keep |
| `QueryEvaluator.Retain` | crates/firebase-firestore/src/query_evaluator.rs:28-34 | keeps exactly the documents that pass, in order |
| `QueryEvaluator.StableSort` | crates/firebase-firestore/src/query_evaluator.rs:26 | the sort is the stable one of `QueryLaws.SortIsStable` |
| `QueryEvaluator.ApplyQuery` | crates/firebase-firestore/src/query_evaluator.rs:16-54 | filter, sort, cursors and limit, in this order |
| `QueryEvaluator.CursorValuesFromSnapshot` | crates/firebase-firestore/src/api/query.rs:374-404 | one cursor value per ordering, the field's own value; an error exactly for a document that is not there or a field it lacks |
| `QueryEvaluator.ReferenceNamesTheDocument` | crates/firebase-firestore/src/api/query.rs:382-388 | the id's cursor value is a reference whose segments name project, database and the document's path |
| `QueryOrder.NormalizedOrderBy` | crates/firebase-firestore/src/api/query.rs:544-570 | explicit clauses first, then each inequality field not ordered yet once and by canonical name, then the document id unless ordered already; all that is added takes the last direction, and every field compared by an inequality is ordered by |
| `QueryOrder.WhichInequalityFields` | crates/firebase-firestore/src/api/query.rs:646-656 | the inequality fields are those compared by one of six operators anywhere in the filters, in composites of any depth |
| `QueryOrder.CanonicalIsInjective` | crates/firebase-firestore/src/model/field_path.rs:56-89 | the wire form tells all field paths apart, whatever characters their segments have |
| `QueryOrder.SegmentForm` | crates/firebase-firestore/src/model/field_path.rs:56-89 | letters, digits and underscores that start with no digit are written as they are, other segments in backticks |
| `QueryLaws.DocumentsAreOrdered` | crates/firebase-firestore/src/query_evaluator.rs:135-149 | comparing documents is a total preorder for every order-by list and mix of directions |
| `QueryLaws.EqualIffTied` | crates/firebase-firestore/src/query_evaluator.rs:80-85 | a value passes an equality filter if and only if it ties with the operand in the order, holds no NaN and, at any depth, no integer faces a double and no sentinel a different one |
| `QueryLaws.SortIsStable` | crates/firebase-firestore/src/query_evaluator.rs:26 | sorting loses and adds nothing, puts the documents in order, and keeps the input order of ties |
| `QueryLaws.CandidatesAscend` | crates/firebase-firestore/src/query_evaluator.rs:20-26 | with distinct keys and an order-by list naming the document id, the candidates are the selected documents, each once, strictly ascending |
| `QueryLaws.AnswerIsWhatPasses` | crates/firebase-firestore/src/query_evaluator.rs:16-54 | without a limit the answer is the documents that pass the filters and both cursors |
| `QueryLaws.InputOrderIsIrrelevant` | crates/firebase-firestore/src/query_evaluator.rs:16-54 | the result is the same for every order of the input documents |
| `QueryLaws.CursorCutsInTwo` | crates/firebase-firestore/src/query_evaluator.rs:239-255 | what ends before a cursor followed by what starts at it is the whole sorted list, and likewise end-at with start-after: one test drops a prefix, the other a suffix |
| `QueryLaws.WindowIsContiguous` | crates/firebase-firestore/src/query_evaluator.rs:28-34 | start and end cursor together select a contiguous stretch of the candidates |
| `QueryLaws.LimitToLastIsMirrored` | crates/firebase-firestore/src/query_evaluator.rs:36-51 | limiting to the last results is the reverse of limiting to the first ones with directions flipped and cursors swapped |
| `QueryLaws.ServerAnswerIsInOrder` | crates/firebase-firestore/src/api/document.rs:484-491 | a limit-to-last answer to the request form, reversed on delivery, is in the query's own order |
| `QueryLaws.LocalAnswerInOrderIff` | crates/firebase-firestore/src/api/document.rs:484-491 | an answer of the in-memory store is delivered in order if and only if the query is not limit-to-last or has at most one result |
| `QueryLaws.PlainQueryInOrderIff` | crates/firebase-firestore/src/api/document.rs:484-491 | a query without filters and cursors gets its answers in order, whatever is stored, if and only if it is not limit-to-last or its limit is at most one |
| `QueryLaws.PagesRebuildTheResult` | crates/firebase-firestore/src/api/query.rs:444-446 | fetching pages of n, each after the last document of the one before by its ordering values, loses and repeats nothing: non-empty pages, as few as possible, that concatenate to the unlimited result |
| `QueryLaws.StartAfterDocumentIff` | crates/firebase-firestore/src/api/query.rs:353-358 | starting after a document yields exactly the rest of the candidates if and only if ids ascend and no later document ties with it on the other fields |

## Left out

- REST, HTTP, WebSocket, gRPC, browser and credential code, logging and app lifecycle are input and output.
- The `realtime` module, Firestore listeners and the watch aggregator are not part of this model.
- Query listeners of the Realtime Database read their window from the server again and have no mirror.
- LocalView.RunInSync: excludes arrays and `.value` wrappers, whose reads and writes do not fit together
  (`TreeLaws.UnrelatedReadIff`), and calls outside their guards, after which mirror and server differ
  (`LocalView.AlwaysInSyncIff`).
- LocalView.StepAgrees: the same exclusions, step by step.
- LocalView.StepInSync: the same exclusions, step by step.
- LocalView.LocalRunAgrees: the same exclusions, for guards that count all scalars (`LocalView.AlwaysAgreeIff`).
- LocalView.GetIsServerData: the same exclusions.
- LocalView.AlwaysInSyncIff: excludes arrays and `.value` wrappers in what is written, and merges with paths
  outside their base.
- LocalView.RemoteInSyncIff: a rival's write reaches the client as one frame at the written path if a listener's
  path is related to it. Where the only listener sits strictly below that path, a server would send the frame at
  the listener's path instead.
- LocalView.LocalWriteCoherent: excludes arrays and `.value` wrappers in mirror, path and value.
- LocalView.MergedCoherent: excludes arrays and `.value` wrappers in mirror, paths and values.
- LocalView.FrameCoherent: excludes arrays and `.value` wrappers in mirror, paths and data.
- ChildRuns.RunReplays: excludes what `LocalView.RunInSync` excludes, and seeds that change the child list, after
  which a run does not replay (`ChildRuns.RunReplaysIff`); the order in which the three kinds of events of one
  dispatch are applied is that of the replay.
- TreeLaws.UnrelatedReadIff: excludes write paths with a `.value` segment, which readers look through.
- LocalView.ListenersHearTheServer: equal leaves, so a null and an empty object are the same news.
- DatabaseClient.Database.HandleRealtimeData: atomic, while the code takes the mirror's lock twice and lets
  another frame in between.
- DatabaseClient.Database.RegisterListener: atomic, without frames that arrive while the server is asked;
  going online and offline and the detached unlisten are not modelled.
- DatabaseClient.Database.DispatchListeners: the order among different listeners is left open, as the code
  leaves it to the iteration of a hash map.
- DatabaseClient.Database.Update: the entries come as a sequence in the order the code's map yields them.
- Transactions.Serializable: unconditional writes of a REST backend that got no tag are not modelled.
- ServerValue.IncrementAddsAtDepth: no array on the way and none in the stored data. Numbers are exact reals, so
  neither double rounding nor the distinction between integer and float JSON numbers shows. One clock reading
  serves a whole operation.
- ServerValue.FailsIffMalformed: over exact numbers, so an increment whose sum is no finite double does not fail
  here.
- Json numbers compare by value, so a write that only turns 1 into 1.0 raises no event here.
- PushId.LaterIdsGreater: the overflow of the counter within a millisecond is excluded; it sends the counter
  back to zero.
- Registration.RegistrationAgrees: one process without `delete` or `forget`; tokens are not modelled, a failed
  write leaves the store as it was, and no fairness is assumed, so waiting may go on for ever.
- Registration.Installations.EnsureEntry: gives up after a bounded number of looks, which the code never does.
- Registration.Installations.FinishRegistration: gives the registration lock back as a step of its own, so more
  interleavings are covered than the code has, which does it under the state lock when an entry is there.
- Refresher.Refresher.RunLoop: one loop; a start right after a stop can leave two loops of the code running.
- Refresher.NeverBelowLowerIff: upper bounds of 2^64 milliseconds and more are excluded.
- CallableStream.CallableStream.Result: chunks end at character boundaries, and JSON parsing and decoding are
  parameters.
- FirestoreOrder.ComparedChains: the two zeros are one double.
- QueryEvaluator.StableSort: an insertion sort stands for the library's stable sort, which leaves its result open
  where the comparison is not a total order.
- QueryLaws.PagesRebuildTheResult: documents with distinct keys whose ordering values and cursors hold no
  integer beyond 2^53, and an order-by list naming the document id, as `QueryOrder.NormalizedOrderBy` always makes it.
- QueryLaws.DocumentsAreOrdered: integers beyond 2^53 are excluded, where the order is no order
  (`FirestoreOrder.TransitiveIff`); so they are wherever documents are sorted, cut or paged.
- QueryLaws.SortIsStable: the same exclusion.
- QueryLaws.CandidatesAscend: the same exclusion, and distinct keys and an order-by list naming the id.
- QueryLaws.InputOrderIsIrrelevant: the assumptions of `QueryLaws.CandidatesAscend`.
- QueryLaws.CursorCutsInTwo: integers beyond 2^53 are excluded in documents and cursor.
- QueryLaws.WindowIsContiguous: the assumptions of `QueryLaws.CandidatesAscend`, and exact cursors.
- QueryLaws.LimitToLastIsMirrored: the assumptions of `QueryLaws.CandidatesAscend`.
- QueryLaws.ServerAnswerIsInOrder: the assumptions of `QueryLaws.CandidatesAscend`.
- QueryLaws.LocalAnswerInOrderIff: the assumptions of `QueryLaws.CandidatesAscend`.
- QueryLaws.StartAfterDocumentIff: the id is the last ordering, as it is unless an explicit clause names it.
- Query building and validation, projections, aggregates and document changes are not modelled.
- AI, analytics, messaging, performance, auth and storage crates, error tables and builders are not modelled.
