# py-aleph in Dafny

A model of the parts of a py-aleph node whose correctness rests on invariants, with proofs over every input, every
reachable state and every run.

**Interval algebra and indexer synchronisation.** `Ranges` and `MultiRanges` hold ranges with open and closed ends and
the canonical lists of them. `SyncRows` is their persisted form, `IndexerPages` the paging protocol as a state machine,
and `IndexerReader` the reader object over its tables. An instant is an integer. The indexer is a finite log in time
order for each stream; it answers with the earliest `limit` events of a closed interval.

**Messages, FORGET and the derived tables.** `Records` holds the shared records. `Lifecycle`, `Posts`, `Aggregates`,
`Files`, `Vms` and `Balances` hold the tables, their operations as functions on values, and what one operation keeps.
`Node` puts them together: one step is one committed transaction. `NodeInvariant`, `NodeForget` and `NodeSteps` prove
that every step keeps the invariant, and `NodeRuns` proves safety over whole runs. `NodeOrigins` traces the fields of
every row back to submissions and fetched bodies and says exactly what a FORGET takes, `NodeAdmission` says exactly when
a message is accepted, and `RunIndexes` compares every index with a plain recomputation from the live messages. `ForgetRun` and `ClashRun` exhibit runs: one forgets a
message, the other makes collections fail. `MessageStores`, `AggregateStores`, `FileStores`, `Posts.PostStore` and
`Handler` are the same operations as objects that change tables in place; each method is proved to compute the function
of the model, rollback included.

**The NULS codec.** `Radix` holds positional notation, `Base58` the encoding and the addresses, `NulsFraming` the
variable-length integers, length-prefixed fields and the signature record. Base58 follows sections 3 and 4 of
draft-msporny-base58.

What comes from outside is a parameter: the result of signature check and fetch, the checks on balances and sizes, the
clock, and whether retries are used up (`Node.Outcome`); the row a query without a decisive order returns
(`Records.RowChoice`); the indexer's history and its account state.

Where the code and its documentation or names suggest different things, the model follows the code:

- `Range.__add__` always returns a range closed below and open above, and `__sub__` can lose a closed upper bound; the
  laws name exactly the instant concerned.
- A live message can have the status REJECTED: one copy is rejected, then another is processed
  (`Lifecycle.RejectedThenProcessed`). `NodeRuns.ProcessedIff` says exactly when it is PROCESSED. A live message that is
  not, and is no amend, can never be forgotten (`NodeRuns.UnprocessedStays`); an amend still goes with its post.
- The conflict test of an aggregate update compares names with bound methods and never finds a conflict, so an element
  between the first and the last revision is appended. `Aggregates.ArrivalContentIff` and `Aggregates.ArrivalRevisionIff`
  say exactly when content and last revision are right.
- Refreshing a tag compares it with the raw reference of a pin, while a named reference is tagged `<owner>/<name>`. A
  name that equals the tag of another STORE can leave a tag on a file without a pin. The database refuses to delete that
  file, so every later collection fails and leaves files without a pin behind (`ClashRun.CollectionFails`).
- A file that still has a grace pin when it is forgotten again gets no new one, and is collected at the old deadline
  (`Files.OlderGraceCutsShort`).
- Paging ends exactly when fewer than `limit` events share a timestamp on the way, and an event on the open upper bound of
  a range stored earlier can be missed (`IndexerPages.AnEventCanBeMissed`). `IndexerReader.MissedIff` and
  `IndexerReader.RefetchedIff` say exactly when.
- An amend that names its post by an on-chain reference cannot be forgotten by name, because its original is looked up
  under the wrong key; it goes when its post is forgotten (`Posts.ChainAmendGoesWithPost`).
- The merged view can show an amend older than its post, once a later amend is forgotten (`Posts.OlderAmendSurfaces`).

## Model

| member | source | states |
|---|---|---|
| `Ranges.MakeRange` | src/aleph/toolkit/range.py:19-35 | a range is refused exactly when its bounds are reversed, and otherwise denotes the instants its bounds and end flags say |
| `Ranges.StrictlyLeftIff` | src/aleph/toolkit/range.py:62-66 | a range is strictly left of another if and only if no instant is at most the end of the one and at least the start of the other, but for a common bound that both leave out |
| `Ranges.OverlapsIsHullsMeet` | src/aleph/toolkit/range.py:135-155 | between ranges closed below, overlapping is meeting of the closed hulls, hence symmetric |
| `Ranges.OverlapsSymmetricIff` | src/aleph/toolkit/range.py:135-155 | overlapping is symmetric if and only if the ranges do not both start open at one instant, or both reach past it or neither |
| `Ranges.OverlapsNotSymmetric` | src/aleph/toolkit/range.py:135-155 | an input where it is not symmetric |
| `Ranges.SubExact` | src/aleph/toolkit/range.py:106-133 | the difference with a non-empty range closed below is exact but for one named instant |
| `Ranges.SubAddsIff` | src/aleph/toolkit/range.py:106-133 | a subtraction adds an instant if and only if it takes the empty range closed below at the minuend's open lower bound |
| `Ranges.SubOfEmptyAddsAnInstant` | src/aleph/toolkit/range.py:106-133 | an input where it adds one |
| `MultiRanges.InsertCanonical` | src/aleph/toolkit/range.py:201-214 | adding a range closed below keeps the list sorted, separated and closed below |
| `MultiRanges.InsertHull` | src/aleph/toolkit/range.py:201-214 | the closed hull after adding is exactly the union of the closed hulls |
| `MultiRanges.InsertCovers` | src/aleph/toolkit/range.py:80-93 | the result covers the union except, if and only if something merged, the upper bound of the merged group |
| `MultiRanges.RebuildIsIdentity` | src/aleph/db/accessors/chains.py:74-106 | adding the ranges of a canonical list one by one gives the list back |
| `MultiRanges.CanonicalIsUnique` | src/aleph/toolkit/range.py:201-214 | a set of instants has at most one canonical list of non-empty half-open ranges |
| `MultiRanges.OrderIndependence` | src/aleph/toolkit/range.py:201-214 | adding non-empty half-open ranges in any order gives the same list, which denotes their union |
| `MultiRanges.SortByLowerSorts` | src/aleph/toolkit/range.py:165-166 | the constructor's list is sorted by lower bound |
| `MultiRanges.DifferenceExact` | src/aleph/toolkit/range.py:223-230 | for a canonical subtrahend of non-empty ranges, an instant is in the difference if and only if it is in a range of the minuend, in none of the subtrahend, and not on a lost upper bound |
| `MultiRanges.DifferenceMeaning` | src/aleph/toolkit/range.py:95-133 | for any subtrahend of non-empty ranges closed below, every instant of the difference is in the minuend and not in the subtrahend; a lost one is a closed upper bound that meets an open one |
| `MultiRanges.DifferenceLosesAnInstant` | src/aleph/toolkit/range.py:106-133 | such an instant can be lost (counterexample) |
| `MultiRanges.PiecesInside` | src/aleph/toolkit/range.py:223-230 | every piece of the difference lies inside a range of the minuend |
| `MultiRanges.DifferenceKeepsOutside` | src/aleph/toolkit/range.py:223-230 | instants of the minuend outside every closed hull of the subtrahend stay |
| `MultiRanges.BoundLeftIff` | src/aleph/toolkit/range.py:106-133 | an open upper bound of the subtrahend is left if and only if a closed range of the minuend holds it, and reaches past it or starts inside the subtrahend's range |
| `MultiRanges.RemoveMultirange` | src/aleph/toolkit/range.py:95-104 | the loop computes the pieces left of one range |
| `MultiRanges.MultiRange.constructor` | src/aleph/toolkit/range.py:165-166 | the object holds its ranges sorted by lower bound |
| `MultiRanges.MultiRange.AddRange` | src/aleph/toolkit/range.py:201-214 | the loop over left, merged and right ranges computes the insertion |
| `MultiRanges.MultiRange.Subtract` | src/aleph/toolkit/range.py:223-230 | the loop computes the difference of the two lists and changes neither operand |
| `SyncRows.RewriteThenRead` | src/aleph/db/accessors/chains.py:121-146 | writing a canonical list to rows and reading it back is the identity, with one row a range |
| `SyncRows.RewriteFrame` | src/aleph/db/accessors/chains.py:121-146 | rewriting one stream leaves the rows of every other stream |
| `SyncRows.SyncedIsStored` | src/aleph/db/accessors/chains.py:74-106 | on canonical rows, the multirange rebuilt by adding is the list of rows in order |
| `SyncRows.WithRangeStores` | src/aleph/db/accessors/chains.py:149-160 | adding a range keeps every stream canonical and stores the insertion |
| `IndexerPages.VisibleWindow` | src/aleph/chains/indexer_reader.py:258-300 | inside a processed range the indexer's answer is that of the full history |
| `IndexerPages.PageIsComplete` | src/aleph/chains/indexer_reader.py:269-346 | a page holds every event of the range it lets the node store |
| `IndexerPages.PageProgress` | src/aleph/chains/indexer_reader.py:269-346 | when fewer than `limit` events share a timestamp, the events left strictly decrease from page to page |
| `IndexerPages.PagingEndsIff` | src/aleph/chains/indexer_reader.py:269-346 | paging ends if and only if fewer than `limit` events share any timestamp it has to pass |
| `IndexerPages.AfterPageSafe` | src/aleph/chains/indexer_reader.py:300-346 | one page keeps every event of a stored range recorded |
| `IndexerPages.RunIsSafe` | src/aleph/chains/indexer_reader.py:266-346 | over every run of legal pages, every event whose timestamp lies in a stored range has its transaction recorded |
| `IndexerPages.AfterPageHull` | src/aleph/chains/indexer_reader.py:300-346 | a page extends the closed hull of the stored ranges by exactly its own interval |
| `IndexerPages.AfterPageRecords` | src/aleph/chains/indexer_reader.py:300-346 | a page records every event before the next start, a last page every event of the interval |
| `IndexerPages.AfterPageQueues` | src/aleph/chains/indexer_reader.py:300-346 | every transaction of a page is queued for processing, with nothing but transactions of the page, and what a page records anew is queued |
| `IndexerPages.RunQueues` | src/aleph/chains/indexer_reader.py:266-346 | over every run of legal pages each transaction recorded on the way is queued for processing, and nothing leaves the queue |
| `IndexerPages.AnEventCanBeMissed` | src/aleph/chains/indexer_reader.py:258-395 | an event on the open upper bound of a range stored by an interrupted round stays unrecorded (counterexample) |
| `IndexerReader.ToRanges` | src/aleph/chains/indexer_reader.py:368-395 | the processed intervals become ranges closed at both ends, or an error exactly when one is reversed |
| `IndexerReader.Reader.constructor` | src/aleph/chains/indexer_reader.py:246-256 | the empty tables are safe |
| `IndexerReader.Reader.OrderedStarts` | src/aleph/db/accessors/chains.py:74-106 | the row starts of a stream in ascending order |
| `IndexerReader.Reader.GetIndexerMultirange` | src/aleph/db/accessors/chains.py:74-106 | the loop of `+=` rebuilds the multirange of the rows |
| `IndexerReader.Reader.UpdateIndexerMultirange` | src/aleph/db/accessors/chains.py:121-146 | the rows of the stream become those of the multirange, and the write fails only on two equal starts |
| `IndexerReader.Reader.AddIndexerRange` | src/aleph/db/accessors/chains.py:149-160 | on canonical rows it always succeeds and stores the insertion |
| `IndexerReader.Reader.AddPendingTxs` | src/aleph/chains/indexer_reader.py:300-320 | every transaction of the page is recorded, one that is there already unchanged |
| `IndexerReader.Reader.FetchPage` | src/aleph/chains/indexer_reader.py:269-346 | one turn of the paging loop is one page of the protocol and keeps every stored range complete |
| `IndexerReader.Reader.FetchRange` | src/aleph/chains/indexer_reader.py:258-346 | it finishes exactly when the source's loop ends within the pages given; then the whole closed interval is stored, and exactly its events are recorded besides those that were |
| `IndexerReader.Reader.GetMissingMultirange` | src/aleph/db/accessors/chains.py:109-118 | what is missing is the difference of the processed and the stored ranges, inside the processed ones |
| `IndexerReader.Reader.FetchPieces` | src/aleph/chains/indexer_reader.py:385-395 | every missing piece is fetched in turn, and exactly the events in their closed hulls are recorded; all finish when no timestamp fills a page |
| `IndexerReader.Reader.FetchNewEvents` | src/aleph/chains/indexer_reader.py:348-395 | after a finished round every instant of the processed ranges is in a stored range or is the upper bound of one, and the recorded transactions are exactly the old ones and those of events in the closed hull of a missing range |
| `IndexerReader.RoundCompletes` | src/aleph/chains/indexer_reader.py:368-395 | fetching the pieces of the difference completes the processed ranges, with exactly those events recorded |
| `IndexerReader.MissedIff` | src/aleph/chains/indexer_reader.py:368-395 | after a finished round an event is missing if and only if its transaction was and no event with it lies in the closed hull of a missing range |
| `IndexerReader.RefetchedIff` | src/aleph/chains/indexer_reader.py:368-395 | an open upper bound of a stored range is fetched again if and only if a processed range holds it, and reaches past it or starts inside the stored range |
| `Records.ItemHashByLength` | src/aleph/utils.py:19-28 | which strings are item hashes, by length and prefix |
| `Lifecycle.SubmittedConsistent` | src/aleph/handlers/message_handler.py:233-262 | a submission keeps the tables consistent and touches no processed or forgotten message |
| `Lifecycle.SubmittedMeans` | src/aleph/handlers/message_handler.py:233-262 | a submission adds its row unless a copy with the same sender, hash and signature waits already, makes an unknown or rejected hash pending, and changes no other status, row or table |
| `Lifecycle.RefusedMeans` | src/aleph/db/accessors/messages.py:515-562 | a refused message is recorded as rejected exactly when its hash is unknown or rejected already |
| `Lifecycle.InvalidIff` | src/aleph/types/message_status.py:59-330 | which errors reject a message at once and which are tried again |
| `Lifecycle.RejectedExistingConsistent` | src/aleph/db/accessors/messages.py:565-602 | rejecting a pending copy keeps the tables consistent |
| `Lifecycle.ErrorHandledConsistent` | src/aleph/jobs/job_utils.py:196-283 | whatever the error and the retries, handling it keeps the tables consistent, touches no message, and leaves each live one processed or not as it was; what it does to the row, the status and the error is `Lifecycle.ErrorMeans` |
| `Lifecycle.ErrorMeans` | src/aleph/jobs/job_utils.py:196-283 | the row of a failed attempt goes if and only if the error is final or the retries are used up; the hash is then rejected with that error unless a copy was processed or forgotten; a row that stays changes only on missing content; nothing else changes |
| `Lifecycle.MessageInsertedConsistent` | src/aleph/handlers/message_handler.py:334-368 | inserting a message never seen before keeps the tables consistent and every other status, and makes it PROCESSED if and only if it was PENDING |
| `Lifecycle.MovedConsistent` | src/aleph/db/accessors/messages.py:353-402 | moving live messages to the forgotten ones keeps the tables consistent and loses no hash |
| `Lifecycle.ForgottenRowMeans` | src/aleph/db/accessors/messages.py:353-402 | the forgotten row keeps kind, sender and signature, and its list starts with the FORGET |
| `Lifecycle.ForgottenAgainConsistent` | src/aleph/db/accessors/messages.py:405-417 | a further FORGET of a forgotten message adds itself at the end of its list of FORGETs and changes nothing else |
| `Lifecycle.RejectedThenProcessed` | src/aleph/handlers/message_handler.py:354-361 | a live message can have the status REJECTED (counterexample) |
| `Posts.InsertedOk` | src/aleph/handlers/content/post.py:105-140 | a new post or amend of any date keeps every latest amend the newest one, ties included |
| `Posts.RefreshedLatest` | src/aleph/db/accessors/posts.py:168-192 | a refresh points at a newest amend, or at none when there is none |
| `Posts.ForgottenOk` | src/aleph/handlers/content/post.py:147-164 | forgetting a post with its amends, or an amend, keeps the index |
| `Posts.ForgottenOkIff` | src/aleph/handlers/content/post.py:147-164 | forgetting a post by name fails if and only if it is an amend with an on-chain reference |
| `Posts.ChainAmendGoesWithPost` | src/aleph/handlers/content/post.py:147-164 | an input where it fails, and forgetting the post takes that amend along |
| `Posts.MergedViewMeans` | src/aleph/db/accessors/posts.py:77-102 | the merged view is the latest amend, a newest one, or the post itself when none is indexed |
| `Posts.ShowsNewestIff` | src/aleph/db/accessors/posts.py:77-102 | the merged view is a newest version if and only if no amend is indexed or some amend is as new as the post |
| `Posts.IndexedIffAmended` | src/aleph/db/accessors/posts.py:168-192 | with all amends later than the post, none is indexed if and only if there is none |
| `Posts.OlderAmendIsHidden` | src/aleph/handlers/content/post.py:125-140 | an amend dated before its post is not shown when it arrives |
| `Posts.OlderAmendSurfaces` | src/aleph/handlers/content/post.py:147-164 | it is shown over the newer post once a later amend is forgotten (counterexample) |
| `Posts.PostStore.ProcessPost` | src/aleph/handlers/content/post.py:105-140 | inserts the row and moves the latest amend exactly as the model does |
| `Posts.PostStore.RefreshLatestAmend` | src/aleph/db/accessors/posts.py:168-192 | recomputes one latest amend |
| `Posts.PostStore.ForgetMessage` | src/aleph/handlers/content/post.py:147-164 | deletes the post and its amends and returns the hashes of the amends, or the error |
| `Aggregates.MergeIsFold` | src/aleph/db/accessors/aggregates.py:236-294 | the merge in time order gives every field the value of a newest element that sets it |
| `Aggregates.FoldAppend` | src/aleph/handlers/content/aggregate.py:68-83 | overlaying an element no older than the rest keeps the merge exact |
| `Aggregates.FoldPrepend` | src/aleph/handlers/content/aggregate.py:85-100 | laying an element older than the rest underneath keeps the merge exact |
| `Aggregates.InsertedOk` | src/aleph/handlers/content/aggregate.py:102-224 | an arrival never fails and leaves a row for every maintained aggregate that names one of its own elements |
| `Aggregates.InsertedFirst` | src/aleph/handlers/content/aggregate.py:125-180 | in whatever order elements arrive, the recorded creation time is the first |
| `Aggregates.ArrivalContentIff` | src/aleph/handlers/content/aggregate.py:125-180 | any arrival on an aggregate with the right content leaves the right content if and only if it does not conflict with a newer element; nothing is asked of the recorded last revision |
| `Aggregates.ArrivalRevisionIff` | src/aleph/handlers/content/aggregate.py:125-180 | the recorded last revision is a newest element afterwards if and only if, for a prepended element, it was before, and otherwise no element is newer than the new one |
| `Aggregates.InsertedExact` | src/aleph/handlers/content/aggregate.py:125-164 | an element in time order keeps content, creation time and last revision those of a recomputation |
| `Aggregates.InsertedOthers` | src/aleph/handlers/content/aggregate.py:207-224 | an arrival leaves row and elements of every other aggregate as they were |
| `Aggregates.ForgottenExact` | src/aleph/handlers/content/aggregate.py:226-238 | forgetting an element recomputes its aggregate exactly, whatever the row was, and the row stays iff an element is left |
| `Aggregates.ForgottenOthers` | src/aleph/handlers/content/aggregate.py:226-238 | forgetting an element leaves row and elements of every other aggregate as they were |
| `Aggregates.InBetween` | src/aleph/handlers/content/aggregate.py:166-180 | an arrival between the first and the recorded last revision keeps right content right if and only if it does not conflict; the last revision is wrong afterwards in every case |
| `Aggregates.DisjointArrival` | src/aleph/handlers/content/aggregate.py:170-180 | an arrival whose fields are not cached keeps right content right, however many came before it out of order |
| `Aggregates.ForgottenOkIff` | src/aleph/db/accessors/aggregates.py:236-294 | forgetting an element fails exactly when two different newest elements would be left |
| `AggregateStores.MergeAggregateElements` | src/aleph/db/accessors/aggregates.py:220-224 | the loop gives each field the value of the last element in the list that sets it, and no other field |
| `AggregateStores.AggregateStore.UpdateAggregate` | src/aleph/handlers/content/aggregate.py:102-180 | the branches create, skip, append or prepend as the model does |
| `AggregateStores.AggregateStore.ProcessElement` | src/aleph/handlers/content/aggregate.py:207-224 | inserting an element updates both tables as the model does, or returns its error |
| `AggregateStores.AggregateStore.RefreshAggregate` | src/aleph/db/accessors/aggregates.py:236-294 | the row is recomputed from all elements; two newest ones are an error |
| `AggregateStores.AggregateStore.ForgetMessage` | src/aleph/handlers/content/aggregate.py:226-238 | drops row and element and recomputes |
| `Files.HashTags` | src/aleph/handlers/content/store.py:56-83 | for tags that are item hashes, a pin's tag and its coalesced reference are the same |
| `Files.PinnedTagOk` | src/aleph/handlers/content/store.py:201-274 | a new STORE keeps every hash tag right: present iff a live pin refers to it, newest file, one owner |
| `Files.RefreshedTagOk` | src/aleph/db/accessors/files.py:234-266 | a refreshed tag is right |
| `Files.ForgottenTagOk` | src/aleph/handlers/content/store.py:318-336 | forgetting a STORE keeps every hash tag right |
| `Files.PinnedKeys` | src/aleph/handlers/content/store.py:250-274 | pinning keeps every pin's file stored and every tag on the file of a pin that carries it |
| `Files.ForgottenKeys` | src/aleph/handlers/content/store.py:280-336 | forgetting a STORE keeps every pin's file stored |
| `Files.ForgottenTagsHeld` | src/aleph/handlers/content/store.py:318-336 | and every tag on the file of a pin that carries it, as long as no raw reference equals the tag of another pin |
| `Files.PlainIsClashFree` | src/aleph/handlers/content/store.py:56-83 | references that are item hashes or hold no slash do not clash |
| `Files.CollectedExactly` | src/aleph/services/storage/garbage_collector.py:50-72 | a collection removes a file if and only if all its pins are grace pins past their deadline |
| `Files.CollectedKeys` | src/aleph/services/storage/garbage_collector.py:50-72 | a collection breaks no foreign key of a pin or a tag |
| `Files.GraceSurvives` | src/aleph/handlers/content/store.py:280-316 | a file that a forget leaves without a pin gets a grace pin and survives collections up to its deadline |
| `Files.HeldUntilIff` | src/aleph/handlers/content/store.py:280-316 | a file that loses its last message pin is held for the whole grace period if and only if no grace pin named it before, or one as late did, or a content or transaction pin holds it |
| `Files.OlderGraceCutsShort` | src/aleph/handlers/content/store.py:280-316 | an older grace pin cuts the grace period short (counterexample) |
| `Files.SlashedRefClashes` | src/aleph/db/accessors/files.py:234-266 | a name that equals another STORE's tag leaves, after two forgets, a tag on a file without a pin (a family of counterexamples) |
| `Files.ForgottenOkIff` | src/aleph/handlers/content/store.py:280-337 | forgetting a STORE fails exactly when two newest pins of its tag would be left, or when the file is left without a pin and its recorded type does not match |
| `Files.TagUpsertMeans` | src/aleph/db/accessors/files.py:216-231 | a tag keeps its first owner and names the later of two files, the one it has at equal times; no other tag changes |
| `FileStores.FileStore.UpsertFileTag` | src/aleph/db/accessors/files.py:216-231 | a tag moves only to a later file and keeps its owner |
| `FileStores.FileStore.PinAndTagFile` | src/aleph/handlers/content/store.py:250-274 | pins and tags as the model does, or returns the database's error |
| `FileStores.FileStore.RefreshFileTag` | src/aleph/db/accessors/files.py:234-266 | deletes and recomputes one tag |
| `FileStores.FileStore.ForgetMessage` | src/aleph/handlers/content/store.py:318-336 | unpins, refreshes the tag and checks the remaining pins as the model does |
| `FileStores.FileStore.Collect` | src/aleph/services/storage/garbage_collector.py:50-72 | the loop succeeds if and only if no tag names an unpinned file, and then deletes exactly the unpinned files |
| `Vms.FindMissingVolumes` | src/aleph/handlers/content/vm.py:243-278 | the loop finds the missing references; which those are is `Vms.MissingIff` |
| `Vms.MissingIff` | src/aleph/handlers/content/vm.py:243-278 | a hash is missing if and only if the machine or one of its volumes refers to it and it is no known tag, for the latest version, or no pinned message, for a fixed one |
| `Vms.AdmittedIff` | src/aleph/handlers/content/vm.py:243-278 | nothing is missing if and only if code, runtime and data of a program, the root file system of an instance, every immutable volume and every parent of a persistent one are there |
| `Vms.AdmittedPinned` | src/aleph/handlers/content/vm.py:363-387 | a machine is admitted only while every volume it uses in a fixed version is pinned; `Vms.FixedIff` says which those are |
| `Vms.FixedIff` | src/aleph/handlers/content/vm.py:97-154 | used in a fixed version are exactly code, runtime, data, root file system and immutable volumes without the latest mark |
| `Vms.RefusedIffHeld` | src/aleph/db/accessors/vms.py:64-96 | the check refuses a volume if and only if some machine names it as code, runtime, data, root file system or immutable volume, in a fixed or the latest version |
| `Vms.RefusalFinalIff` | src/aleph/db/accessors/vms.py:64-96 | the refusal is final if and only if exactly one machine holds the volume and no two of its volumes join; otherwise the query fails and the FORGET is retried |
| `Vms.UsedVolumeRefused` | src/aleph/db/accessors/vms.py:64-96 | no FORGET of a volume passes while a machine uses it in a fixed version |
| `Vms.PersistentParentUnprotected` | src/aleph/db/accessors/vms.py:64-96 | the parent of a persistent volume is not protected (counterexample) |
| `Balances.Applied` | src/aleph/db/accessors/balances.py:130-174 | an update writes exactly the rows it names that are absent or of a lower height; which rows it names is `Balances.AppliedEntry` |
| `Balances.UpdateBalances` | src/aleph/db/accessors/balances.py:130-174 | the loop of upserts computes the update that `Balances.AppliedEntry` describes |
| `Balances.AppliedFresh` | src/aleph/db/accessors/balances.py:130-174 | on an empty table an update sets exactly the entries of its chain and dapp for the addresses it lists, an empty dapp name standing for none |
| `Balances.AppliedEntry` | src/aleph/db/accessors/balances.py:130-174 | entries of another address, chain or dapp stay; an own entry appears or changes, to the listed amount and height, exactly from a lower height |
| `Balances.TotalGains` | src/aleph/db/accessors/balances.py:62-80 | a new row adds its balance to the total of its own address, and a row with a dapp only when dapps are included |
| `Balances.DappLeavesTotal` | src/aleph/db/accessors/balances.py:62-80 | an update for a dapp leaves every total without dapps as it was |
| `Balances.HighestWins` | src/aleph/db/accessors/balances.py:166-174 | after any updates, an entry exists iff one names it and holds the value of a highest one |
| `Balances.Converges` | src/aleph/db/accessors/balances.py:166-174 | any order of the same updates gives the same table when, for each entry, its highest updates agree |
| `Balances.OrderFreeIff` | src/aleph/db/accessors/balances.py:166-174 | the order of updates does not show if and only if, for each entry, its highest updates agree |
| `Balances.OrderShowsOnTies` | src/aleph/db/accessors/balances.py:166-174 | an input where the order shows |
| `Balances.TotalIsSumOfDetails` | src/aleph/db/accessors/balances.py:103-127 | without a chain the reported total is the plain total and the sum of the per-chain details |
| `Balances.ChainTotalIsDetail` | src/aleph/db/accessors/balances.py:89-101 | with a chain it is that chain's entry in those details, and no details are returned |
| `MessageStores.MessageStore.UpsertStatus` | src/aleph/db/accessors/messages.py:321-337 | an existing status changes only from the given one |
| `MessageStores.MessageStore.AddPendingMessage` | src/aleph/handlers/message_handler.py:233-262 | a copy already pending changes nothing; otherwise status and row are written |
| `MessageStores.MessageStore.MarkAsRejected` | src/aleph/db/accessors/messages.py:448-495 | the status becomes REJECTED only from PENDING, and the error is kept |
| `MessageStores.MessageStore.RejectNew` | src/aleph/db/accessors/messages.py:515-562 | a message without a hash, or a copy of a known one, is dropped silently |
| `MessageStores.MessageStore.RejectExisting` | src/aleph/db/accessors/messages.py:565-602 | an invalid copy of a processed or forgotten message only loses its pending row |
| `MessageStores.MessageStore.HandleRetry` | src/aleph/jobs/job_utils.py:217-263 | the retry handling of `Lifecycle.ErrorMeans`: missing content goes back to the fetch queue, and used-up retries reject |
| `MessageStores.MessageStore.HandleProcessingError` | src/aleph/jobs/job_utils.py:265-283 | computes what `Lifecycle.ErrorMeans` describes: an invalid message is rejected, anything else retried |
| `MessageStores.MessageStore.InsertMessage` | src/aleph/handlers/message_handler.py:334-368 | message, pending row, status and confirmation change as the model says |
| `MessageStores.MessageStore.ForgetMessage` | src/aleph/db/accessors/messages.py:353-402 | one message moves to the forgotten ones, or the copy fails |
| `MessageStores.MessageStore.ForgetMessages` | src/aleph/handlers/content/forget.py:161-169 | the loop over further messages moves the whole set, in any order |
| `MessageStores.MessageStore.AppendToForgottenBy` | src/aleph/db/accessors/messages.py:405-417 | the FORGET is added at the end of the row's list |
| `MessageStores.MessageStore.ConfirmExisting` | src/aleph/handlers/message_handler.py:307-321 | a copy with the same signature adds a confirmation at most; another signature is refused |
| `MessageStores.MessageStore.ConfirmExistingForgotten` | src/aleph/handlers/message_handler.py:324-332 | a copy of a forgotten message is dropped |
| `NodeForget.TargetsUnused` | src/aleph/handlers/content/forget.py:43-79 | the checks leave only live targets that no machine uses in a fixed version |
| `NodeForget.ElementsOfMembers` | src/aleph/handlers/content/forget.py:81-99 | the listed aggregate targets are exactly the elements of the given keys and owner |
| `NodeForget.CheckTargetsAll` | src/aleph/handlers/content/forget.py:101-139 | a FORGET that passes has passed the check for every target |
| `NodeForget.AllForgottenInv` | src/aleph/handlers/content/forget.py:217-226 | the loop over the targets keeps the invariant, forgets every target, and every message it forgets is accounted for |
| `NodeForget.PostForgottenIff` | src/aleph/handlers/content/forget.py:171-215 | forgetting a processed post succeeds if and only if it is no amend or one that names its post by hash |
| `NodeForget.AmendsGoAlong` | src/aleph/handlers/content/forget.py:151-169 | the amends of a forgotten post go with it, whatever their status and however they name it |
| `NodeInvariant.ItemForgottenInv` | src/aleph/handlers/content/forget.py:151-215 | forgetting one item keeps the invariant and removes exactly the message and, for a post, its amends |
| `NodeSteps.NewEffect` | src/aleph/handlers/message_handler.py:420-434 | a new message of any kind that passes its checks keeps the invariant and has exactly the effect of its kind |
| `NodeSteps.KnownAttempt` | src/aleph/handlers/message_handler.py:396-421 | a copy of a known message changes no message and nothing derived |
| `NodeSteps.FailedAttempt` | src/aleph/jobs/process_pending_messages.py:118-126 | a failed attempt leaves only the handling of its error |
| `NodeSteps.NextInv` | src/aleph/jobs/process_pending_messages.py:100-128 | every step keeps the invariant, and either runs the handler of one message never processed before or changes nothing derived |
| `NodeRuns.RunInv` | src/aleph/handlers/message_handler.py:334-443 | the invariant holds in every reachable state |
| `NodeRuns.ExactlyOnce` | src/aleph/handlers/message_handler.py:396-434 | in every run a content handler takes effect at most once for each item hash |
| `NodeRuns.OthersQuiet` | src/aleph/handlers/message_handler.py:396-421 | steps that run no handler leave messages and derived tables unchanged |
| `NodeRuns.NoResurrection` | src/aleph/handlers/message_handler.py:410-421 | a forgotten message, and everything derived from it, never comes back |
| `NodeRuns.ForgetsStay` | src/aleph/handlers/content/forget.py:119-134 | no FORGET is ever forgotten |
| `NodeRuns.Provenance` | src/aleph/handlers/content/forget.py:101-226 | each forgotten message was, when the first FORGET on its row was processed, a processed message with the sender of that FORGET's pending row, named by hash or as an element of an aggregate of the FORGET's address, or an amend of such a message |
| `NodeRuns.TargetsForgotten` | src/aleph/handlers/content/forget.py:101-226 | a FORGET that succeeds forgets every message that its fetched body names, by hash or as an element of an aggregate of its address: all were live, each processed or an amend, and the row of each names the FORGET |
| `NodeRuns.ProcessedIff` | src/aleph/handlers/message_handler.py:354-361 | in every run a live message has the status PROCESSED if and only if its status was PENDING when its handler ran |
| `NodeRuns.UnprocessedRefused` | src/aleph/handlers/content/forget.py:183-204 | every FORGET that names a message that is neither processed nor an amend fails |
| `NodeRuns.UnprocessedStays` | src/aleph/handlers/content/forget.py:183-204 | a live message that is neither processed nor an amend is never forgotten |
| `NodeOrigins.AppliedRows` | src/aleph/handlers/message_handler.py:334-368 | a first processing stores sender and signature of the pending row and inline flag, address, time and content of the fetched body, needs a fetched body and no objection from outside, confirms the message exactly with its own transaction, pins a content file under the sender, and removes only its own pending row |
| `NodeOrigins.FetchErrorStops` | src/aleph/handlers/message_handler.py:370-443 | an attempt at a new message whose signature check or fetch failed ends with that error |
| `NodeOrigins.CopyConfirms` | src/aleph/handlers/message_handler.py:307-322 | a copy of a live message with the same signature adds a confirmation exactly if it has a transaction, loses its pending row, and changes nothing else |
| `NodeOrigins.CopyRefused` | src/aleph/handlers/message_handler.py:307-322 | a copy with another signature fails with that error, loses its pending row and confirms nothing |
| `NodeOrigins.CopyOfForgotten` | src/aleph/handlers/message_handler.py:324-332 | a copy of a forgotten message only loses its pending row |
| `NodeOrigins.RefuseStep` | src/aleph/db/accessors/messages.py:515-562 | a message refused on arrival is recorded with its error exactly when its hash is unknown or rejected; nothing else changes |
| `NodeOrigins.FetchStep` | src/aleph/jobs/fetch_pending_messages.py:55-77 | a fetch that succeeds marks its row and makes the file known; nothing else changes |
| `NodeOrigins.FetchFailedStep` | src/aleph/jobs/job_utils.py:196-283 | a fetch that fails drops its row if and only if the error is final or the retries are used up, and then records the error unless a copy was processed or forgotten |
| `NodeOrigins.PendingOrigin` | src/aleph/handlers/message_handler.py:233-262 | in every run each pending row has hash, sender, signature and transaction of an earlier submission with its number |
| `NodeOrigins.MessageOrigin` | src/aleph/handlers/message_handler.py:380-443 | in every run each live message was processed at some step from whose pending row and fetched body its fields come, and never changed since |
| `NodeOrigins.LiveAuthored` | src/aleph/handlers/message_handler.py:233-443 | in every run each live message has hash, sender and signature of a submission, and the content fetched for it afterwards |
| `NodeOrigins.ForgottenOrigin` | src/aleph/db/accessors/messages.py:353-417 | in every run each forgotten row keeps kind, sender and signature of a message that was processed |
| `NodeOrigins.ForgetExact` | src/aleph/handlers/content/forget.py:81-226 | a FORGET that succeeds forgets a live message if and only if its body names it, by hash or by aggregate, or names the post it amends |
| `NodeOrigins.OnlyForgetsForget` | src/aleph/handlers/content/forget.py:171-226 | only a step that processes a FORGET forgets anything, and its hash comes first on the new row |
| `NodeAdmission.AdmissionExact` | src/aleph/handlers/message_handler.py:380-443 | a new message of any kind but FORGET is accepted if and only if nothing is wrong with it, told from the live messages and tags, and otherwise fails with the first error in the order of the checks: dependencies, permission, outside verdict, handler |
| `NodeAdmission.RevisionOwner` | src/aleph/handlers/content/store.py:230-248 | a STORE that revises another by hash is refused if and only if the owners differ |
| `NodeAdmission.ForgetNamesIff` | src/aleph/handlers/content/forget.py:43-79 | a FORGET passes its first check if and only if it names something, each hash is a live message that no live machine uses, and each aggregate exists |
| `NodeAdmission.FirstBadHash` | src/aleph/handlers/content/forget.py:43-79 | the first hash that is not live, or that a machine uses, decides the error of a FORGET |
| `NodeAdmission.TargetCheck` | src/aleph/handlers/content/forget.py:101-139 | what the second check says of one live message, by its status, kind and sender; it never runs into an inconsistent table |
| `NodeAdmission.ForgetPermittedIff` | src/aleph/handlers/content/forget.py:81-139 | a FORGET passes its second check if and only if every live message it names is a processed message of its sender and no FORGET, or is left to the loop |
| `NodeAdmission.ItemForgottenIff` | src/aleph/handlers/content/forget.py:151-215 | a live message can be forgotten by hash if and only if it is processed and no FORGET, an amend names its post by hash, no two newest elements are left, and a STORE meets `Files.ForgottenOkIff` |
| `NodeAdmission.ItemErrors` | src/aleph/handlers/content/forget.py:171-215 | what is unknown or not processed may yet become so, a FORGET never can be forgotten, and what is forgotten already only gets one more FORGET on its row |
| `NodeAdmission.BalancesPosted` | src/aleph/handlers/content/post.py:41-60 | a step changes a balance entry if and only if it processes a post with balances of its chain, dapp and address from a greater height, to the amount posted |
| `NodeAdmission.PinnedForGood` | src/aleph/handlers/message_handler.py:334-368 | in every run the content file of a processed message, and a file a transaction pinned, is never collected, not even after a FORGET |
| `NodeAdmission.NoRevisionTrees` | src/aleph/handlers/content/store.py:201-228 | in every run whatever a live STORE refers to by hash refers to nothing itself |
| `ForgetRun.AMessageIsForgotten` | src/aleph/handlers/content/forget.py:151-226 | for any two item hashes and any sender there is a legal run that processes a post and then forgets it, so the theorems about FORGETs are not empty |
| `RunIndexes.TablesAgree` | src/aleph/db/accessors/messages.py:321-402 | messages and forgotten are disjoint, statuses match, confirmations name live messages, and derived tables are keyed exactly by the live messages of their kind |
| `RunIndexes.RowsMirrorMessages` | src/aleph/handlers/content/post.py:105-140 | in every run the rows of posts, aggregate elements, file pins and machines hold address, time and content fields of the live messages they come from |
| `RunIndexes.NewestVersionShown` | src/aleph/db/accessors/posts.py:77-192 | in every run readers of a live post see a newest live version if and only if no amend is indexed or some live amend is as new as the post; with all amends newer, none is indexed iff there is none |
| `RunIndexes.AmendedPostLives` | src/aleph/handlers/content/post.py:88-103 | every live amend has a live post that is no amend |
| `RunIndexes.TagNamesNewestStore` | src/aleph/handlers/content/store.py:201-336 | in every run a hash tag exists iff a live STORE has that reference, names a newest one's file, and shares its owner with all |
| `RunIndexes.VolumesProtected` | src/aleph/handlers/content/forget.py:59-72 | in every run each volume that the content of a live machine names as code, runtime, data, root file system or immutable volume in a fixed version is a live STORE whose file is stored |
| `RunIndexes.AggregateExists` | src/aleph/handlers/content/aggregate.py:125-238 | in every run a maintained aggregate exists iff it has a live element, and its creation time is the first |
| `RunIndexes.AggregateContentIsMerge` | src/aleph/handlers/content/aggregate.py:125-238 | in every run the content of an aggregate is the merge of its live elements, if none of its own elements conflicted since the start or since one of them was last forgotten |
| `RunIndexes.AggregateIsMerge` | src/aleph/handlers/content/aggregate.py:125-238 | and if its own elements arrived in time order since then, the last revision is the newest as well |
| `RunIndexes.ShrunkExact` | src/aleph/handlers/content/aggregate.py:226-238 | a step that forgets an element of an aggregate leaves it exact, whatever it was before |
| `RunIndexes.BalancesOfRun` | src/aleph/handlers/content/post.py:41-60 | the balances are those of the processed updates, each applied once |
| `RunIndexes.BalancesConverge` | src/aleph/db/accessors/balances.py:130-174 | two nodes that processed the same updates in any order agree on every balance, when the highest updates of each entry agree |
| `RunIndexes.CollectsAllIff` | src/aleph/services/storage/garbage_collector.py:50-72 | a collection is sure to delete every file without a pin if and only if no tag names such a file |
| `RunIndexes.CollectionExact` | src/aleph/services/storage/garbage_collector.py:50-72 | in every run in which no live reference equals the tag of another STORE, collections delete exactly the files without a pin and no tag loses its file |
| `ClashRun.CollectionFails` | src/aleph/services/storage/garbage_collector.py:50-72 | for any two owners, name and files there is a legal run of two STOREs and two FORGETs after which no collection deletes every file without a pin |
| `RunIndexes.GraceIff` | src/aleph/handlers/content/store.py:280-316 | when a FORGET takes the last message pin of a file, it is held to the end of the grace period if and only if it is entitled: no older grace pin named it, or one as late does, or a content or transaction pin holds it |
| `RunIndexes.GracePeriod` | src/aleph/handlers/content/store.py:280-316 | an entitled file survives every collection up to the end of the grace period, whatever else happens; one that is not is without a pin by then |
| `Handler.MessageHandler.constructor` | src/aleph/handlers/message_handler.py:292-299 | a new handler starts from the empty tables |
| `Handler.MessageHandler.CheckForgetDependencies` | src/aleph/handlers/content/forget.py:43-79 | the two loops compute the dependency check |
| `Handler.MessageHandler.ListTargetMessages` | src/aleph/handlers/content/forget.py:81-99 | the loop lists the given hashes, then the elements of every given aggregate; `NodeOrigins.ForgetExact` says which messages those are |
| `Handler.MessageHandler.CheckForgetPermissions` | src/aleph/handlers/content/forget.py:101-139 | the loop computes the permission check of all targets |
| `Handler.MessageHandler.ForgetByMessageType` | src/aleph/handlers/content/forget.py:141-149 | the cleanup of each kind and the further messages that go along |
| `Handler.MessageHandler.ForgetLiveMessage` | src/aleph/handlers/content/forget.py:151-169 | one message, its cleanup and its further messages go, or the error is returned |
| `Handler.MessageHandler.ForgetItemHash` | src/aleph/handlers/content/forget.py:171-215 | one target is forgotten, noted again, or refused, by its status |
| `Handler.MessageHandler.ProcessForget` | src/aleph/handlers/content/forget.py:217-226 | the loop forgets the targets in order and stops at the first error |
| `Handler.MessageHandler.InsertMessage` | src/aleph/handlers/message_handler.py:334-368 | message row, content pin, pending row, status and confirmation change together |
| `Handler.MessageHandler.ProcessPost` | src/aleph/handlers/content/post.py:105-140 | the post is inserted and its balance update, if any, applied |
| `Handler.MessageHandler.ProcessContent` | src/aleph/handlers/message_handler.py:434-434 | each kind goes to its own handler |
| `Handler.MessageHandler.ProcessNew` | src/aleph/handlers/message_handler.py:423-434 | fetch, dependencies, permissions, verdict, insertion and handler run in that order, and the first error ends them |
| `Handler.MessageHandler.Process` | src/aleph/handlers/message_handler.py:380-443 | a live message is confirmed, a copy of a forgotten one dropped, a new one processed; the rows that result are those of `NodeOrigins.CopyConfirms`, `CopyOfForgotten` and `AppliedRows` |
| `Handler.MessageHandler.ProcessPending` | src/aleph/jobs/process_pending_messages.py:100-128 | one turn of the loop, with rollback on an error, is one step of the state machine and keeps the invariant |
| `Base58.BytesOfNumber` | src/aleph/chains/nuls_aleph_sdk.py:163-175 | the even hexadecimal form of a number is its shortest byte string |
| `Base58.DecodeEncode` | src/aleph/chains/nuls_aleph_sdk.py:126-179 | decoding undoes encoding on every byte string, leading zeros included |
| `Base58.EncodeDecode` | src/aleph/chains/nuls_aleph_sdk.py:126-179 | encoding undoes decoding on every string over the alphabet |
| `Base58.EncodeMeans` | src/aleph/chains/nuls_aleph_sdk.py:126-148 | the encoding spells the same number over the alphabet, with one leading one for each leading zero |
| `Base58.B58Encode` | src/aleph/chains/nuls_aleph_sdk.py:126-148 | the loops compute the encoding |
| `Base58.B58Decode` | src/aleph/chains/nuls_aleph_sdk.py:151-179 | the loops compute the decoding, and fail exactly on a character outside the alphabet |
| `Base58.GetXor` | src/aleph/chains/nuls_aleph_sdk.py:119-123 | the loop computes the checksum byte |
| `Base58.XorBits` | src/aleph/chains/nuls_aleph_sdk.py:119-123 | each bit of the exclusive or is set if and only if it is set in exactly one operand |
| `Base58.XorLaws` | src/aleph/chains/nuls_aleph_sdk.py:119-123 | the exclusive or is associative and commutative, zero is neutral and every byte is its own inverse |
| `Base58.XorOfParts` | src/aleph/chains/nuls_aleph_sdk.py:119-123 | the checksum of two parts is the exclusive or of their checksums, and that of one byte the byte |
| `Base58.AddressRoundTrip` | src/aleph/chains/nuls_aleph_sdk.py:182-187 | every hash comes back from its address, whose bytes are the hash and one that cancels them under exclusive or |
| `NulsFraming.EncodeVarIntOkIff` | src/aleph/chains/nuls_aleph_sdk.py:59-95 | a value encodes exactly when it is below 2^64, in the announced size |
| `NulsFraming.VarIntRoundTrip` | src/aleph/chains/nuls_aleph_sdk.py:30-95 | a value parses back at any offset with the size announced |
| `NulsFraming.VarIntMinimal` | src/aleph/chains/nuls_aleph_sdk.py:30-95 | no accepted encoding is shorter, and one of the announced size is the encoding |
| `NulsFraming.VarIntLayout` | src/aleph/chains/nuls_aleph_sdk.py:59-95 | a value below 253 is its own byte; otherwise a marker says that two, four or eight bytes follow, which hold the value, least significant first |
| `NulsFraming.VarIntCutShort` | src/aleph/chains/nuls_aleph_sdk.py:30-50 | a length that the end of the buffer cuts short does not parse |
| `NulsFraming.FieldRoundTrip` | src/aleph/chains/nuls_aleph_sdk.py:98-116 | a field reads back from any position; with a one-byte length exactly when it is shorter than 253 bytes |
| `NulsFraming.FieldCutShort` | src/aleph/chains/nuls_aleph_sdk.py:98-109 | a field that the end of the buffer cuts short is returned as far as it goes, with the length it should have |
| `NulsFraming.RecordRoundTrip` | src/aleph/chains/nuls_aleph_sdk.py:232-270 | a signature record between any prefix and suffix parses to both fields and the end of the record |
| `NulsFraming.RecordFields` | src/aleph/chains/nuls_aleph_sdk.py:232-270 | a record is the public key as a field, one zero byte, the signature as a field, and nothing more |
| `NulsFraming.FramedRecordRoundTrip` | src/aleph/chains/nuls_aleph_sdk.py:262-270 | so does a record written with its length in front |
| `NulsFraming.VarInt.Parse` | src/aleph/chains/nuls_aleph_sdk.py:30-50 | sets both fields from the buffer, or neither on an error |
| `NulsFraming.NulsSignature.Parse` | src/aleph/chains/nuls_aleph_sdk.py:232-239 | sets both fields and returns the end of the record |
| `NulsFraming.NulsSignature.Serialize` | src/aleph/chains/nuls_aleph_sdk.py:262-270 | writes the record, with its length in front on request |

## Left out

- Signature verification, hashing, JSON and schema parsing, the IPFS daemon, message queues, caches, HTTP and websockets: they enter as outcomes of a step.
- VM versions and the `replaces` field: the row does not carry it, so there is no version history to state anything about.
- The dirty mark and the full-refresh branch of an aggregate update: the conflict test never lets control reach them.
- The owner whose aggregates the source skips: its rows are kept valid, but no exactness is claimed for them.
- Several messages in one call of a content handler: a processing attempt passes exactly one.
- Retry counts and their intervals, reception times and channel names: scheduling and bookkeeping only.
- Which pending row the processing loop takes next: every order is allowed.
- Cost views, cost arithmetic, size limits and the balance check: one verdict of the outside world per attempt.
- Tags of user-defined references: `RunIndexes.TagNamesNewestStore` speaks of tags that are item hashes without a slash; for the others only the clash and the foreign keys are stated.
- Which file a volume used in its latest version has: the check refuses to forget the message it names, but the tag moves on. Parents of persistent volumes are not checked at all.
- Races between processes inside one collection: a collection is one step, cut short by the database's refusal at most.
- Sub-millisecond conversion of timestamps: instants are integers.
- IndexerReader.Reader.FetchRange: takes the number of pages after which the process is stopped, because the source's loop has no bound and need not end.
- IndexerReader.RefetchedIff: asks for stored ranges that hold an instant; `IndexerReader.MissedIff` has no such condition.
- RunIndexes.CollectionExact: asks that no references clash along the run, which is sufficient and not necessary; `RunIndexes.CollectsAllIff` gives the condition that is both, on the tables before the collection.
- RunIndexes.AggregateContentIsMerge: asks that no element conflicts along the run, which is sufficient and not necessary, since a still newer element can overwrite a wrong field; `Aggregates.ArrivalContentIff` is exact for each arrival.
- NodeAdmission.ItemForgottenIff: speaks of one item; whether a FORGET of several succeeds depends on what the earlier items leave, and is not stated as one condition.
