# Mors in Dafny

Mors is an LSM key-value store with multi-version transactions. This project models the five parts of it whose
correctness depends on several functions at once, and proves what they are for:

- **Transactions.** Read and commit timestamps come from an oracle under a lock; begin and done marks travel through
  FIFO channels to two watermark tasks; commits go through the write channel to a loop that applies one batch at a time.
  `Protocol` is a labelled transition system with one step per lock section, channel operation or processed mark,
  `Runs` proves safety over every run of it, and `Progress` that nobody is stuck.
- **Skip list and memtable.** Nodes in an arena, twenty-level towers, back links; searches and pushes are loops over
  them. A list refines a finite map, and a versioned lookup finds the newest visible version.
- **Tables.** The block format with its prefix compression, the file layout, the iterators over blocks and tables and
  the tree of two-way merges above them.
- **Compaction.** Version retention, step by step and, in `RetainedVersions`, as what it keeps; plan exclusion, overlap
  search, splits and the tasks that work on them, level replacement; in `CompactionStep` all of these as one compaction,
  in `StoreOrder` and `PlanOrder` exactly which plans readers cannot notice, in `StoreStep` and `Level0Order` that the store is in order again afterwards, and in
  `GarbageCollection` retention together with the oracle: no reader loses anything.
- **Subscription trie and bloom filter**, each against the set it stands for.

Code that updates its state in place is modelled by classes and loops proved against specification functions; the
protocol is a state machine over values; the merge tree and the trie, whose nodes own their children, are values that
methods and functions replace. A failed assertion or an exhausted arena is an `ok` that is false or a `None`.

## Where the code does not do what one would expect

- Marks with timestamp 0 are dropped by the watermark task (src/txn/water_mark.rs:173), so a transaction reading at
  timestamp 0, the first ones of a fresh store, does not hold the discard timestamp back: `ReadTsZero.ReaderAtZeroPassed`
  is such a run and `ReadTsZero.ProtectedIffPositive` the exact condition. `GarbageCollection.ReadersLoseNothing` covers
  these readers too.
- The loop of `add_keys` does not advance its iterator after pushing an entry (src/level/compact.rs:415-427). As written
  it ends, having written what should be retained, if and only if the first version of every user key is at or below the
  discard timestamp, is no merge entry, and ends the examination of its key: it is deleted or expired, discards earlier
  versions, or one version is to be kept, which is the default (`AddKeysLoop.WorksIff`; an entry at the empty key and
  timestamp 0, which `skip_key` cannot name, must be dropped at once). At an entry above the discard
  timestamp, or a merge entry, it pushes that entry for ever (`AddKeysLoop.Stalls`). Everything else about retention is
  about the per-entry decision applied once to each entry of the merged stream.
- Dropping a deletion is invisible if and only if it was not hiding a live version outside the compaction's input
  (`Retention.PreservedIff`). The overlap check looks at the levels below the target level only, and nothing checks the
  tables that a plan leaves above. Over all contents of a store in order, a plan whose check is negative goes unnoticed if
  and only if no table it leaves, down to the target level and in an older place than one it takes, may by its bounds hold
  an older version of the same user key (`StoreOrder.UnseenIff`, `PlanOrder.PlanUnseenIff`). Plans to the next level and
  of the last level into itself always meet this. Plans to the base level meet it only if the levels between level 0 and
  the base hold nothing of the kind. They need not: the base is chosen by the size of the last level
  (src/level/compaction.rs:325-351) and can lie below a level that still holds tables; then a deleted value can come back
  (`PlanFailures.BasePlanUndoes`). Plans from level 0 into level 0 meet it only if they leave nothing of the kind in front
  of what they take (`PlanFailures.Level0PlanUndoes`).
- A compaction within level 0 gives its output the highest ids, which puts it behind every table that stays. The store is
  in order afterwards, for all contents, if and only if no younger table that stays may hold newer versions of what was
  taken (`Level0Order.Level0OrderIff`).
- `SinkMergeIter::new` makes nodes with one child unless the number of streams is 2, 4, 8, ..., and the first step then
  panics: it succeeds exactly for these numbers (`MergeIters.Next`, `MergeIters.MergeAll`). Two level-0 tables and the
  concatenation below them are three streams.
- `next_back` of the skip list's iterator, when `next` has gone to the last node before, gives that node once more
  (src/util/skip_list.rs:531-537), and the two ends no longer see each other; in all other cases each node is given once
  (`SkipListScan.AdvanceBack`).
- `next` and `next_back` of a block iterator index out of bounds when the other end is in use and they stand on the last,
  or first, entry (`BlockIters.BlockIter.Next`, `BlockIters.BlockIter.NextBack`); table iterators use a block iterator from
  one end only.
- An ignored position of a subscription pattern consumes no byte of the key (src/util/tire.rs:60). The trie does what the
  patterns are meant to say if and only if at most the last position is ignored (`Tries.AgreesIff`).
- Serialized keys with an empty user part cannot be told from bare user keys and sort by ascending timestamp
  (`Keys.SerializeRoundTrip`, `Keys.EmptyKeysSortAscending`).

## Model

| member | source | states |
|---|---|---|
| `Bytes.BigEndianOrder` | src/kv.rs:398-413 | big-endian strings of one width compare like the numbers they encode |
| `Keys.SerializeRoundTrip` | src/kv.rs:271-306 | decoding undoes `serialize` if and only if the user key is not empty; the borrowed view always gives key and timestamp back |
| `Keys.DeserializeRoundTrip` | src/kv.rs:271-306 | serializing undoes decoding for every string with a user part |
| `Keys.ComparisonsAgree` | src/kv.rs:236-413 | with a user part on both sides, the byte comparator and the two mixed comparisons all equal `KeyTs::cmp` on the decoded keys |
| `Keys.SerializeKeepsOrder` | src/kv.rs:398-413 | serializing non-empty keys keeps their order |
| `Keys.EmptyKeysSortAscending` | src/kv.rs:398-413 | without a user part the byte comparator reverses the order of versions |
| `Keys.LtIsStrictTotalOrder` | src/kv.rs:262-270 | user key ascending, timestamp descending is a strict total order |
| `Keys.SerializedLtIsStrictTotalOrder` | src/kv.rs:398-413 | so is the byte comparator on serialized keys |
| `Values.VarRoundTrip` | src/kv.rs:477-500 | a variable-length integer is read back with its length, whatever follows it |
| `Values.VarIsDigits` | src/kv.rs:477-485 | it consists of the digits to the base 128, least significant first and as few as possible, the high bit set in all bytes but the last |
| `Values.ValueRoundTrip` | src/kv.rs:472-500 | deserializing undoes serializing for every value, expiry and pair of meta bytes |
| `Values.ValueBytes` | src/kv.rs:477-485 | a value is stored as its user meta byte, its meta byte, its expiry time and its bytes |
| `WaterMark.PopFacts` | src/txn/water_mark.rs:101-113 | the pop loop removes exactly the closed timestamps up to the new mark; heap and pending keys stay the same set |
| `WaterMark.ProcessOneKeepsValid` | src/txn/water_mark.rs:82-149 | a mark not below the watermark keeps heap, pending map and waiters consistent, and the watermark never goes back |
| `WaterMark.BeginKeepsDoneUntil` | src/txn/water_mark.rs:82-128 | a begin mark does not move the watermark |
| `WaterMark.NotificationBranchesAgree` | src/txn/water_mark.rs:129-148 | walking the range of timestamps and scanning all waiters notify the same waiters and keep the same ones |
| `WaterMark.ProcessKeepsValid` | src/txn/water_mark.rs:151-183 | every received mark keeps the invariant and forgets no notification |
| `WaterMark.WaterMarkTask.ApplyOne` | src/txn/water_mark.rs:82-149 | the in-place heap and map updates do what the specification function says, by either notification branch |
| `WaterMark.WaterMarkTask.PopHeap` | src/txn/water_mark.rs:101-127 | the loop over the heap computes the specified new mark, heap and pending map |
| `WaterMark.WaterMarkTask.WalkRange` | src/txn/water_mark.rs:129-136 | the range walk wakes exactly the waiters up to the new mark |
| `WaterMark.WaterMarkTask.ScanAll` | src/txn/water_mark.rs:137-148 | the full scan wakes exactly the same waiters |
| `WaterMark.WaterMarkTask.Receive` | src/txn/water_mark.rs:151-183 | a waiter is notified at once or registered, a mark at timestamp 0 is dropped, any other is applied |
| `MarkChannel.ReceiveKeeps` | src/txn/water_mark.rs:75-185 | taking the oldest mark keeps the channel invariant: pending counts equal the open sessions, no waiter is lost, the watermark is monotone |
| `MarkChannel.OpenSessionKeeps` | src/txn/water_mark.rs:187-193 | so does sending a begin mark with a timestamp that does not decrease |
| `MarkChannel.CloseSessionKeeps` | src/txn/water_mark.rs:222-243 | so does sending a done mark, once per session |
| `MarkChannel.AskKeeps` | src/txn/water_mark.rs:194-214 | so does sending a waiter, whose mark stays on the channel until it is processed |
| `MarkChannel.UnseenNotPassed` | src/txn/water_mark.rs:82-128 | the watermark is never above a session, at a positive timestamp, whose done mark was not processed, even if its begin mark is still queued |
| `MarkChannel.NextNotPassed` | src/txn/oracle.rs:91-102 | nor above any timestamp that may begin next |
| `MarkChannel.HeadNotPassed` | src/txn/water_mark.rs:82-100 | so the assertion at the start of `process_one` holds for the mark at the head of the channel |
| `MarkChannel.WatermarkIsTight` | src/txn/water_mark.rs:101-128 | a watermark that lags behind a begun session has an open session to blame |
| `MarkChannel.ReceiveKeepsExact` | src/txn/oracle.rs:124-131 | with distinct timestamps, whatever the watermark has reached has had its done mark processed |
| `Oracle.BeginTxnKeeps` | src/txn/oracle.rs:91-102 | taking a read timestamp keeps the oracle's invariant |
| `Oracle.TakeCommitTsKeeps` | src/txn/oracle.rs:104-146 | taking a commit timestamp keeps it, and samples the discard timestamp for the clean-up |
| `Oracle.SendWaiterKeeps` | src/txn/water_mark.rs:194-214 | waiting for the transaction watermark keeps it |
| `Oracle.WakeKeeps` | src/txn/water_mark.rs:204-214 | a notified transaction may be admitted: the watermark has reached it |
| `Oracle.DiscardKeeps` | src/txn/mod.rs:162-175 | discarding a transaction keeps it |
| `Oracle.DoneCommitKeeps` | src/txn/water_mark.rs:222-230 | finishing a commit keeps it |
| `WritePipeline.EnqueueKeeps` | src/txn/mod.rs:335-397 | requests are enqueued in the order of their commit timestamps |
| `WritePipeline.SpawnKeeps` | src/write.rs:95-161 | a batch takes the whole buffer, and only when no batch is in flight |
| `WritePipeline.ApplyNextKeeps` | src/write.rs:162-201 | a batch writes its requests in order: exactly those before its next one are in the memtable |
| `WritePipeline.EndKeeps` | src/write.rs:103-116 | a batch that ends settles all its requests, and is reported as failed if and only if it left one unwritten |
| `WritePipeline.HandOverKeeps` | src/util/publisher.rs:96-105 | with subscribers, a batch whose requests are all written is handed to the publisher instead, their results still out |
| `WritePipeline.DropKeeps` | src/util/publisher.rs:112-120 | so it is when the publisher drops a request, before or after the permit was returned |
| `Protocol.StepKeeps` | src/txn/oracle.rs:91-146 | every enabled step of oracle, transactions, watermark tasks and write path keeps the system invariant |
| `Runs.RunInv` | src/txn/oracle.rs:91-146 | so it holds in every state of every run |
| `Runs.DiscardBelowReaders` | src/txn/oracle.rs:80-102 | in every run, a discard timestamp is not above the read timestamp of any transaction that still reads at any later point, or that begins later |
| `Runs.DiscardReachesDone` | src/txn/oracle.rs:80-90 | nor does it lag: it has reached every begun transaction at or below which no begun transaction, at a positive timestamp, is unprocessed |
| `Runs.SnapshotComplete` | src/txn/oracle.rs:91-102 | an admitted transaction finds every commit at or below its read timestamp settled or refused, its done mark processed; its write is in the memtable unless it was refused or its batch failed |
| `Runs.SnapshotStable` | src/txn/mod.rs:155-157 | after that, only commits newer than it reach the memtable |
| `Runs.OneBatchAtATime` | src/write.rs:95-161 | a write batch can be spawned exactly when none is in flight and the loop has requests or drains an empty channel |
| `Runs.EveryRequestEndsUp` | src/write.rs:162-201 | in every run: the running batch has written exactly the requests before its next one; a batch that is over has failed if and only if it left a request unwritten; requests have their results, or are with the publisher, if and only if their batch is over; no request is lost |
| `Runs.WritesInCommitOrder` | src/txn/mod.rs:335-397 | requests reach the memtable in strictly increasing commit-timestamp order |
| `Runs.EachRequestInOneBatch` | src/write.rs:95-161 | each request taken from the channel is in exactly one batch or in the buffer, in order |
| `Runs.AssertionsHold` | src/txn/water_mark.rs:82-149 | no run trips an assertion of the watermark tasks or of the clean-up |
| `Runs.WaiterWokenExactly` | src/txn/water_mark.rs:151-171 | a registered waiter is notified exactly when the watermark has reached its timestamp |
| `Progress.CommitMoves` | src/write.rs:95-201 | in every run, as long as the write loop runs, a commit that is not done has a step ahead of it: it can be sent, collected, batched, written, ended, answered or marked done |
| `Progress.TxnMoves` | src/txn/water_mark.rs:194-214 | a transaction that was not admitted yet can take its next step, or a mark can be processed, or it waits for a commit at or below its read timestamp that has a step ahead of it |
| `ReadTsZero.ReaderAtZeroPassed` | src/txn/water_mark.rs:173-180 | a run in which the discard timestamp passes an open reader at timestamp 0 |
| `ReadTsZero.ProtectedIffPositive` | src/txn/water_mark.rs:173-180 | the read watermark protects readers at `t` in every run if and only if `t > 0` |
| `CommitThenRead.CommitIsRead` | src/txn/mod.rs:335-397 | a run in which a commit is sent, written, answered and marked done, and the next transaction reads at its timestamp |
| `Retention.NewestRetained` | src/level/compact.rs:340-428 | from the discard timestamp on, the newest version of a key survives, except a deleted or expired one that is dropped together with everything older |
| `RetainedVersions.RetainedIff` | src/level/compact.rs:340-428 | exactly what is kept of a sorted stream: an entry is dropped if and only if a newer version at or below the discard timestamp is deleted, expired, discards earlier versions or is the last of the versions to keep, or it is itself deleted or expired, at or below the discard timestamp, and no overlap was reported |
| `RetainedVersions.LimitIsKept` | src/level/compact.rs:400-403 | of live plain versions at or below the discard timestamp the newest ones up to the limit are kept |
| `RetainedVersions.VisibleIff` | src/kv.rs:513-520 | a reader sees exactly the newest version at or below its timestamp that is not deleted and whose expiry time, if it has one, has not come |
| `Retention.PreservedIff` | src/level/compact.rs:340-428 | for any version limit, flags and surroundings, a compaction is invisible from the discard timestamp on if and only if no dropped deletion was hiding a live version elsewhere |
| `Retention.PreservedWithoutOlder` | src/level/compact.rs:288-298 | in particular when, without overlap, no older version lives outside the input |
| `Retention.DeletionUndone` | src/level/compact.rs:288-298 | with the overlap flag down, a deletion whose older version is outside of the input brings that version back, whatever its value |
| `AddKeysLoop.WorksIff` | src/level/compact.rs:340-428 | the loop as written comes to the end of the stream with exactly the retained entries if and only if the first version of every user key settles that key, the default key, which cannot be skipped, included |
| `AddKeysLoop.Stalls` | src/level/compact.rs:415-427 | at an entry above the discard timestamp, or a merge entry, whose key is not skipped, it pushes that entry once per iteration and gets no further |
| `Compact.AddKeys` | src/level/compact.rs:325-436 | one table gets exactly what is retained between its two ends; it ends at the end of the range, or at the first new user key at which it is full (by any rule on position and number of entries) or, being a multiple of 5000 user keys, overlaps too much below |
| `Compact.SubCompact` | src/level/compact.rs:237-275 | wherever tables end, the tables of one task together hold exactly what is retained of the entries in its key range, and no user key has versions in two of them |
| `Compact.TasksRetainAll` | src/level/compact.rs:184-199 | tasks on the splits of a plan, each with a fresh context, write together what one task would write for the whole stream |
| `CompactionStep.TargetStaysDisjoint` | src/level/compact.rs:184-211 | however tasks cut their output, putting it in place of the plan's bottom keeps the target level sorted and disjoint |
| `CompactionStep.CompactPlan` | src/level/compact.rs:28-211 | a whole compaction, from the splits over the tasks to both levels: the target level stays sorted and disjoint, loses exactly the bottom and gains tables that hold exactly the retained entries, no user key in two of them; the source level loses exactly the top |
| `Ranges.OverlapIsSharedUserKey` | src/level/compaction.rs:391-433 | two table ranges overlap if and only if some user key lies in both tables' intervals |
| `Ranges.RangeOfAll` | src/level/compaction.rs:372-390 | the range of several tables is the smallest that encloses all versions of their user keys |
| `Ranges.HullContains` | src/level/compaction.rs:372-399 | every one of the tables lies within it |
| `Levels.BinarySearch` | src/level/compaction.rs:493-512 | the position of a key, or where it would go |
| `Levels.OverlapTables` | src/level/compaction.rs:493-512 | on a sorted disjoint level, exactly the tables that meet the range |
| `Levels.ArrangeMakesDisjoint` | src/level/level_handler.rs:58-76 | sorting pairwise disjoint tables by their first key gives a sorted disjoint level |
| `Levels.ArrangeSorts` | src/level/level_handler.rs:58-76 | the result is in order: by id in level 0, by first key elsewhere |
| `Levels.Level0ById` | src/level/level_handler.rs:58-76 | with distinct ids, level 0 is strictly ascending by id |
| `Levels.ReplaceKeepsDisjoint` | src/level/level_handler.rs:107-123 | replacing the tables that meet a plan's range by tables drawn from the compacted keys keeps the target level sorted and disjoint |
| `LevelHandlers.LevelHandler.Init` | src/level/level_handler.rs:58-76 | the level holds exactly the given tables, in order (level 0 by id, others by first key), and `total_size` is the sum of their sizes |
| `LevelHandlers.LevelHandler.Replace` | src/level/level_handler.rs:107-123 | exactly the named tables go and the new ones come in, in order (level 0 by id, others by first key); `total_size` stays the sum |
| `LevelHandlers.LevelHandler.Delete` | src/level/level_handler.rs:124-145 | exactly the named tables go; `total_size` stays the sum |
| `LevelHandlers.LevelHandler.PushLevel0` | src/level/flush.rs:86-102 | a table is appended to level 0 unless the level is at its stall limit |
| `LevelHandlers.LevelHandler.Validate` | src/level/level_handler.rs:146-193 | accepts level 0 and the levels whose neighbours do not meet |
| `LevelHandlers.ChainedIsDisjoint` | src/level/level_handler.rs:146-193 | comparing neighbours accepts exactly the sorted disjoint levels |
| `LevelHandlers.CheckOverlap` | src/level/compact.rs:288-298 | reports whether a table from the given level on, which is the one below the target, meets the range of the compacted tables |
| `LevelHandlers.SharedIsReported` | src/level/compact.rs:288-298 | a table below that shares a user key with the input is always reported |
| `Plans.AcceptsExcludes` | src/level/plan.rs:389-416 | an accepted plan claims no table of a plan accepted before |
| `Plans.BlockedIff` | src/level/compaction.rs:400-433 | a plan for a table is blocked by plans for other tables if and only if one of these shares a user key with it |
| `Plans.NoTableClaimedTwice` | src/level/plan.rs:389-416 | over every sequence of accepted plans, level-0-to-level-0 plans included, no table is claimed by two of them |
| `FillPlans.CompactStatus.TryUpdate` | src/level/plan.rs:389-416 | a plan is registered if and only if neither of its ranges overlaps a registered one on its level |
| `FillPlans.FillTables` | src/level/plan.rs:84-136 | a plan found is an accepted one for the first candidate that is not refused, its bottom exactly the tables of the next level that meet its range; if none is found the status is unchanged and every candidate was refused by a registered range |
| `FillPlans.FillLevel0ToBase` | src/level/plan.rs:214-260 | the same from level 0, taking exactly the longest run of oldest tables of which each has a user key between the first and the last key of those before it, with their range; without a plan, the level was empty or idle or that run was refused |
| `FillPlans.HullTouches` | src/level/plan.rs:240-248 | the range of the tables taken so far overlaps that of the next one if and only if that has a user key between their first and their last |
| `FillPlans.FillLevel0ToLevel0` | src/level/plan.rs:261-306 | a plan is made if and only if it is the first task and at least four tables pass the test and are unclaimed; it takes exactly those and registers the infinite range |
| `FillPlans.UnclaimedIff` | src/level/plan.rs:261-306 | a table is taken if and only if it is in level 0, passes the test and is in no plan |
| `FillPlans.FillMaxLevel` | src/level/plan.rs:137-208 | the last level compacted into itself is an accepted plan of one candidate and its neighbours as far as they fit into one file together; none is found only if the range of the last candidate is taken |
| `Splits.AddSplits` | src/level/plan.rs:307-330 | a split for every group of bottom tables, of the least size from three on that makes at most five: contiguous ranges that start where the plan starts, each cut behind the oldest version of the last user key of its group |
| `Splits.CoveredOnce` | src/level/plan.rs:307-330 | every key from there on is in exactly one of them |
| `Splits.VersionsTogether` | src/level/plan.rs:307-330 | versions from 1 on of one user key are in the same one |
| `GarbageCollection.CompactionInvisible` | src/level/compact.rs:288-298 | with the overlap check as the flag, a compaction is invisible from the discard timestamp on |
| `StoreOrder.LeftBehindIsNewer` | src/level/compact.rs:288-298 | in a store in order, if no table left in an older place may hold older versions, everything left down to the target level is newer than what is compacted |
| `StoreOrder.HiddenOverlaps` | src/level/compaction.rs:391-433 | tables whose key ranges do not overlap meet this condition |
| `StoreOrder.UnseenIff` | src/level/compact.rs:220-224 | for any choice of tables, with the overlap check as it is made: readers from the discard timestamp on notice nothing, whatever a store in order holds, if and only if the check is positive or the condition holds |
| `PlanOrder.MostAreSafe` | src/level/plan.rs:84-208 | plans to the next level and of the last level into itself meet the condition |
| `PlanOrder.BaseSafeIff` | src/level/plan.rs:214-260 | plans to the base level meet it if and only if the levels in between, which need not be empty, hold nothing that may be hidden |
| `PlanOrder.Level0SafeIff` | src/level/plan.rs:261-306 | plans within level 0 meet it if and only if no table left in front of one taken may be hidden |
| `PlanOrder.NextKind` | src/level/plan.rs:84-136 | what the contract of `FillTables` promises makes its plans plans to the next level |
| `PlanOrder.BaseKind` | src/level/plan.rs:214-260 | likewise `FillLevel0ToBase` and plans to the base level |
| `PlanOrder.PlanUnseenIff` | src/level/compact.rs:220-224 | the exact condition for each of the four kinds of plans the planner makes |
| `PlanFailures.Level0PlanUndoes` | src/level/plan.rs:261-306 | a store in order, a plan that `FillLevel0ToLevel0` makes in it and the flag that `CheckOverlap` gives, after which a deleted value is visible again |
| `PlanFailures.BasePlanUndoes` | src/level/compaction.rs:325-351 | the same with a plan that `FillLevel0ToBase` makes past a level that still holds a table |
| `StoreStep.TablesAfter` | src/level/compact.rs:87-90 | after `replace` and `delete` each level has exactly the tables that were not claimed, the target level also the new ones |
| `StoreStep.OrderKept` | src/level/compact.rs:87-90 | a plan that meets the condition, into a level below level 0, leaves the store in order: versions get older from level to level and no level shares user keys |
| `StoreStep.AnswersKept` | src/level/compact.rs:28-90 | and every lookup in the whole store, before and after, gives the same answer from the discard timestamp on |
| `StoreStep.PlacesKept` | src/level/compact.rs:87-90 | and every table still has its own id and place |
| `StoreStep.CompactStore` | src/level/compact.rs:28-90 | all of this for a compaction run on the two level handlers, from the plan to the installed tables |
| `Level0Order.FlushKeepsOrder` | src/level/flush.rs:86-102 | a flushed table of newer versions leaves the store in order |
| `Level0Order.Level0OrderIff` | src/level/level_handler.rs:71-75 | a compaction within level 0 leaves every store in order if and only if no younger table that stays may hold newer versions of what was taken |
| `GarbageCollection.ReadersLoseNothing` | src/txn/oracle.rs:80-90 | in every run, every transaction that still reads, or begins later, gets the same answer for every key from the compacted store |
| `SkipListLinks.InsertKeepsLevel` | src/util/skip_list.rs:193-224 | putting a node between the two ends of a splice keeps a level a sorted list of its members |
| `SkipListLinks.PredecessorUnique` | src/util/skip_list.rs:205-224 | a node's back link is its only predecessor, so the exchange on it succeeds |
| `SkipListLinks.LinkingStep` | src/util/skip_list.rs:193-224 | one round of linking keeps all levels, back links and contents |
| `SkipListLinks.FindSplice` | src/util/skip_list.rs:249-273 | the splice of a key on one level, or the node that has the key |
| `SkipLists.Search` | src/util/skip_list.rs:145-170 | the splices of all levels in use, or the node that has the key |
| `SkipLists.LinkAll` | src/util/skip_list.rs:171-248 | the new node is on every level of its tower and all invariants hold; no retry happens and no assertion fails |
| `SkipLists.SkipList.constructor` | src/util/skip_list.rs:127-140 | an empty list is valid and stands for the empty map |
| `SkipLists.SkipList.Push` | src/util/skip_list.rs:145-248 | the key maps to the value, all else is as before; nothing changes where the arena is full |
| `SkipLists.SkipList.TrySetValue` | src/util/skip_list.rs:288-299 | the value of one key changes and nothing else |
| `SkipLists.RoundUp8` | src/util/arena.rs:188-192 | the next multiple of eight |
| `SkipLists.NodeSizeIs` | src/util/skip_list.rs:50-58 | the size of a node is that of its fields, with twenty links, rounded up |
| `SkipLists.FindOrNearIn` | src/util/skip_list.rs:300-337 | the least key not before the given one, or only the key itself |
| `SkipLists.FindNextIn` | src/util/skip_list.rs:338-372 | the least key after the given one |
| `SkipLists.FindPrevIn` | src/util/skip_list.rs:373-402 | the greatest key before the given one |
| `SkipLists.FindLastIn` | src/util/skip_list.rs:403-420 | the last node, or the head of an empty list |
| `SkipListScan.Advance` | src/util/skip_list.rs:503-518 | with the cursors apart, takes the first of the nodes that neither has reached, if any, and keeps them apart |
| `SkipListScan.AdvanceBack` | src/util/skip_list.rs:519-541 | with the cursors apart, takes the last of the nodes that neither has reached, if any, and keeps them apart, if and only if the iterator is not spent; a spent one gives its last node again |
| `SkipListScan.ScanForward` | src/util/skip_list.rs:503-518 | a forward scan lists every node once, by ascending key |
| `SkipListScan.ScanBackward` | src/util/skip_list.rs:519-541 | a backward scan lists every node once, by descending key |
| `SkipListScan.ScansAreReverses` | src/util/skip_list.rs:503-541 | the two scans are reverses of one another |
| `MemTables.LeastIsNewest` | src/memtable/read.rs:7-19 | the least serialized key from (key, ts) on is the newest version at or below ts of exactly that user key, if there is one |
| `MemTables.MemTable.Push` | src/memtable/write.rs:15-30 | an entry whose meta byte is below 128 is filed under its version and the largest version is kept; one with the highest bit, which only closes a transaction, changes nothing; fails only when the arena is full |
| `MemTables.MemTable.Get` | src/memtable/read.rs:7-19 | near match: the newest version at or below the timestamp of that user key, or none; otherwise exactly that version |
| `Blocks.HeaderRoundTrip` | src/table/mod.rs:949-978 | an entry header is read back |
| `Blocks.VecU32ToBytes` | src/table/mod.rs:666-672 | the loop writes the numbers big-endian, one after the other |
| `Blocks.BytesToVecU32` | src/table/mod.rs:675-683 | the loop reads the number in each group of four bytes |
| `Blocks.U32sRoundTrip` | src/table/mod.rs:666-683 | reading undoes writing |
| `Blocks.DiffBaseKey` | src/table/write.rs:57-67 | the length of the longest common prefix |
| `Blocks.BlockBuilder.PushEntry` | src/table/write.rs:86-101 | the block holds one row more: its bytes are appended with the key cut by exactly what it shares with the base key; never fails on keys below 64 KiB |
| `Blocks.BlockBuilder.FinishBlock` | src/table/write.rs:103-111 | entries, offsets, their number, the checksum of all that and its length |
| `Blocks.ParseBlock` | src/table/mod.rs:889-932 | gives a block if and only if the bytes are what that block is written as, and an error if there is none |
| `Blocks.ParsedIff` | src/table/mod.rs:889-932 | a block is parsed from exactly the bytes it is written as |
| `Blocks.ParseFinished` | src/table/mod.rs:889-932 | parsing undoes finishing |
| `Blocks.BlockRoundTrip` | src/table/mod.rs:889-947 | a finished block is read back with all its rows and a checksum that verifies |
| `BlockIters.RebuiltIs` | src/table/read.rs:211-230 | whatever key was there before, cutting it to the overlap, topping it up from the base key and appending the stored bytes gives exactly the next key |
| `BlockIters.MoveTo` | src/table/read.rs:211-230 | a jump from any entry to any other, in either direction, rebuilds the key that was stored |
| `BlockIters.BlockIter.SetEntryIndex` | src/table/read.rs:211-230 | so the iterator may be set to any entry |
| `BlockIters.BlockIter.Next` | src/table/read.rs:236-270 | visits the entries in order, stopping in front of the back cursor; goes out of bounds exactly on the last entry with the back cursor in use |
| `BlockIters.BlockIter.NextBack` | src/table/read.rs:272-334 | visits them in the opposite order, stopping behind the front cursor; goes out of bounds exactly on the first entry with the front cursor in use |
| `BlockIters.BlockIter.Value` | src/table/read.rs:344-358 | the value that was pushed with the current key |
| `BlockIters.BlockIter.ValueBack` | src/table/read.rs:368-383 | the same at the back cursor |
| `TableFiles.TableBuilder.MakeRoom` | src/table/write.rs:69-84 | closes the block if and only if the row, with offsets, count, checksum and nonce, would make it larger than the block size; the rows stay the same |
| `TableFiles.TableBuilder.Push` | src/table/write.rs:125-136 | the row comes after all others, wherever blocks end |
| `TableFiles.TableBuilder.FinishCurBlock` | src/table/write.rs:147-181 | the closed block is packed with the given nonce and can be unpacked to exactly its rows |
| `TableFiles.MaxVersionIs` | src/table/write.rs:133 | the recorded version is the largest timestamp among the rows |
| `TableFiles.BuildOffsets` | src/table/write.rs:218-231 | base key, offset and length of every block; fails if and only if the sizes exceed 32 bits |
| `TableFiles.ReadAll` | src/table/write.rs:317-339 | fills the buffer with the blocks, the index, the checksum and their lengths |
| `TableFiles.TableBuilder.Finish` | src/table/write.rs:196-270 | the file of all rows pushed, its index with their number, largest version and bloom filter; fails if and only if the blocks or the index it made exceed 32 bits |
| `TableFiles.InitIndexOf` | src/table/mod.rs:214-255 | the footer of every built file leads back to its index |
| `TableFiles.GetBlockOf` | src/table/mod.rs:577-640 | every block of a built file is found and holds its rows |
| `PlainCodec.PlainIsSound` | src/table/mod.rs:644-665 | the assumptions about codecs can be met: a codec without encryption and compression, with an index written out plainly, meets them |
| `TableIters.Open` | src/table/mod.rs:127-213 | every built file can be opened; the bounds are its first and last key |
| `TableIters.BoundsEnclose` | src/table/mod.rs:179-213 | if rows were pushed in ascending order the bounds enclose every key |
| `TableIters.MayContainKey` | src/table/mod.rs:465-482 | no filter, or the key passes it |
| `TableIters.NoKeyMissed` | src/table/mod.rs:465-482 | every key of a table passes its filter |
| `TableIters.TableIter.Next` | src/table/read.rs:51-80 | delivers the rows one by one, across blocks, until it meets the row of the back end |
| `TableIters.TableIter.NextBack` | src/table/read.rs:83-113 | delivers them from the end, until it meets the row of the front end |
| `TableIters.ScanForward` | src/table/read.rs:50-80 | a forward scan gives the rows in the order in which they were pushed |
| `TableIters.ScanBackward` | src/table/read.rs:81-113 | a backward scan gives them in the opposite order |
| `TableIters.BuildTable` | src/table/write.rs:272-305 | all rows are pushed in order; no assertion fails for keys below 64 KiB and rows below a third of 4 GiB |
| `TableIters.RoundTrip` | src/table/write.rs:264-305 | what was pushed is what is read back, from either end, for every codec that can be undone, every block size and all nonces; bounds, count, largest version and filter are right; rows below the limits fail only if blocks that the builder can make of them, or their index, exceed 32 bits |
| `MergeIters.TwoChildrenIff` | src/table/iter.rs:350-378 | every merge node gets two children if and only if the number of streams is 2, 4, 8, ... |
| `MergeIters.Next` | src/table/iter.rs:268-283 | one step of a tree terminates and delivers the first of the rows that are left, or says that none is left; on a fresh tree it panics if and only if some node has one child |
| `MergeIters.Round` | src/table/iter.rs:453-471 | one round of the loop leaves the rows still to be delivered the same and does work; a node with one child stays at fault until it panics |
| `MergeIters.MergeNext` | src/table/iter.rs:439-474 | the loop of a merge node delivers the first row of the merge of its children |
| `MergeIters.Drain` | src/table/iter.rs:439-474 | a whole run gives exactly the rows of the merge, in order, including which stream a duplicate key is taken from |
| `MergeIters.NewDelivers` | src/table/iter.rs:350-378 | the tree over sorted streams delivers the two-way merges of its halves |
| `MergeIters.MergedIsUnion` | src/table/iter.rs:350-474 | that is ascending, has exactly the keys of the streams, and only rows of theirs |
| `MergeIters.MergeAll` | src/table/iter.rs:350-474 | on fresh sorted streams, merging panics if and only if their number is not 2, 4, 8, ...; otherwise the result is the sorted union of their keys, each with the row the merge function names |
| `Tries.GetSound` | src/util/tire.rs:53-67 | an id that is found is filed under a pattern that matches |
| `Tries.GetComplete` | src/util/tire.rs:53-67 | an id filed under a pattern that matches is found |
| `Tries.SetHas` | src/util/tire.rs:84-128 | a push files exactly one pair more |
| `Tries.DelHas` | src/util/tire.rs:84-128 | a delete removes exactly one pair |
| `Tries.PruneGet` | src/util/tire.rs:68-83 | pruning changes no lookup |
| `Tries.PruneLeavesNoEmpty` | src/util/tire.rs:68-83 | pruning leaves no empty node below the root |
| `Tries.DeleteUndoesPush` | src/util/tire.rs:45-52 | deleting what was just pushed gives back the very same trie |
| `Tries.AgreesIff` | src/util/tire.rs:53-67 | a pattern matches what it is meant to, for all keys, if and only if no position before its last one is ignored |
| `Tries.PrefixMatches` | src/util/tire.rs:37-44 | a pattern without ignored positions matches the keys that start with it |
| `Tries.Trie.PushMatch` | src/util/tire.rs:50-52 | one pair more is filed |
| `Tries.Trie.DeleteMatch` | src/util/tire.rs:45-49 | one pair less, and no empty node |
| `Tries.Trie.Lookup` | src/util/tire.rs:42-44 | exactly the ids filed under a matching pattern |
| `Blooms.SetProbes` | src/util/bloom.rs:59-67 | sets the bits of all probes of one hash and no other |
| `Blooms.DeltaRotates` | src/util/bloom.rs:59-61 | the step between probes is the hash rotated by 17 bits |
| `Blooms.ProbeIs` | src/util/bloom.rs:61-66 | the i-th probe is the hash plus i times that rotation, modulo 2^32 and the number of bits |
| `Blooms.New` | src/util/bloom.rs:44-70 | the bits are exactly the probes of the hashes; the last byte is the number of probes |
| `Blooms.MayContain` | src/util/bloom.rs:25-41 | yes if and only if all probes are set, with both lengths recovered from the filter |
| `Blooms.NoFalseNegatives` | src/util/bloom.rs:25-70 | every hash that went in passes |
| `Blooms.PassesIff` | src/util/bloom.rs:25-70 | a hash passes if and only if each of its probes is a probe of some hash that went in |

## Left out

- Managed transactions and conflict detection: commit records are pushed only for managed transactions, timestamps are allocated only for the others.
- Timestamps in the protocol are unbounded: overflow of the 64-bit counter is not modelled.
- Progress.TxnMoves: steps can be taken; that a scheduler takes them is not modelled, and after the write loop has stopped requests are not answered.
- Channel capacities, closed channels and errors on sending; the `indices` of a mark, which are always empty.
- The memtable is a sequence of applied requests in the protocol; `MemTables` is about one memtable, not about rotation, during which the old table is briefly in neither list.
- Concurrent pushes into the skip list, and `is_empty`; arena memory is nodes by offset, with alignment as `RoundUp8`.
- MergeIters.Next: the tree is a value that is replaced, since every node owns its children; `next_back` and `seek` are not modelled.
- BlockIters.BlockIter.Next: on a block that holds rows; `seek` is not modelled.
- TableIters.Open: corrupt files are covered up to the errors of `InitIndex`, `GetBlock` and `ParseBlock`, not in the iterators above them.
- TableFiles.TableBuilder.Finish: sizes above 32 bits are a failure, while a release build of the source would wrap around.
- TableFiles.TableBuilder.Push: stale sizes, on-disk sizes and the capacity estimate are statistics and not modelled; where compaction cuts tables is an arbitrary function of the number of entries.
- Compact.SubCompact: the merged stream is a list, the seek finds the start of the range as it is meant to, and a table without entries is not full. All tasks of a plan share one discard timestamp and overlap flag, while each task of the source asks for its own. Prefixes to drop, which are always empty in the plans made, are not modelled.
- Compact.AddKeys: the iterator is advanced after every entry; the loop as it stands in the source is the subject of `AddKeysLoop`.
- StoreStep.CompactStore: of the state of a store it takes the order that compactions and flushes are proved to keep; that a flushed memtable is newer than the store is a premise of `Level0Order.FlushKeepsOrder`. A reader between `replace` and `delete` finds both the old and the new tables.
- StoreOrder.UnseenIff: tables may hold anything between their bounds, so that the condition is about bounds; a real table also holds the keys at its bounds.
- PlainCodec.PlainIsSound: the encoding of the index is not the one of the source, which is abstract in the model.
- TableIters.RoundTrip: where the builder ends a block is not part of what is stated about a table that is too large.
- Compression, encryption, checksums and the encoding of the index are abstract; packing may depend on a nonce but can be undone.
- Blooms.New: the number of probes and the bits per key are parameters, because the source computes them in floating point; `unchecked_add` is taken modulo 2^32, and the hash function is a parameter.
- Tries.Trie.PushMatch: the flags of ignored positions are given; the parser of their textual form is not modelled. Nodes are values, since every node owns its children.
- Scores and targets of levels (floating point); which tables are candidates of a plan, and in which order, is a parameter.
- Concatenated table iterators, reads through the levels, the write-ahead log, the value log and its discard statistics, the manifest, caches, memory maps and files.
