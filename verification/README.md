# Verified model of RenoP's storage and caching core

This project models the parts of RenoP in which an error is hardest to see by reading one
function, and proves what they promise:

- **The content-addressed S3 store** (`ContentStore*.dfy`). Large objects are a pointer at the
  logical key, one immutable payload per digest, and one durable marker per (digest, key). The
  store is a state machine whose atomic steps are remote calls, lock acquisitions and lock
  releases. Any number of operations are in flight; a remote call may fail before or after it
  took effect, the process may crash between any two steps, time passes, and a foreign writer may
  replace or delete ordinary objects. The machine follows the paths without a local index.
- **The ClickHouse INSERT key extractor** (`SqlText`, `SqlPrinter`, `InsertKeys`,
  `InsertKeysAgreement`, with `Decimals`). The byte scanners are loops, each proved against a scanner
  over masked text; the extractor is proved to agree with a printer of statements.
- **The bounded, sharded byte cache** (`FileCache.dfy`), a class over an array of shards.
- **Hard-link deduplication on disk** (`DiskDedup.dfy`), over a file system of paths, inodes and
  nodes in which every system call may fail.
- **The authentication cache** (`IndexedMap`, `AuthCache`, `AuthCoherence`): the map whose values may
  live in an external store, the bounded cache over it with its wrapping counter, and the
  interleaving of readers and mutators.
- **Three smaller refinements**: bounded search (`SearchTopK`), the managed Caddyfile block
  (`CaddyBlock`) and the list of recent addresses (`DeviceAccess`).

`dafny verify dfyconfig.toml` checks everything.

## Assumptions

- SHA-256 does not collide on the contents at hand, and S3 is strongly consistent: a call takes
  effect, if at all, before it returns.
- An entity tag identifies a body. A digest learned for a tag is the digest of that tag's body.
- Strings are byte strings, one character a byte.
- A target path is never one of the names CreateTemp makes.
- What fails, what a remote store drops, in which order a map is enumerated and what the time is
  are unconstrained, unless a statement says otherwise.

## Where the code does less than it means to

- **Read grace.** The graceful collector is meant to let a payload outlive its last reference by a day
  (`internal/artifactstore/s3.go:35`, `:370-371`). Three faults can take that away: the PUT of a reference
  reports an error although it took effect, the unchecked removal of the garbage mark fails, or the process
  dies between the two. After any run, the grace of a payload that is present can be lost without a further
  fault if and only if its mark is older than a moment in which some key pointed to it, now or less than a
  day ago, and no writer is about to drop the mark (`ContentStoreGraceLoss.GraceLostIff`). Exactly such a
  fault that leaves the mark so old brings this about (`ContentStoreGrace.StepStaysSafe`,
  `ContentStoreGrace.SpoiltIsAtRisk`); `ContentStoreGraceFailure` has runs with each of the three.
- **Deduplicating a known object** keeps its bytes and size always, but its modification time exactly
  if the recorded time is positive and still the object's own, because an entity tag does not identify
  the moment of a write (`ContentStoreTheorems.DedupInvisible`; a run in which the time goes back is
  `ContentStoreDedupTime.DedupCanTurnBackTime`).
- **The mode of a committed file.** When no native rename works, the fallback copies through a file made
  by CreateTemp and never changes its mode, so the target ends with mode 0600. The bytes are right in
  any case. Every commit keeps the mode if and only if a native rename works or the mode is 0600
  (`DiskDedup.Disk.Commit`, `DiskDedup.ModeKeptExactly`; `DiskDedup.CopyingLosesTheMode` is about commits
  that do not, `DiskDedup.CommitLosesTheMode` is one).
- **Commit consumes the staged file** only in part. When no call fails the staged path stays if and only if
  it and the target already were links to one inode and no hinted candidate verifies: then the rename does
  nothing (`DiskDedup.Disk.Commit`; `DiskDedup.CommitCanLeaveStaged` is such a commit). With a verified
  candidate the staged path is removed in any case.
- **WriteFile** registers the removal of its staged name before it creates the file, so a name that is
  already in use is removed by the failing call (`DiskDedup.Disk.WriteFile`).

## Model

| member | source | states |
|---|---|---|
| ContentStoreSafety.StepKeepsInv | internal/artifactstore/s3.go:149-342 | Every step of the machine (a call that fails before or after its effect, a lock step, a crash, a foreign write) keeps the invariant: payloads match their names, every pointer has payload, size and marker, and each operation in flight still knows what its program point relies on |
| ContentStoreSafety.Undisturbed | internal/artifactstore/s3.go:49-58 | What an operation relies on survives every step of operations that hold other lock stripes |
| ContentStoreSafety.WriterStepConsistent | internal/artifactstore/s3.go:149-226 | No step of a writer breaks a pointer, including uploads and marker removals whose outcome is unknown |
| ContentStoreSafety.CollectorStepConsistent | internal/artifactstore/s3.go:438-513 | No step of a collector breaks a pointer |
| ContentStoreSafety.CollectorStepKnows | internal/artifactstore/s3.go:448-495 | While it reads markers the collector still has every key that points to the digest before it; past the last marker none points there |
| ContentStoreSafety.MoveKeepsLocks | internal/artifactstore/s3.go:49-58 | The lock tables hold exactly the stripes that the program points of the operations say, one holder each |
| ContentStoreTheorems.ReferenceSafety | internal/artifactstore/s3.go:149-226 | In every state of every run, a key that points to a digest finds the payload there, with that digest and the recorded size, and the marker that protects it |
| ContentStoreTheorems.StepRefinesMap | internal/artifactstore/s3.go:91-116 | Seen through pointer resolution every step is one change of a plain map at the operation's own key or no change at all; uploads, markers, locks, crashes and collections are invisible |
| ContentStoreTheorems.ExactlyOneChange | internal/artifactstore/s3.go:149-342 | A writer that returns success has changed the logical map exactly once, one that fails at most once |
| ContentStoreTheorems.ChangeIsIntended | internal/artifactstore/s3.go:118-342 | The one change, made since the operation last began, is the one the call was made for: the bytes, size and time of the upload, or the removal of the key |
| ContentStoreTheorems.ChangesAreCounted | internal/artifactstore/s3.go:149-226 | The changes an operation has made to the view over a run are those it counted |
| ContentStoreTheorems.PutFileTakesEffect | internal/artifactstore/s3.go:118-147 | Putting a file of any size, installed or as an ordinary object: when the call has returned success, exactly one step since it began has put the whole file at its key with the time of that step, and no other step of the call changed anything |
| ContentStoreTheorems.DedupInvisible | internal/artifactstore/s3_index.go:182-197 | A published deduplication keeps bytes and size, shows the recorded time, and changes nothing at all exactly if the recorded time is positive and still the object's |
| ContentStoreGrace.GraceHolds | internal/artifactstore/s3.go:496-512 | In a run without a spoiling fault a graceful collection deletes a payload only 24 hours or more after the last moment any key pointed to it |
| ContentStoreGrace.StepStaysSafe | internal/artifactstore/s3.go:189-219 | No step but a spoiling fault puts the grace at risk, whatever else fails, crashes or interferes |
| ContentStoreGrace.SpoiltIsAtRisk | internal/artifactstore/s3.go:206-218 | Every spoiling fault does put it at risk |
| ContentStoreGraceLoss.GraceLostIff | internal/artifactstore/s3.go:438-513 | After any run the grace of a present payload can be lost without a further fault if and only if its mark is at risk |
| ContentStoreGraceLoss.OldMarkRetires | internal/artifactstore/s3.go:496-512 | Behind a mark that is a day old, foreign deletes and graceful passes retire the payload at this very moment, whoever pointed to it |
| ContentStoreGrace.MarksAreHonest | internal/artifactstore/s3.go:207-220 | In a run without the three faults, a garbage mark that no writer is about to drop was written after the last moment any key pointed to the digest |
| ContentStoreGraceFailure.GraceFailsBehindOldMark | internal/artifactstore/s3.go:218-218 | A run in which only the unchecked removal of the mark fails, and a referenced payload is retired at the moment its last pointer goes |
| ContentStoreGraceFailure.EachFaultSpoils | internal/artifactstore/s3.go:206-218 | A run that reaches the publication of a reference behind an old mark, where each of the three faults is possible and spoils the grace |
| ContentStoreDedupTime.DedupCanTurnBackTime | internal/artifactstore/s3.go:159-195 | A run in which the same contents are written twice and a deduplication learned from the first write makes the object show the earlier time |
| ContentStoreProgress.NoDeadlock | internal/artifactstore/s3.go:149-226 | Whatever keys and digests share lock stripes, in every reachable state with an unfinished operation some operation can take a step |
| ContentStoreProgress.MoveProgresses | internal/artifactstore/s3.go:438-513 | Every step of every operation makes progress through its program or its marker loop |
| ContentStoreProgress.MovesEnd | internal/artifactstore/s3.go:149-342 | No schedule and no faults keep the operations in flight moving for ever |
| ContentStoreProgress.EverythingReturns | internal/artifactstore/s3.go:149-342 | From every reachable state all operations in flight can return, with every lock free again |
| ContentStoreCollection.EveryPass | internal/artifactstore/s3.go:438-513 | Every undisturbed pass over a digest nobody references, in whatever order its markers are listed, ends in success with all its markers or ten thousand of them dropped, and past the last one writes the mark, waits, or deletes payload and mark |
| ContentStoreCollection.SoloPass | internal/artifactstore/s3.go:438-513 | Left alone such a pass does come to its end, and leaves every lock as it found it |
| ContentStoreCollection.PassesConverge | internal/artifactstore/s3.go:438-513 | In every run of the machine that makes pass after pass: for any number of stale markers, enough passes to see them all and one more a day later leave no marker, no mark and no payload |
| ContentStoreTidy.MarkersAreExact | internal/artifactstore/s3.go:222-224 | In runs without faults, whenever nothing is in flight the markers are exactly the pointers: none is left behind and none is missing |
| SqlText.MatchingParenthesis | internal/database/clickhouse_sql.go:128-156 | The loop finds where the parenthesis closes in the text with its quoted parts blanked, or -1 |
| SqlText.SplitTopLevelList | internal/database/clickhouse_sql.go:158-193 | The loop cuts at exactly the commas that the blanked text shows outside parentheses, and trims the parts |
| SqlText.CountSqlPlaceholders | internal/database/clickhouse_sql.go:277-301 | The loop counts the placeholders of the blanked text, backslashes protecting the next quoted byte |
| SqlText.FindTopLevelKeyword | internal/database/clickhouse_sql.go:239-275 | The loop finds the first whole-word occurrence outside quotes and parentheses, in any letter case |
| SqlPrinter.MaskShow | internal/database/clickhouse_sql.go:132-142 | Scanning printed text blanks exactly its quoted parts, doubled quotes included, whatever follows it |
| SqlPrinter.MatchFindsCloser | internal/database/clickhouse_sql.go:128-156 | The parenthesis around any balanced text is found to close right behind it |
| SqlPrinter.SplitReadsList | internal/database/clickhouse_sql.go:158-193 | Splitting a printed list, each item with its own space on both sides, gives back the text of each item |
| SqlPrinter.CountFindsHoles | internal/database/clickhouse_sql.go:277-301 | The placeholders counted in a printed text are those it was printed with, none inside quotes |
| SqlPrinter.FindSkipsList | internal/database/clickhouse_sql.go:239-275 | The keyword behind a printed list is found there, and not inside an expression, a literal or a longer word |
| InsertKeys.EncodeClickHouseKey | internal/database/clickhouse_sql.go:115-126 | The loop writes the length-prefixed encoding whose decoder is given |
| InsertKeys.ReadRow | internal/database/clickhouse_sql.go:76-92 | The two inner loops bind each key column's expression to its own argument or literal, and advance the argument index by the placeholders passed |
| InsertKeys.ReadKey | internal/database/clickhouse_sql.go:93-100 | The key columns' values in schema order, or the error for a column left out |
| InsertKeys.ReadKeys | internal/database/clickhouse_sql.go:69-103 | Row by row the encoded key, the argument index carried over, or the first row's error |
| InsertKeys.ReadGroups | internal/database/clickhouse_sql.go:46-56 | The expressions of each parenthesised group, or the error for a malformed one |
| InsertKeys.ReadRows | internal/database/clickhouse_sql.go:41-65 | The expression rows of a VALUES or SELECT source, the condition cut off, or the error for any other source |
| InsertKeys.ReadHeader | internal/database/clickhouse_sql.go:31-41 | The column list and the source behind it, or the error for a missing or unclosed list |
| InsertKeys.ClickHouseInsertKeys | internal/database/clickhouse_sql.go:31-104 | The extractor computes the specification that the agreement theorems are about, errors included |
| InsertKeysAgreement.DecodesKey | internal/database/clickhouse_sql.go:115-126 | The decoder recovers any sequence of optional texts from its encoding |
| InsertKeysAgreement.KeysAreInjective | internal/database/clickhouse_sql.go:115-126 | Keys of any lengths are equal only if their values are |
| InsertKeysAgreement.KeysArePrefixFree | internal/database/clickhouse_sql.go:115-126 | Keys of one schema with anything behind them are equal only if keys and rests are |
| InsertKeysAgreement.RowReads | internal/database/clickhouse_sql.go:76-92 | In a printed row every placeholder is bound to its own argument, also behind expressions that hold placeholders themselves |
| InsertKeysAgreement.HeaderReads | internal/database/clickhouse_sql.go:31-41 | The header of a printed statement is read as its columns, quoted or bare and however spaced, and its source |
| InsertKeysAgreement.ValuesAgree | internal/database/clickhouse_sql.go:22-104 | For every printed VALUES statement, with any space between its parts, the extractor returns, row by row, exactly the keys the statement writes |
| InsertKeysAgreement.SelectAgrees | internal/database/clickhouse_sql.go:22-104 | For every printed SELECT statement, with or without a condition and with any space, it returns exactly the key the statement writes |
| FileCache.HashKey | internal/core/file_cache.go:90-101 | The loop computes the 32-bit hash that the placement of entries is stated with |
| FileCache.SumWithout | internal/core/file_cache.go:203-204 | Taking an entry out of the contents takes exactly its cost out of either total |
| FileCache.Filter | internal/core/file_cache.go:306-313 | The in-place pass keeps exactly the live keys of the queue, in order |
| FileCache.LiveKeepsOrder | internal/core/file_cache.go:306-313 | Compaction keeps every occurrence of every live key and nothing else |
| FileCache.RotationAdvances | internal/core/file_cache.go:263-268 | Rotating the protected key to the back brings the next victim nearer and does not change it, which is why eviction terminates |
| FileCache.FileByteCache.CompactOrder | internal/core/file_cache.go:289-320 | A queue is dropped with its last entry, or rid of its stale keys once they are too many; entries and totals stay |
| FileCache.FileByteCache.EvictOne | internal/core/file_cache.go:258-287 | Terminates, evicts exactly the first live key of the queue other than the protected one, and finds one unless the shard holds no other entry, so the search behind the loop never finds anything |
| FileCache.FileByteCache.TrimToMax | internal/core/file_cache.go:231-255 | Terminates with both budgets met and the protected entry in place, having evicted only while a budget was exceeded |
| FileCache.FileByteCache.Set | internal/core/file_cache.go:143-191 | A value that fits is retrievable, both budgets hold, nothing else changes but for needed evictions; one that can never fit removes the key; all accounting and placement invariants hold |
| FileCache.FileByteCache.Get | internal/core/file_cache.go:104-140 | Returns the stored bytes of the key, or a miss exactly if there is no entry |
| FileCache.FileByteCache.Delete | internal/core/file_cache.go:194-211 | Removes exactly this key from entries and totals, keeps budgets that held, compacts the queue of its shard, and leaves every other shard alone |
| FileCache.FileByteCache.Clear | internal/core/file_cache.go:323-343 | Leaves an empty cache with totals of zero |
| FileCache.HitsAreLatest | internal/core/file_cache.go:104-211 | Over any run, a hit returns the bytes of the latest Set that no Delete or Clear followed |
| FileCache.SetStaysFound | internal/core/file_cache.go:143-191 | A value that can be stored is still found after any number of later calls that leave its key alone and exceed no budget; one that cannot leaves no entry |
| DiskDedup.Disk.CopyAndReplace | internal/utils/path.go:72-110 | The fallback succeeds exactly if its calls do, leaves the source's bytes with mode 0600 at the target, and touches no other path |
| DiskDedup.Disk.SafeRename | internal/utils/path.go:47-70 | Which of native rename, copy or failure happens follows from the failing calls; success leaves the contents at the target, failure and a missing source touch nothing, links to one inode are left alone |
| DiskDedup.Disk.Commit | internal/artifactstore/disk.go:151-192 | For every hint table: success leaves the staged bytes at the target and touches no other path; failure touches nothing. How it ends, whether the mode is kept, and (when no call fails) whether the staged path stays are told exactly from the file system, the hints and the failing calls |
| DiskDedup.Disk.ReuseExisting | internal/artifactstore/disk.go:102-146 | Every path, the target included, reads what it read before; after a native rename the target shares another file's inode. Whether it links, leaves everything alone, only remembers the target or reports an error is told exactly from the file system, the hints and the failing calls, and an error leaves the hints alone |
| DiskDedup.Disk.WriteFile | internal/artifactstore/disk.go:195-214 | Success leaves the data at the path and touches no other path; failure touches nothing; a staged name already in use is removed and the call fails |
| DiskDedup.Disk.LinkCandidate | internal/artifactstore/disk.go:165-180 | A link is kept if and only if it can be made and read and the linked inode itself holds the wanted contents; otherwise no path is touched |
| DiskDedup.ModeKeptExactly | internal/utils/path.go:56-68 | Every successful commit, with a hint or without, keeps the mode if and only if one of the native renames works or the mode is 0600 |
| DiskDedup.CopyingLosesTheMode | internal/utils/path.go:78-78 | On every disk a commit without a hint whose renames fail and whose copy works reports success, and the target has mode 0600, whatever mode was staged |
| DiskDedup.CommitLosesTheMode | internal/utils/path.go:56-78 | Such a commit of a file with any bytes and mode: the disk after it |
| DiskDedup.CommitCanLeaveStaged | internal/artifactstore/disk.go:184-191 | A commit in which nothing fails: on the disk after it the staged path still reads the staged file, because it and the target are links to one inode |
| DiskDedup.CommitSteps | internal/artifactstore/disk.go:151-192 | What a commit promises is a step of a run: the target has the staged bytes and no other path but the staged one changes, or nothing changes |
| DiskDedup.ReuseSteps | internal/artifactstore/disk.go:102-146 | What reusing promises is a step that changes no path's bytes |
| DiskDedup.WriteSteps | internal/artifactstore/disk.go:195-214 | What writing a file promises is a step that changes its path alone, or nothing |
| DiskDedup.PathsReadTheirLastCommit | internal/artifactstore/disk.go:100-214 | Over any run of the three operations every path reads what was last installed at it, however inodes are shared |
| IndexedMap.TakenMatches | internal/cache/value.go:121-137 | What a bounded enumeration removes matches, is within the limit, and leaves a match behind only for the limit |
| IndexedMap.SameTaken | internal/cache/value.go:121-137 | Enumerating projected values removes the same keys as enumerating the values, when the predicate cannot tell them apart |
| IndexedMap.HitIsCurrent | internal/cache/value.go:76-88 | In any run, a hit in external mode returns the value that a map in memory would return at the second lookup, whatever happened between the two, other calls included that have written their value and not yet exchanged their entry |
| IndexedMap.ModesAgree | internal/cache/value.go:94-137 | Run on the same calls, whatever the external store loses, external and memory mode hold the same keys after every call, and the external entries project the values in memory |
| IndexedMap.Batches | internal/cache/remote.go:226-247 | From each external store every blob is deleted once, in order, in full batches of 128 and at most one rest |
| IndexedMap.IndexedMap.Put | internal/cache/remote.go:159-179 | A reported blob names the written value under a key never used before; a failure, even one that wrote, disturbs nothing |
| IndexedMap.IndexedMap.Load | internal/cache/value.go:76-88 | A hit is the value a map in memory would return; in memory mode there is a hit whenever there is an entry |
| IndexedMap.IndexedMap.StoreTTL | internal/cache/value.go:94-100 | Whatever fails remotely, the keys are those of a map in memory after the same store |
| IndexedMap.IndexedMap.LoadAndDelete | internal/cache/value.go:103-109 | Whatever fails remotely, the key is gone, as in memory |
| IndexedMap.IndexedMap.DeleteMatching | internal/cache/value.go:121-137 | Removes exactly what the same enumeration of a map in memory removes, and counts it |
| AuthCache.SelectsTheSame | internal/core/cache.go:22-157 | The invalidation predicates (expired, accounts, token, everything) select the same keys on projected entries as on full ones |
| AuthCache.WrapSubtracts | internal/core/cache.go:78-80 | Adding the complement of n - 1 to a 64-bit counter subtracts n |
| AuthCache.AuthCache.Evict | internal/core/cache.go:72-81 | A full cache gives up expired entries, all or a thousand; only without any, two thousand others or all; the counter still equals the number of entries |
| AuthCache.AuthCache.StoreIfCurrent | internal/core/cache.go:62-84 | A result of an older generation is dropped; a current one is stored, at no other entry's cost unless the cache is full; the counter equals the number of entries and never exceeds ten thousand |
| AuthCache.AuthCache.Delete | internal/core/cache.go:87-95 | Advances the generation and removes exactly the key, counter included |
| AuthCache.AuthCache.Clear | internal/core/cache.go:97-104 | Advances the generation and leaves no entry |
| AuthCache.AuthCache.DeleteWhere | internal/core/cache.go:106-115 | Advances the generation, removes exactly the selected entries, and returns their number |
| AuthCoherence.StepKeepsCoherent | internal/core/cache.go:61-115 | Every step of readers, mutators and housekeeping keeps cached and still cacheable results right or awaited by an invalidation |
| AuthCoherence.NoStaleResults | internal/core/cache.go:61-115 | In every interleaving a cached result that is wrong implies a mutator that has written, has not yet invalidated, and whose invalidation removes this entry |
| AuthCoherence.QuietCacheIsRight | internal/core/cache.go:61-115 | With no invalidation outstanding every cached result is what the backing store gives |
| AuthCoherence.InvalidatingFirstFails | internal/core/cache.go:61-67 | A sequence of steps in which a mutator invalidates before it writes, and a wrong result stays with nothing outstanding |
| SearchTopK.BetterIsStrictTotal | internal/api/search_files.go:34-45 | The comparison is irreflexive, asymmetric, transitive, and total on different paths |
| SearchTopK.SortAllSorts | internal/api/search_files.go:34-45 | The reference result is sorted and a permutation of the candidates |
| SearchTopK.Search | internal/api/search_files.go:84-84 | The binary search finds the first kept match the candidate beats |
| SearchTopK.InsertAt | internal/api/search_files.go:88-92 | Shifting in place inserts the candidate and drops the last match of a full list |
| SearchTopK.BestMatches | internal/api/search_files.go:59-94 | The bounded walk ends with exactly the first limit of all candidates sorted |
| SearchTopK.BestOfAnyOrder | internal/api/search_files.go:59-94 | The result is the same for every order of the walk: the first limit of any sorted permutation of the candidates |
| CaddyBlock.UniqueLineOffset | internal/caddy/config.go:197-211 | The offset of the one line that is the marker, -1 for none, an error for two |
| CaddyBlock.BuildCaddyfile | internal/caddy/config.go:85-142 | Editing by offsets is editing line by line, in the file's line ending, errors included |
| CaddyBlock.EditKeepsLines | internal/caddy/config.go:114-137 | Every line outside the block survives in place, up to blank lines at the end of a text without a block; the block is between its markers |
| CaddyBlock.EditTwice | internal/caddy/config.go:114-137 | Editing for the same hostname again is editing once with the later port |
| CaddyBlock.CrlfRoundTrip | internal/caddy/config.go:97-97 | Normalizing undoes the conversion back to CRLF |
| CaddyBlock.LastBuildWins | internal/caddy/config.go:85-142 | For text without a lone carriage return, building again with another port gives what building once with it gives, and never fails |
| DeviceAccess.TouchTruncated | internal/core/state_sessions.go:122-130 | What the bounded list forgot never matters again |
| DeviceAccess.RecentListsEach | internal/core/state_sessions.go:122-130 | The unbounded list holds every address seen, once |
| DeviceAccess.RecentIsLatestFirst | internal/core/state_sessions.go:122-130 | The unbounded list is ordered by when each address was last seen |
| DeviceAccess.DeviceRecord.Access | internal/core/state_sessions.go:119-133 | After any history the stored list is the first ten of the most recently seen addresses |

## Left out

- The paths that use a local S3 index (`remember`, `ResolveListed`, `MarkGarbage`, the learning reader): the index is written without the target lock, so agreement with the bucket is no invariant; that a learned digest belongs to its tag is an assumption.
- The listing of digests in `Collect`, staging cleanup, and the hashing of streams: they call the modelled operations.
- Remote effects that land after the failing call returned, and several processes on one bucket: the locks are local to the process.
- Reading a marker's body is one step with listing it; markers are identified by digest and key, as if hashes of keys did not collide.
- The table name in front of an INSERT's column list, found by a regular expression: the model begins behind it.
- Upper-casing and trimming of non-ASCII text, and statements with backslashes inside quotes, which the placeholder counter and the list splitter treat differently: the printer prints none.
- The printing of argument values: they are SQL NULL or the text they print as.
- The externally stored values and the concurrent use of the byte cache: each operation is one step, with values in memory; the capacity of queues and maps is not modelled.
- FIFO order of evictions as a whole and a bound on queue length: stale keys that become live again make both false.
- Directories, link counts, permissions beyond the permission bits, partially written files and the umask; a rename onto a directory counts as a failing call.
- A commit whose staged and target paths are the same path: callers never make one. An attempt to rename that reports a missing file although the source is there (its directory vanished) counts as a failing attempt.
- ContentStoreGraceLoss.GraceLostIff: for payloads whose marked keys have between 1 and 4096 bytes, as S3 keys do; a pass refuses any other marker.
- Wrap-around of the generation, of the blob sequence, and encryption, serialization, connection pooling and retry delays of the external cache.
- AuthCoherence.NoStaleResults: about mutators that write and then invalidate; dropping a session's copy after invalidating is outside it.
- Folding and trimming of account names, and the call with an empty token, which does nothing.
- The walk's filters, scan limit and counters in search; the result's messages.
- Normalization of hostnames, the YAML settings, and ports above 65535, which the source's type excludes.
- The other fields of a device record, and the map that finds it.
