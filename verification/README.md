# dupion, verified

A Dafny model of the algorithms inside dupion, a finder of duplicate files and directories, and
of the three libraries it is built on: the directory walker platter-walk, the read-ahead window
reapfrog, and the LZO page framing of rust-btrfs. `dafny verify dfyconfig.toml` checks all of it.

What is proved, from the scan to the deduplication:

* **Directory walk.** A walk over any trees, with any physical offsets (also colliding ones) and
  any batch size, ends; it reports every error, and its batches are full (but the last) and sorted by
  content offset. Over disjoint roots it opens every directory once and hands out every entry that
  passes the filter once. Which directory is opened when, and which entry is in which batch, is exactly
  that of a small specification on values, in which offsets never decrease between two turns of the
  cursor.
* **Arena.** The vector of entries is a trie that refines a map from paths to ids. Lookup finds
  exactly the stored paths; creating a path adds exactly its missing prefixes and disturbs no earlier
  lookup.
* **Selective hashing.** The scan is a step machine of three passes in which archive members appear at
  any moment of the second one; the loops of the three passes are proved to be runs of it. Along every
  run, also with failing reads, a scanned file ends up with a hash exactly if the cache had one, an
  archive member was written to its very entry, or its size is within the limits and shared and the last
  pass did not fail to read it; a scanned archive ends up with a hash, and as a directory, too, exactly
  if the last pass did not fail to read it. Along every careful run (no scanned path at or below another
  one, archive members below a scanned path and new or unchanged) the hash index agrees with the arena.
  And from the disk to the groups: after the scan and the directory hash of any files within the size
  limits, all readable, none an archive or an unchanged file stored as one, two different directories
  with the same tree of names and contents are in one hash group, although only files of shared size are
  ever read (`DupDirs.ScanAndHash`). Of the cache this asks that the hash of an unchanged file is true
  and that hashes stored below it come with their sizes; what else it holds makes no difference.
* **Directory hash, shadowing, tree comparison.** Directories of equal trees get equal hashes, and equal
  hashes mean equal names and hashes of the children wherever the code's hashing without delimiters can
  tell (`HashNames.SameHashIff`). The recursive walks that write into the arena are methods proved
  against closed forms: which directories get a hash and what its size is, which entries are in the
  shadow of a duplicate, and which result every entry of compared trees ends with, whatever the order of
  the roots.
* **Deduplication plan.** Which file is the source, which files are duplicates, that no file is used
  twice, and that the batch planner keeps every task, in order, within the limits on files and
  cache, taking as much as fits and cutting a group only where it must.
* **Read-ahead window.** The bound on what is prefetched and not read, the shape of the requests, and
  exactly which sources are delivered completely.
* **LZO framing.** The segments found lie inside the declared size, no length word crosses a page,
  and laid-out segments are read back exactly.

Code that updates state step by step is a class or a method with loops here, proved against functions and
relations on values; the lemmas are about those. Hash functions (`Hasher`), decompression (`inflate`), the
archive test (`isArchive`), the prefilter, the offsets and sizes on disk, the cache limits of the planner
(`limits`), how far the reader looks ahead (`ahead`), which files a pass can read (`readable`) and the
iteration order of a hash map (`order`) are parameters. Lemmas switch automatic induction off; inductions
are written out.

Where the code does not do what one would expect, the model follows the code:

* After an open error, reapfrog's `next` pops the front a second time on the following call, so the
  file behind the failing one is never delivered (`Readahead.DeliversAllIff`, `Readahead.ErrorSkipsNext`).
  With a budget below one block it may also report the end while files are left (`Readahead.EarlyEnd`;
  the contract of `next` says exactly when).
* Sizing a path again whose file changed, after it was already grouped, leaves a stale member in its
  old hash group (`Index.SizeKeepsHashesIff` for the condition, `StaleMember.SizedTwice` for a run).
* A file that did not change revives everything the cache holds below its path. Where a directory was
  replaced by a file, the files it held come back into the groups on the second scan after that,
  although they are gone (`ScanTree.OffDiskIff` says exactly which entries,
  `GhostFiles.ReplacedDirectory` gives a run).
* Grouping asserts that one hash comes with one size. A file that holds the bytes a directory is hashed
  from has the hash of that directory, so the assertion can fail without a collision of the hash
  function (`HashSizes.PreimageClash`; `HashSizes.PremisesMetIff` says exactly on which files the premise that
  rules this out can be met).
* The cached hash of a file that is gone still counts in the tree comparison and for the shadows: an
  entry may match a file the other root no longer has, equal directories may be told apart, and a
  directory that replaced a file may cast a shadow (`StaleHashes.MatchMeans`,
  `StaleHashes.GoneStillMatches`, `StaleHashes.CasterIsDuplicateIff`).
* The planner divides by the length of the range when a group is too big, which is a division by zero
  exactly for groups of an empty range with 127 or more duplicates (`Planner.PlannableIff`).
* An archive member whose path is that of a scanned file replaces the size and hash of that file
  (`Scans.DecodeOverwrites`, and `OverwrittenFile.MemberOverFile` for a run); three-pass completeness is
  stated with this case.
* A batch size of 0 behaves like 1, because an entry is pushed before the size is compared.

## Model

| member | source | states |
|---|---|---|
| DedupGroups.DedupGroup.SplitOffEndAtCandidateN | dupion/src/dedup/mod.rs:189-200 | the head keeps the first duplicates, the returned group has the others, all else is equal, and the tasks of both in order are those of the group before |
| DedupGroups.SplitKeepsTasks | dupion/src/dedup/mod.rs:190-200 | cutting a list of duplicates anywhere loses, repeats and reorders no task |
| Planner.BtrfsDedup.DedupGroups | dupion/src/dedup/btrfs.rs:33-117 | for any input and any cache limits: the batches in order hold exactly the tasks of the input in order; batch k opens at most 127 files and touches at most limit k, or is a lone pair that exceeds it, and the group waiting behind it, which heads exactly the tasks left, would break a limit; input groups stay whole, but where one alone is cut off behind as many of its files as the limits allow, and then its other part waits first; terminates; the counters grow by the number and bytes of all tasks |
| Planner.BtrfsDedup.Checklist | dupion/src/dedup/btrfs.rs:35-109 | the checklist loop ends with a buffer that obeys the limits and leaves nothing out that would still fit, an empty buffer only when the queue is empty, and buffer plus queue hold the tasks of the queue before; a group is cut only when alone, and then one more of its files would break a limit |
| Planner.BtrfsDedup.SplitHead | dupion/src/dedup/btrfs.rs:74-80 | the cut group stays alone in the buffer at the allowed size, its tail goes first in the queue, and the tail can not be taken back in this round |
| Planner.BtrfsDedup.Submit | dupion/src/dedup/btrfs.rs:111-114 | one more batch, which is not empty of tasks, obeys its limit, is accounted for in full, and is recorded with what is left of the input behind it |
| Planner.BtrfsDedup.DedupGroupBatch | dupion/src/dedup/btrfs.rs:137-158 | a simulated batch counts every task once, with the bytes of its range; files only with the last part of a group |
| Planner.BtrfsDedup.Totals | dupion/src/dedup/btrfs.rs:36-43 | file count and byte usage of the submit buffer |
| Planner.TotalsMean | dupion/src/dedup/btrfs.rs:36-43 | what the limits count, in terms of the tasks: one file for each group and one for each task, and the range of each |
| Planner.TaskBytesOne | dupion/src/dedup/btrfs.rs:137-158 | the bytes of one task are those of its range |
| Planner.UnsplittableIsAPair | dupion/src/dedup/btrfs.rs:74-82 | the second assertion of the loop can not fail: what is too big and can not be cut is one pair of files |
| Planner.TooBigIsAlone | dupion/src/dedup/btrfs.rs:64-72 | the first assertion of the loop can not fail: only a lone group exceeds a limit |
| Planner.PlannableIff | dupion/src/dedup/btrfs.rs:58-75 | a group makes the loop divide by a zero length, under any cache limit and whatever waits behind it, if and only if its range is empty and it has 127 duplicates or more |
| Planner.TailDoesNotFitBack | dupion/src/dedup/btrfs.rs:58-80 | a group cut to the allowed number of files breaks a limit with any two files of its tail, so a round cuts at most once |
| Planner.OneMoreIsTooMany | dupion/src/dedup/btrfs.rs:74-77 | with one file more than a group is cut to, it would break a limit |
| Planner.TakeStep | dupion/src/dedup/btrfs.rs:46-62 | taking the head of the queue is possible only before a cut and keeps tasks and limits |
| Planner.SplitStep | dupion/src/dedup/btrfs.rs:74-80 | cutting keeps the tasks in order and reaches the state in which nothing more can be taken |
| Planner.SubmitStep | dupion/src/dedup/btrfs.rs:111-114 | a submitted batch has at least one task and extends what was submitted before by exactly its tasks |
| DedupPlan.BestIndex | dupion/src/dedup/mod.rs:60-75 | the candidate returned is beaten by none and is the first of the best |
| DedupPlan.SelectMeaning | dupion/src/dedup/mod.rs:31-98 | the source is an eligible file of the group, eligibility written out; an id is a duplicate exactly if it is another eligible file with a different first extent (any other one when aggressive); each id once; the range is the whole file |
| DedupPlan.RankedAre | dupion/src/dedup/mod.rs:31-58 | the candidates are exactly the eligible files of the group, each once |
| DedupPlan.PlanUsesOnce | dupion/src/dedup/mod.rs:26-99 | given hash index agreement, no file occurs twice in the whole plan, as source or as duplicate |
| DedupPlan.PlanFrom | dupion/src/dedup/mod.rs:26-99 | the plan holds what was selected from the hash groups visited, in the order of the visits, and nothing else |
| DedupChoice.PlanCovers | dupion/src/dedup/mod.rs:26-99 | every group of size above 0 that has two files to bring together is planned, and each of its eligible files is the source, a duplicate, or shares the source's first extent already |
| DedupChoice.AverageIs | dupion/src/dedup/mod.rs:52-54 | the average offset of a planned group is the sum of the first extents of its eligible files over their number, rounded down |
| DedupChoice.DupsAscend | dupion/src/dedup/mod.rs:56-84 | the duplicates are listed by ascending offset |
| DedupPlan.SelectedCarry | dupion/src/dedup/mod.rs:29-48 | every file selected from a group carries the hash and the size of that group |
| DedupPlan.PlanPlannable | dupion/src/dedup/mod.rs:27-97 | every planned group has a range that is not empty, which is what the batch planner needs |
| DedupChoice.SourceIsBest | dupion/src/dedup/mod.rs:60-79 | no eligible file of the group has fewer extents than the source; with equally many, none shares its first extent with more files of the group; then none is older; then none is nearer to the average offset; then none lies in front |
| DedupChoice.SelectsIff | dupion/src/dedup/mod.rs:27-85 | a group plans something if and only if it is not of size 0 and has two eligible files with different first extents (any two when aggressive) |
| DedupChoice.CountSort | dupion/src/dedup/mod.rs:56-58 | sorting changes no count of files at an offset |
| DedupRun.SelectGroup | dupion/src/dedup/mod.rs:26-98 | the loop body computes the selection that the lemmas above characterise |
| DedupRun.Dedup | dupion/src/dedup/mod.rs:13-109 | a simulated run submits exactly the tasks of a permutation of the plan in which average offsets ascend, within the limits and with no batch that could have taken the group waiting behind it, and ends with processed files and bytes equal to relevant files and bytes, those of all tasks, across all splits |
| DedupRun.FlattenTotals | dupion/src/dedup/mod.rs:87-98 | number and bytes of the tasks in terms of duplicates and file sizes |
| Occurrences.CountPhysOccurrencesSorted | dupion/src/dedup/mod.rs:124-149 | in a slice sorted by physical offset, each element gets the number of elements with its offset, and no other field changes |
| Occurrences.NoneBehind | dupion/src/dedup/mod.rs:141-148 | elements with another offset behind a run do not count for it |
| Arenas.Vfs.Cid | dupion/src/vfs/mod.rs:14-25 | finds an id if and only if that entry holds the path |
| Arenas.Vfs.CidAndCreate | dupion/src/vfs/mod.rs:26-55 | the arena stays a tree and holds the path; old entries change only by becoming directories above it and by new children; new entries are fresh and lie on the path |
| Arenas.Vfs.ChildOf | dupion/src/vfs/mod.rs:84-98 | returns the child of that name, or none has it |
| Arenas.Vfs.InsertNewEntry | dupion/src/vfs/mod.rs:79-83 | appends, and returns the place |
| Arenas.Vfs.ForRecursive | dupion/src/vfs/entry.rs:160-170 | applies the function once to every entry below, and to the entry itself if asked, and to no other |
| Arenas.PathsUnique | dupion/src/vfs/mod.rs:14-25 | in every reachable arena a path has at most one entry |
| Arenas.PrefixStored | dupion/src/vfs/mod.rs:33-49 | with a path all its prefixes are stored, at ids that are not larger |
| Arenas.ChildTowards | dupion/src/vfs/mod.rs:84-98 | every entry below another one is reached through one of its children |
| Arenas.CreatedLookups | dupion/src/vfs/mod.rs:26-55 | after creating a path every earlier lookup gives the same id, and exactly the prefixes of the path became stored |
| Arenas.CreatedIdempotent | dupion/src/vfs/mod.rs:26-55 | creating a stored path again returns the id that lookup gives and adds no entry |
| Arenas.BelowIsBelowKids | dupion/src/vfs/entry.rs:165-168 | what lies below an entry lies at or below one of its children, and nothing else does |
| States.State.PushToSizeGroup | dupion/src/state/mod.rs:17-50 | the new size groups: unchanged for a unique entry, else the entry is a member of the group of its file size, of its directory size, or of both, as asked; no group loses a member |
| States.State.PushToHashGroup | dupion/src/state/mod.rs:51-90 | the new hash groups; the assertions on equal size and hash can not fail when equal hashes mean equal sizes |
| States.InfuseKeeps | dupion/src/state/mod.rs:57-77 | adding a member that carries the group's hash and size keeps all groups sound, keeps all members, and makes the id a member |
| Index.SharedSizeIff | dupion/src/state/mod.rs:91-94 | what `more_than_one_size` tells: there are two different files or hashed directories of this size |
| Index.SharedHashIff | dupion/src/state/mod.rs:112-118 | what more than one hash tells: two different entries carry the hash |
| States.State.IsFileReadCandidate | dupion/src/state/mod.rs:95-111 | true exactly for files without hash, of shared size, within the limits, and for archives without hash or not yet directories, written out on entry and groups |
| States.State.SetValid | dupion/src/vfs/entry.rs:200-235 | revives exactly the entries below an id, parents before children, and groups the files among them; of what is stored elsewhere nothing is asked |
| States.State.Validate | dupion/src/vfs/entry.rs:173-198 | a hit, exactly when change time and the given sizes agree, revives the subtree; a miss sets the entry's data to nothing, field by field, and changes nothing else |
| States.PreorderIsSubtree | dupion/src/vfs/entry.rs:227-235 | the recursion visits exactly the entries whose path starts with the path of the root |
| States.ValidateAllEntry | dupion/src/vfs/entry.rs:200-217 | validation marks the listed entries and changes no other |
| States.HitMeans | dupion/src/vfs/entry.rs:173-217 | a hit makes every entry at or below the path valid and what it was when it was stored, and changes no other, field by field |
| States.FoundMeans | dupion/src/driver/platterwalker.rs:166-182 | a file found is a file of its size, at its place on the disk, unchanged else, and in the groups of its size and of its hash, if it has one |
| States.HashedMeans | dupion/src/driver/platterwalker.rs:344-358 | storing a hash sets it, makes an archive a directory, too, changes nothing else in the arena, and puts the entry into the group of that hash |
| States.DecodedMeans | dupion/src/zip/mod.rs:54-69 | an archive member is a valid file that is no directory, of its size and hash and without a place on the disk, in both its groups |
| States.State.SizeFile | dupion/src/driver/platterwalker.rs:153-186 | the path is looked up or created, validated and put into the groups, in this order |
| States.State.CommitHash | dupion/src/driver/platterwalker.rs:344-358 | the hash is stored and grouped, and an archive becomes a directory, too |
| States.State.DecodeMember | dupion/src/zip/mod.rs:50-69 | the member is created below its archive as a valid file with size and hash, and grouped by both |
| Index.PutKeepsHashes | dupion/src/state/mod.rs:51-90 | storing a new value of an entry and grouping it keeps hash index agreement if the value respects what groups say about it |
| Index.PutKeepsSizes | dupion/src/state/mod.rs:17-50 | the same for size groups: each file of known size in its group, once |
| Index.GroupedFacts | dupion/src/state/mod.rs:57-77 | a member of a sound group is valid and carries the hash of the group |
| Index.CreatedKeepsIndex | dupion/src/vfs/mod.rs:26-55 | creating a path keeps both indexes |
| Index.ValidateAllKeepsIndex | dupion/src/vfs/entry.rs:200-217 | reviving any cached entries keeps both indexes |
| Index.SizeKeepsHashes | dupion/src/driver/platterwalker.rs:162-177 | sizing keeps the hash index if the cached data still hold or the entry is in no group |
| Index.SizeKeepsHashesIff | dupion/src/driver/platterwalker.rs:162-177 | and only then: otherwise a stale member is left |
| StaleMember.SizedTwice | dupion/src/driver/platterwalker.rs:162-177 | a run of two steps on a loaded arena: a cache hit, then the same path changed; the entry stays a member of the group of a hash it no longer has |
| Index.SizeKeepsSizes | dupion/src/driver/platterwalker.rs:162-172 | sizing an entry that is not valid yet keeps the size index |
| Index.HashedKeepsIndex | dupion/src/driver/platterwalker.rs:346-358 | committing the first hash of a file, or the same one, keeps both indexes |
| Index.DecodedKeepsIndex | dupion/src/zip/mod.rs:52-69 | an archive member that is new, or decodes to what is known of it, keeps both indexes |
| Scans.StepKeeps | dupion/src/driver/platterwalker.rs:119-144 | every step of the machine keeps what is known of scanned files, queued candidates and filtered entries |
| Scans.RunKeeps | dupion/src/driver/platterwalker.rs:119-144 | and so it holds in every state of every run |
| Scans.SizeEventGrows | dupion/src/driver/platterwalker.rs:153-186 | sizing one file changes size, hash and validity of no other scanned file for the worse |
| Scans.DecodeOverwrites | dupion/src/zip/mod.rs:50-69 | a member decoded onto a scanned file's entry replaces its size and hash and leaves it out of the cached files; when no other file has the new size, the file then has a hash without a shared size |
| OverwrittenFile.MemberOverFile | dupion/src/zip/mod.rs:50-69 | a whole run from a fresh arena through all passes, at the end of which a scanned file that is no archive, not cached and of a size shared with none has a hash |
| Scans.ThreePassCompleteness | dupion/src/driver/platterwalker.rs:119-144 | however decoding interleaves with pass 2 and whichever reads fail, after PostHash a scanned file that is no archive has a hash if and only if the cache had one, a member was decoded onto its very entry, or its size is within the limits and shared and it is not among the candidates that the last pass failed to read; a scanned archive has a hash and is a directory, too, if and only if it is not among those |
| ScanIndex.HashIndexAgreement | dupion/src/driver/platterwalker.rs:153-186 | in every state of a careful run each id is at most once in a group, members carry the hash and size of their group, and every valid file with a hash is in its group |
| ScanIndex.StepKeepsIndex | dupion/src/driver/platterwalker.rs:344-358 | every careful step keeps that agreement |
| ScanRuns.SizePass | dupion/src/driver/platterwalker.rs:53-75 | sizing any files, none at or below another, is a run of the machine after which each file has its entry, with its offset, in the list; cached are exactly those whose change time and size the loaded cache had with a hash; a cached hash that survives is that of the content |
| ScanRuns.HashFiles | dupion/src/driver/platterwalker.rs:188-374 | whatever the reader's look-ahead and whichever files can not be read, filtering and committing one list is a run of the machine in which every entry was filtered and every candidate read or given up; only files that can not be read are given up; terminates and moves no entry |
| ScanRuns.HashPasses | dupion/src/driver/platterwalker.rs:119-144 | the same for both hashing passes over the sorted list |
| ScanRuns.ScanFiles | dupion/src/driver/platterwalker.rs:18-145 | after sizing, sorting and both passes the list is in the order of physical offsets, and every file found has an entry with its size; unless it is an archive, a hash if and only if the loaded cache had one with its change time and size, or its size is shared and within the limits and the last pass did not fail to read it; if it is one, a hash and a directory, too, if and only if the last pass did not fail to read it; every hash is that of the content; equal hashes must mean equal sizes among the scanned contents and what is stored below unchanged files, as the code asserts |
| ScanRuns.SizeKeepsCache | dupion/src/driver/platterwalker.rs:162-170 | what the cache knows of the files still to come is not touched |
| ScanRuns.SizeHonest | dupion/src/vfs/entry.rs:173-198 | a hash that survives validation by change time and size is that of the content, if the cache is honest about unchanged files |
| ScanRuns.IdsSort | dupion/src/driver/platterwalker.rs:101 | sorting by offset keeps the scanned ids |
| PairSort.SortedUnique | dupion/src/process/mod.rs:77 | the byte order on (hash, name) is total, so a sorted list is determined by its elements |
| PairSort.SortCanonical | dupion/src/process/mod.rs:77 | lists of the same pairs are sorted to the same list |
| PairSort.SortMeans | dupion/src/process/mod.rs:77 | pairs are sorted by hash, those of one hash by name, bytes compared from the front and a prefix first |
| DirHashes.CalculateDirHash | dupion/src/process/mod.rs:35-108 | returns the hash of the specification and leaves exactly the directories of `PostDirs` stored and grouped, also when a sibling fails |
| DirHashes.CalculateKids | dupion/src/process/mod.rs:54-61 | all existing children are computed before the first failure counts |
| DirHashes.SumUp | dupion/src/process/mod.rs:63-75 | size and pairs of all children, or failure if any child failed |
| DirHashes.StoreDir | dupion/src/process/mod.rs:91-96 | result, validity and both groups of one directory |
| DirHashes.HashPairs | dupion/src/process/mod.rs:79-86 | the hash of names and hashes fed without delimiters |
| HashNames.PairsAre | dupion/src/process/mod.rs:66-75 | each child contributes its hash and its own name, the root directory the empty one |
| HashNames.PreimageConcat | dupion/src/process/mod.rs:79-84 | hashed are name and then hash of each pair, one after the other |
| HashNames.SameHashIff | dupion/src/process/mod.rs:63-86 | where hashes have one length and the two byte strings hashed do not collide, directories with equally many children and equal lengths of names in sorted order have one hash if and only if their children have the same names and hashes |
| HashNames.OneChildTold | dupion/src/process/mod.rs:63-86 | for directories of one child each no condition on names is needed: one hash if and only if name and hash of the child are the same |
| DirHashes.PostDirsAre | dupion/src/process/mod.rs:54-96 | the directories that get a hash are exactly those the walk comes to through existing directories and whose own hash exists, even when siblings or ancestors fail |
| DirHashes.DirTreeEntry | dupion/src/process/mod.rs:91-96 | entry by entry: those directories get their size and hash, no other entry changes |
| DirHashes.ReachedThrough | dupion/src/process/mod.rs:54-61 | reaching an entry by recursion is the same as a path of existing directories down to it |
| DirMeaning.SucceedsIff | dupion/src/process/mod.rs:35-75 | a hash is computed if and only if the entry exists and every existing leaf reached below it has a hash |
| DirMeaning.CalcMeans | dupion/src/process/mod.rs:38-47 | a file, also an archive with directories below it, counts with its own size and hash, any other directory with those of its children |
| DirMeaning.SizeIsSumOfLeaves | dupion/src/process/mod.rs:63-74 | without archives, the size of a hashed directory is the sum of the sizes of all leaves reached below it |
| Twins.OrderIrrelevant | dupion/src/process/mod.rs:63-77 | total size and pairs do not depend on the order of the children |
| Twins.KidsNoDup | dupion/src/process/mod.rs:54-75 | the children that are summed up are pairwise different |
| Twins.SameTreesSameHash | dupion/src/process/mod.rs:54-86 | equal trees, with children in any order at any level, in one arena or two, get equal sizes and hashes |
| Selective.RunTruthful | dupion/src/driver/platterwalker.rs:344-350 | along a run, stored sizes and hashes of scanned files are those of their contents |
| Selective.TwinLeaf | dupion/src/process/mod.rs:54-86 | every leaf of a directory has a twin at the same relative path below an equal one |
| Selective.TwinsShareSize | dupion/src/state/mod.rs:91-111 | two scanned files of equal content share a size group, so both are worth reading |
| ScanTree.RunKeepsTree | dupion/src/vfs/entry.rs:173-217 | along a run in which no archive is read, whatever the cache holds: an entry is a file exactly if its path was scanned, or it was a file when the cache was stored and lies below a scanned file that was a cache hit; a directory exactly if something scanned lies below it, or it was one and is or lies below such a hit |
| ScanTree.OffDiskIff | dupion/src/vfs/entry.rs:200-217 | in terms of the loaded cache: an entry off the disk is a file if and only if it was one and lies below an unchanged file, and a directory likewise |
| GhostFiles.ReplacedDirectory | dupion/src/vfs/entry.rs:200-217 | a run of one step, without archives, that sizes an unchanged file where a directory was: a file the directory held, at a path where nothing was found, is a file again and a second member of the hash group |
| ScanTree.OnDiskIsPlain | dupion/src/driver/platterwalker.rs:153-186 | if no unchanged file was stored as a directory, what is on the disk is in the arena as on the disk: files are the scanned paths, directories the paths above them, none is both |
| Selective.PlainLeaves | dupion/src/process/mod.rs:38-61 | then every existing leaf the walk reaches below a directory on the disk is a scanned file |
| Selective.PlainReached | dupion/src/process/mod.rs:54-61 | and every directory on the disk is reached from the root |
| Selective.SelectiveHashing | dupion/src/process/mod.rs:54-96 | after a scan of files within the size limits, none an archive or an unchanged file stored as a directory, too, and none left unread, two different directories on the disk with the same tree of names and contents both have a hash, the same one |
| DirIndex.DirTreeKeepsIndex | dupion/src/process/mod.rs:91-96 | the walk that hashes directories keeps hash index agreement |
| DirIndex.DirTreeKeepsSizes | dupion/src/process/mod.rs:91-96 | and the size index: after it each file and each hashed directory is in the group of its size, once |
| Selective.EqualDirsShareGroup | dupion/src/process/mod.rs:35-108 | selective hashing loses no duplicate directory: after such a scan and the walk from the root both are members of the one hash group, which then has more than one member |
| DupDirs.SameFromDisk | dupion/src/process/mod.rs:54-86 | paths below which the disk has the same files with the same contents head the same tree of entries |
| DupDirs.TwinsFiled | dupion/src/process/mod.rs:35-108 | such paths share a hash group after the walk |
| DupDirs.ScanAndHash | dupion/src/main.rs:75-118 | for any files within the limits that the last pass can read, none an archive, and any cache that is honest about unchanged files and stored none of them as a directory: scanning and then hashing from the root puts any two different directories with the same tree of names and contents in one hash group |
| HashSizes.PremisesMetIff | dupion/src/state/mod.rs:66-69 | some assignment of sizes to hashes meets all that a scan asks for if and only if equal hashes mean equal sizes among the scanned contents, the directories above them, and the files stored below unchanged ones, and each of the latter with a hash has a size |
| HashSizes.PreimageClash | dupion/src/process/mod.rs:79-86 | for any hash function: beside a directory of one file, a file that holds the name and then the hash of that file and differs from it in size has the directory's hash with another size, so no assignment meets both |
| ScanPlan.RunKeepsExtents | dupion/src/driver/platterwalker.rs:165-170 | only scanned files have known extents, and then a known change time |
| ScanPlan.ReadyToPlan | dupion/src/dedup/mod.rs:31-48 | in every state of a scan the groups are sound and what planning unwraps is there |
| ScanPlan.PlanAfterScan | dupion/src/dedup/mod.rs:26-99 | after a scan, also when directory results were added, every planned task shares a whole file with another one whose content has the same hash and length |
| Shadows.FindShadowed | dupion/src/process/mod.rs:110-136 | starting from any flags, raises the file flag exactly below reached duplicates, and the directory flag there and at reached entries whose own file hash is shared |
| Shadows.ShadeBelow | dupion/src/process/mod.rs:113-131 | below a duplicate everything is shaded, at once |
| Shadows.TopDuplicate | dupion/src/process/mod.rs:113-131 | seen from a duplicate, in its shadow is exactly what lies below it |
| Shadows.ThroughKids | dupion/src/process/mod.rs:132-135 | an entry that is no duplicate adds nothing to the shadows its children cast |
| StaleHashes.InShadowIff | dupion/src/process/mod.rs:110-136 | in terms of the entries alone, given hash index agreement: in the shadow is exactly what lies below an entry, reached through existing ones, of which a hash is carried by two different entries |
| StaleHashes.CasterIsDuplicateIff | dupion/src/process/mod.rs:113-131 | given hash index agreement, an entry that casts a shadow for its file hash has a duplicate if and only if it is a file, or the hash is that of the directory, too; one that does for its directory hash always has one |
| StaleHashes.StaleShadow | dupion/src/process/mod.rs:113-122 | a directory that replaced a file whose old hash is shared casts a shadow on exactly what lies below it |
| TreeDiffs.Compare | dupion/src/output/treediff.rs:97-114 | true exactly if an entry under the same names below the other root has the same file hash, or directory hash when one file hash is missing |
| TreeDiffs.UniqueCounterpart | dupion/src/output/treediff.rs:101-114 | for any names: what stands at them below one root is compared with what stands at them below the other, and with nothing else |
| TreeDiffs.NoCounterpart | dupion/src/output/treediff.rs:106 | if nothing stands there, there is no match |
| TreeDiffs.FindDiff | dupion/src/output/treediff.rs:96-131 | one walk raises exactly the entries not below a match, each to what its match or its children say, and returns the result of its root |
| TreeDiffs.DiffKids | dupion/src/output/treediff.rs:119-122 | all children are walked, also after one result of 0 |
| TreeDiffs.VisitedThroughKids | dupion/src/output/treediff.rs:116-122 | the walk comes to an entry exactly if nothing above it matches |
| TreeDiffs.RaisedLocal | dupion/src/output/treediff.rs:116-130 | the result of an entry depends only on what is below it |
| TreeDiffForm.FindDiffs | dupion/src/output/treediff.rs:86-95 | for disjoint roots and results starting at 0, every entry not below a match ends with the closed form against all other roots |
| TreeDiffForm.RaisedIsFinal | dupion/src/output/treediff.rs:116-130 | one more walk turns the closed form against some roots into the one against one root more |
| TreeDiffForm.OthersUntouched | dupion/src/output/treediff.rs:86-95 | walks below one root leave the other roots' trees alone |
| TreeDiffForm.ClosedForm | dupion/src/output/treediff.rs:86-131 | with two or more roots, an entry at any names below its root and with no 2 above it ends with 2 if and only if an entry at the same names below another root equals it, else with 1 if and only if it is a directory whose children all end other than 0, else with 0 |
| TreeDiffForm.OrderIrrelevant | dupion/src/output/treediff.rs:86-95 | whatever the order of the roots, such an entry ends with the same result |
| StaleHashes.OnlyDirsHashed | dupion/src/process/mod.rs:44-99 | only directories have a directory hash after the walk |
| StaleHashes.MatchMeans | dupion/src/output/treediff.rs:107-113 | for entries that are not both file and directory: unless both carry file hashes and one of them is that of a file that is gone, a match means exactly equal files or equal directories; in that case it means exactly that the two hashes agree, and never equal files |
| StaleHashes.GoneStillMatches | dupion/src/output/treediff.rs:106-113 | a file whose counterpart does not exist matches if and only if the cache holds the same hash there |
| Readahead.MultiFileReadahead.Advance | reapfrog/src/lib.rs:108-159 | what is ahead never exceeds the larger of its value before and budget + 65535; nothing happens above half the budget; below it the budget is used up to less than one block or nothing remains to be asked for; the requests made are exactly those that take each file, in window order, from where it was asked for or read to its new position; the window stays contiguous and bounded |
| Readahead.MultiFileReadahead.Prefetch | reapfrog/src/lib.rs:139-157 | records exactly one request, from the furthest position to the new one, which is ahead, on a block or at the end of the file, and paid from the budget; the requests for an open file end exactly at its prefetch position and cover all that counts as ahead of the reader |
| Readahead.MultiFileReadahead.AddFile | reapfrog/src/lib.rs:161-191 | opens up to 128 more files in source order, keeps those in the window, and if it reports false none of the new ones can be prefetched |
| Readahead.MultiFileReadahead.Read | reapfrog/src/lib.rs:67-91 | the read position and the bytes to drop, with the reset at 512 KiB, the window bound again, and that the window is refilled with exactly the requests this takes |
| Readahead.MultiFileReadahead.Next | reapfrog/src/lib.rs:193-211 | for any budget and any failing files: turns to exactly the next item; says exactly when an error takes the item behind it along, and exactly when the end is reported although items are left |
| Readahead.MultiFileReadahead.FillWindow | reapfrog/src/lib.rs:202-206 | whether there is something to turn to, and whether something stands behind it |
| Readahead.MultiFileReadahead.Consumed | reapfrog/src/lib.rs:110-115 | the sum over open files of what is prefetched and not read, each floored at 0 |
| Readahead.Session | reapfrog/src/lib.rs:67-211 | any interleaving of reads, budget changes and turns delivers along the chain of items; the end is reported only at the end unless a turn gave up, which needs a budget below one block and a failing file; if every file opens, the items come in source order, and all of them once when the end is reported |
| Readahead.NewPosBounds | reapfrog/src/lib.rs:139-150 | rounding: the new position is ahead, overshoots by less than one block of 65536, is aligned or the end, leaves less than one block of the budget unless the file ends, and is the first multiple of a block from the goal on, or the end |
| Readahead.HintStep | reapfrog/src/lib.rs:139-157 | one more request: requests for one file stay disjoint, increasing and aligned, still end at its prefetch position and still cover what is ahead |
| Readahead.CompleteIff | reapfrog/src/lib.rs:193-211 | a whole run delivers every item once and in order if and only if no turn gave up and no error took another item along |
| Readahead.DeliversAllIff | reapfrog/src/lib.rs:193-211 | with budgets of at least one block, that is if and only if every file but possibly the last can be opened |
| Readahead.EarlyEnd | reapfrog/src/lib.rs:204-206 | with budget 0 and 128 failing files in front of a good one the first call reports the end |
| Readahead.ErrorSkipsNext | reapfrog/src/lib.rs:195-208 | two calls over any source of three or more files of which the first fails: that error, then the third file; no continuation delivers the second |
| Lzo.DecompressPages | rust-btrfs/src/diskformat/compression.rs:11-87 | terminates on any input with the concatenation of the decompressed segments, or the corruption code of the first broken place, a failing segment before it coming first |
| Lzo.NextSegment | rust-btrfs/src/diskformat/compression.rs:32-73 | one turn of the loop finds the next segment of the parse, its end, or its corruption, and makes progress |
| Lzo.ParseAt | rust-btrfs/src/diskformat/compression.rs:32-73 | one step on bytes and numbers: the length word, little-endian, stands here unless it would cross a page of 4096 bytes, then at the next one; which corruption code comes when |
| Lzo.HeaderCodes | rust-btrfs/src/diskformat/compression.rs:13-27 | code 0 exactly if there is no header, code 1 exactly if its total size exceeds the input |
| Lzo.PaddingIs | rust-btrfs/src/diskformat/compression.rs:32-45 | padding is made exactly where the word would cross a page, up to its end |
| Lzo.ResultMeans | rust-btrfs/src/diskformat/compression.rs:29-86 | behind a sound header the result is a failure exactly if a segment found does not decompress; else the corruption that ends the segments, if any; else contents |
| Lzo.ParseFramed | rust-btrfs/src/diskformat/compression.rs:32-83 | every segment lies inside the declared size behind its length word, which lies in one page; segments do not overlap |
| Lzo.ParseLayout | rust-btrfs/src/diskformat/compression.rs:32-83 | segments laid out from any position are found exactly, in order |
| Lzo.RoundTrip | rust-btrfs/src/diskformat/compression.rs:16-83 | for any segments under 2^32 bytes in all, whatever stands behind them, the framing rule and the parser are inverse |
| Lzo.DecompressEncoded | rust-btrfs/src/diskformat/compression.rs:11-87 | decompressing a laid-out extent, whatever stands behind it, gives the contents of its segments in order, or fails if one of them does |
| Lzo.InflateFront | rust-btrfs/src/diskformat/compression.rs:75-83 | contents stand in the order of their segments, and one that fails fails all |
| Lzo.ReadBack | rust-btrfs/src/diskformat/compression.rs:20-21 | reading a little-endian word back |
| WalkTree.MapWorkPut | platter-walk/src/lib.rs:301-312 | inserting at an offset, also a taken one, loses no work: the displaced directory's work is what is missing from the map |
| WalkTree.MapWorkTake | platter-walk/src/lib.rs:176-181 | taking any directory out of the map takes exactly its work |
| WalkTree.WorkMeaning | platter-walk/src/lib.rs:321-399 | which events a tree causes: opened is every directory found through readable ones, emitted or skipped is every entry they list, as the filter says |
| WalkTree.EachOnce | platter-walk/src/lib.rs:321-399 | below disjoint roots no directory is opened twice and no entry handled twice |
| Walker.ToScan.Add | platter-walk/src/lib.rs:301-312 | the directory is queued at its offset, or without one; one displaced from there goes to the end of the other queue, and nothing else changes; exactly its work is added |
| Walker.ToScan.AddRoot | platter-walk/src/lib.rs:161-165 | the same for a root |
| Walker.ToScan.GetNext | platter-walk/src/lib.rs:167-185 | takes the first directory that waits without offset, if there is one, and leaves offsets and cursor alone; else the one at the least offset not behind the cursor, which moves there; and exactly its work; returns none and changes nothing exactly if all that wait are behind the cursor |
| Walker.ToScan.OpenNext | platter-walk/src/lib.rs:324-339 | opens the next directory, reports its error, or turns the cursor back; the order of all that is to come is the one planned |
| Walker.ToScan.ReadItem | platter-walk/src/lib.rs:341-357 | one item of the listing is accounted for, an error, an entry, or the end, without changing the order of directories and entries to come |
| Walker.ToScan.Entry | platter-walk/src/lib.rs:359-396 | a directory is queued at the offset of its own data whether or not it passes the filter; an entry is gathered exactly if it passes |
| Walker.ToScan.Keep | platter-walk/src/lib.rs:386-398 | gathers the entry; a batch is closed exactly when it is full, then in descending inode order |
| Walker.ToScan.WalkDirs | platter-walk/src/lib.rs:323-399 | the walk phase terminates, accounts for all work, keeps to the planned order, and stops for an error, a full batch, or the end |
| Walker.ToScan.OrderByContent | platter-walk/src/lib.rs:402-434 | each gathered entry is paired with the offset of its own contents, and they are sorted by it, taken last one first before |
| Walker.ToScan.Next | platter-walk/src/lib.rs:321-445 | events so far plus work left never change in sum, nor does the order of directories; a batch is made of exactly the next entries in the order in which they are found, as many as fill it or as are left, each with its own offset, sorted, a full one by ascending inode within equal offsets; an error hands out nothing; the end is reported exactly when nothing is left |
| Walker.Drain | platter-walk/src/lib.rs:321-445 | repeated calls terminate, cause all the work left, open the directories in the planned order, and return exactly the batches that cutting the planned entries gives |
| Walker.Walk | platter-walk/src/lib.rs:161-445 | a whole walk causes exactly the events of the trees below the roots, each at most once when the roots are disjoint; the roots are opened first, then the directories below them in the order of the sweeps, and the batches are the entries they list that pass the filter, in that order, cut into full ones and a rest |
| Walker.WalkSweeps | platter-walk/src/lib.rs:167-185 | in the order of a whole walk, whatever is found on the way: first those that wait without an offset, in the order in which they came to wait, also by displacement, then the least offset not behind the cursor; between two turns of the cursor the offsets taken never decrease, each is the offset of the directory's own data, and after a turn the next directory is taken from an offset |
| WalkOrder.MovesAscend | platter-walk/src/lib.rs:167-185 | the same from any queues: the offsets taken before the first turn are not behind the cursor |
| WalkOrder.MovesServe | platter-walk/src/lib.rs:167-185 | from any queues the moves follow the rules told by a history that only grows: first come, first served for directories without an offset, an offset only when none of them waits, back only when all that waits is behind the cursor |
| WalkOrder.ServedOnce | platter-walk/src/lib.rs:167-185 | these rules leave no choice: they determine all moves of a walk |
| WalkOrder.RootsFirst | platter-walk/src/lib.rs:161-174 | what waits without an offset is opened first, in that order |
| WalkOrder.PassingInOrder | platter-walk/src/lib.rs:341-389 | entries are found in the order of a listing, exactly those that pass the filter |
| WalkOrder.EntriesInOrder | platter-walk/src/lib.rs:341-389 | and in the order of the directories, those of the ones that can be opened |
| WalkOrder.TakeWork | platter-walk/src/lib.rs:167-185 | taking the next directory takes exactly its work from the queues |
| WalkBatches.InBatchIsGood | platter-walk/src/lib.rs:395-434 | however entries were gathered: in their batch each has the offset of its own contents, they are sorted by it, and a full batch within equal offsets by ascending inode |
| WalkBatches.InBatchSame | platter-walk/src/lib.rs:402-434 | a batch holds exactly the entries gathered for it |
| WalkBatches.BatchesAreGood | platter-walk/src/lib.rs:395-434 | cutting any entries gives good batches, full but the last |
| WalkBatches.BatchAt | platter-walk/src/lib.rs:395-434 | batch k is made of the entries from k times the batch size on, as many as fill it or as are left |
| WalkBatches.LaterFirst | platter-walk/src/lib.rs:402-434 | in a batch that is not full, of entries at one offset the one found later stands first |

## Left out

- The real mode of `dedup_group_batch`: opening files, the dedupe ioctl and its retries depend on the kernel. Only the simulated branch is modelled.
- Splitting ranges in the planner: `allow_range_split` is a constant `false`, so the branch, `split_off_start_range` and `split_off_start_at_candidate_n` are dead code.
- How the usable cache is measured: any limit per round is allowed.
- Requests to prefetch are recorded as `hints`; requests to drop pages have no effect in the model.
- `ToScan::prefetch`, which reads directory indices ahead and has no effect on what is walked; loading metadata of entries; symbolic links as roots.
- ScanIndex.HashIndexAgreement: for runs in which no scanned path lies at or below another one, archive members are new or unchanged, and reading a file again gives the same hash. A candidate that can not be opened or read, or changed since it was sized, is a step of the machine that gives it up; what the open error of one file does to the next is part of `Readahead`.
- Hashing during pass 1, an option, is not modelled. A loaded cache is an arena in which nothing is valid, known to exist or grouped, without extents and directory results, as the loader builds it.
- ScanRuns.ScanFiles: hashes archives without decoding them; decoding, interleaved at will, is part of the machine in `Scans` and of `States.State.DecodeMember`. Equal hashes must mean equal sizes among the scanned contents and the files stored below unchanged ones, which a cache hit groups, and a cached hash must be true of an unchanged file. Which files a pass can read is a parameter (`readable`).
- DupDirs.ScanAndHash: for scans without archives, of files within the size limits that the last pass can read. Of the cache it assumes, only where change time and size of a scanned file are unchanged: the cached hash is that of the content; the entry was not stored as a directory, too, as an archive is; and the hashes of files stored below it, which the hit revives and groups, come with their sizes. Entries that miss, and all others, may hold anything. Equal hashes among all that is grouped, files, directories and what is revived, must mean equal sizes, as the code asserts when it groups them (exactly `HashSizes.NoCollision`). Nothing assumes that different trees have different hashes.
- DirHashes.CalculateDirHash: of the entries the walk reaches, files must have a size, and an archive that is also a directory a hash, because the code unwraps both; names are bytes, where the code requires UTF-8.
- Arenas.Vfs.Cid: a path with a ".." component panics in the code and is excluded by `Canonical`; "." can not occur in an absolute path's components.
- Entry fields that only steer output or retries (`disp_relevated`, `failure`, `dedup_state`), and `resolve`, `resolve_or_create` and `insert_new_entry`, which add nothing to lookup and creation.
- Sorting in the standard library is modelled as a stable insertion sort.
- Machine integers: sizes, offsets and sums are unbounded, so overflow of 64-bit sums is not modelled.
- Concurrency: locks and the memory monitor of archive buffers. Decoding threads appear as steps that may interleave anywhere in pass 2.
- The zlib branch of `btrfs_decompress_pages` and all compression libraries; the archive library; blake3.
- Cache file, serializers, printing, command line, and the rest of rust-btrfs.
