# A verified model of tsag

tsag walks the directories it is given, hands every source file it recognises to a pool of worker
threads, and writes one sorted tags file. This project models that program in Dafny, from the byte
that `escape_pattern` writes up to the shutdown order of `main`, and proves what the pieces promise
each other. Nothing here executes the C program: tree-sitter, the dynamic loader, the file system
and the thread scheduler appear as parameters or as free choices of a step machine.

## What is proved

1. **The tags file does not depend on the schedule** (`WholeProgram`, over `PipelineOutput`,
   `Schedules` and `TagsFile`). For any operands, unless a file that yields a line is reached twice by
   the same path, every finished execution with every number of workers writes the same file: the
   lines of exactly the indexed files of all the trees, each once, in increasing byte order. Which
   files those are, and which tags they yield, is said without the functions of the model: by names
   that lead to a file, by literal limits and extensions, and by a reader of the lines.
   One operand can never reach a file twice. The condition is exact: with two workers or more, all
   schedules agree if and only if it holds. The failing side is real: `tsag a.c a.c` with two workers
   writes a line once or twice, depending on who takes what.
2. **The thread protocol is safe, never stuck, and bounded** (`IoQueueProtocol`, `Pipeline`,
   `PipelineRuns`, `WholeProgram`). Main, N workers and the merge thread share two queues that wake one
   sleeper per put or get, and the workers share the language cache. Sleeping and woken threads are
   explicit; spurious wakeups and barging are allowed. No wakeup is lost, no state short of completion
   is stuck, merge ends its loop with exactly N batches, puts on the output queue never block, and a
   measure bounds the length of every execution, the waits for a language included.
3. **The language cache loads each language once and strands nobody** (`LangCaches`,
   `LangProtocol`), including when loads fail and waiters retry one after the other. Its 32-slot
   arrays cannot fill up: there are nine languages.
4. **The k-way merge is a sort** (`CursorHeap`, `Merging`): the array heap of cursors, with its order
   kept in a separate table, is proved in place through sift-up and sift-down, and it is what the
   drain step of the whole program computes (`PipelineOutput.DrainByHeap`).
5. **Deduplication keeps the best line per byte range** (`Deduplication`, `Parsing`): the capped table
   and the in-place replacement in a vector shared by many files agree with a rule stated on the
   match sequence alone.
6. **A tag line can be read back** (`TagLines`, `Parsing`), by readers that know nothing of how it
   was printed. One cuts at the first tab and the last two and works for every path, so printing is
   injective and a line determines its path; one goes from left to right, as editors do, and works
   exactly for paths without a tab.
7. **Discovery queues exactly the accepted files, each once** (`Discovery`): the explicit stack with
   pruning against a recursion over the tree, that against a filter of all files by their own path,
   and the files against the names that lead to them.

Where the C code updates state in place, the model does too: `CursorHeap` and `EscapePattern` work on
arrays, and `LineVec`, `IoQueue`, `LangCache` and `Dedup` are classes with the fields of the C structs.
Each such method is proved against a function of the old state, and the properties are lemmas about
those functions. Threads cannot be written as Dafny methods; their code is split at its critical
sections into the steps of the machines in `IoQueueProtocol`, `LangProtocol` and `Pipeline`, and
`WholeProgram` runs the last two as one: a worker that has taken a path is inside one cache call until
that call returns. The methods of `IoQueue` and `LangCache` are the bodies of those critical sections, and their contracts
name the functions the machines step with (`GetOutcome`, `Step`, `Search`, `SwapRemove`).

## Files

| file | models |
|---|---|
| CStrings.dfy, SortedLines.dfy | `strcmp` as a total order; sorting and uniq as functions on sequences |
| LineVec.dfy | src/linevec.c, the growing vector |
| Heap.dfy, Merge.dfy | src/heap.c and src/merge.c |
| IoQueueProtocol.dfy, IoQueue.dfy | src/ioqueue.c: the monitor with its sleepers, and the ring buffer |
| Languages.dfy, LangCache.dfy, LangProtocol.dfy | src/lang.c: the extension table, the cache arrays, the single-flight protocol |
| Scanning.dfy, TagLines.dfy | src/parse.c: line windows, printable names, escaping, printing, reading back |
| Dedup.dfy, ParseFile.dfy | the dedup table of src/linevec.c and the match loop of src/parse.c |
| Discover.dfy | src/discover.c |
| Pipeline.dfy, PipelineRuns.dfy | main, workers, merge and the two queues as a step machine: invariant, progress, termination |
| PipelineOutput.dfy, Schedules.dfy | what a finished execution has written, and when schedules can differ |
| TagsFile.dfy | discovery, parsing and the pipeline put together |
| WholeProgram.dfy | that pipeline with the language cache inside the workers |
| Optional.dfy, Sequences.dfy, Sums.dfy | small shared definitions and lemmas |

## Where the code and its documents disagree

The code is the model in each case.

- docs/ARCHITECTURE.md:129 says that ignored names match as substrings; src/discover.c:23-29 compares
  whole path components, and the list also holds `dist`.
- docs/ARCHITECTURE.md:91 describes a cache miss as an unlocked load followed by a recheck;
  src/lang.c:159-177 parks later callers of the same language until the first one has loaded it.
- docs/ARCHITECTURE.md:109-119 lists the extensions without `cu` and `cuh`, which src/lang.c:12-17 maps
  to `cpp`.

## Model

| member | source | states |
|---|---|---|
| WholeProgram.TagsFileIsListing | src/main.c:121-138 | for any operands that reach no line-yielding file by the same path twice, or with one worker, every finished execution writes exactly the lines of the indexed files, each line before the next in byte order; a file is indexed when names that are not dots lead to it from an operand (or from `.` when there is none), no component is `.git`, `build` or `dist`, and it has a language |
| WholeProgram.TagsFileHasTheLines | src/main.c:121-138 | on every finished execution, without any condition, a line is in the file if and only if an indexed file yields it |
| WholeProgram.EveryTagIsWritten | src/parse.c:181-253 | each of the first 4096 matches with a printable nonempty name and a kind, in an indexed file that is readable, at most 2097152 bytes, without a line over 4096 bytes, parsed, and whose language loads, has its tag in the file, or that of a match of the same bytes with a higher pattern, or earlier with the same |
| WholeProgram.EveryLineIsATag | src/parse.c:181-253 | every line written reads back as the name, path, source line and kind of one of the first 4096 matches of an indexed file that meets all those conditions |
| WholeProgram.TagsFileIgnoresSchedule | src/main.c:121-138 | under that condition two finished executions write the same file, whatever their schedules and worker counts |
| WholeProgram.OneOperandIsSafe | src/main.c:121-127 | for one operand, or none, the condition always holds: any two schedules and worker counts write the same file |
| WholeProgram.WhenOperandsAreSafe | src/main.c:121-127 | for any operands: all schedules agree if and only if there is one worker or no line-yielding path is queued twice |
| WholeProgram.NamingAFileTwice | src/main.c:121-127 | `tsag a.c a.c` with two workers, where a.c holds `int f;`: schedules do not agree |
| WholeProgram.NeverStuck | src/main.c:121-138 | pipeline and language cache together: in every reachable state short of completion some thread can take a step of its own code that is not a spurious wakeup, whoever sleeps on a queue or on `loaded`, whichever loads failed |
| WholeProgram.EveryRunEnds | src/main.c:121-138 | with n workers and p paths an execution has at most (n+3)(3p+5n+5)+n+2+(2n+3)p steps, those inside `lang_cache_get` included, plus two per spurious wakeup |
| WholeProgram.QueueSizes | src/main.c:59-67 | on every execution the work queue has 512 slots and the output queue one for each worker, and neither holds more |
| WholeProgram.StepKeepsInv | src/parse.c:182-188 | every step of either machine keeps both invariants, and only a worker with a path in hand is inside a cache call, for that path's language |
| WholeProgram.OutputOfPipeline | src/worker.c:34-38 | when each language always loads or never does, leaving out the cache steps turns an execution into one of the pipeline with the same output |
| WholeProgram.OutputOfWhole | src/worker.c:34-38 | conversely every execution of the pipeline comes from one of the whole program with the same output |
| TagsFile.EnqueueAll | src/main.c:121-127 | main queues the walk of each operand in order, or the walk of the literal `.` when there is none |
| TagsFile.RunWorker | src/worker.c:34-42 | the worker's vector ends as the sorted, duplicate-free lines of the files it took, each line a function of its path |
| TagsFile.WorkerVectorAgrees | src/worker.c:35-38 | the vector the step machine gives a worker is the one the worker's own loop builds |
| TagsFile.LinesNamePaths | src/parse.c:165-175 | no line is made from two different paths |
| TagsFile.VectorsAreStrings | src/worker.c:34-41 | the vectors that are sorted and merged hold only lines without a NUL |
| PipelineOutput.OutputIsListing | src/merge.c:29-37 | when no line comes from two queued files, or with one worker, the file written lists each line of each file exactly once in strict `strcmp` order |
| PipelineOutput.OutputHasTheLines | src/merge.c:29-37 | on every finished execution a line is written if and only if one of the files queued yields it |
| PipelineOutput.OutputIgnoresSchedule | src/merge.c:29-37 | two such programs whose files hold the same lines write the same output, whatever their worker counts and schedules |
| PipelineOutput.FinishedState | src/merge.c:15-37 | at the end every path has a taker, each worker's vector was collected exactly once, and the output is the sort of the collected vectors in arrival order |
| PipelineOutput.BatchesAreReady | src/merge.c:11-27 | where merge drains it holds exactly n vectors, each strictly sorted |
| PipelineOutput.DrainByHeap | src/merge.c:19-37 | in every reachable state where merge drains, the heap merge may be called on the collected vectors, and what it writes is the output of that step |
| PipelineOutput.BatchesAreDisjoint | src/worker.c:34-42 | vectors of different workers share no line when no two files do, because each file is taken once |
| PipelineOutput.MergeIsStrict | src/merge.c:29-37 | merging disjoint duplicate-free sorted batches gives a duplicate-free sorted listing of their union |
| Schedules.WhenScheduleIsInvisible | src/main.c:121-138 | for any files: every schedule writes the same output if and only if there is one worker or no line comes from two of the files queued |
| Schedules.EveryAssignmentHappens | src/worker.c:35-38 | for every way to deal the queued files out to the workers there is a schedule that finishes with exactly that dealing, and its output |
| Schedules.SharedLineShowsSchedule | src/main.c:121-138 | with two workers and a shared line there are two finished executions with different outputs |
| PipelineRuns.RunIsSafe | src/main.c:121-138 | on every execution each queued path is taken by one worker, in queue order, none is lost, nobody ever sleeps to put on the output queue, and merge never holds more than N batches; past its collect loop it holds one from each worker |
| PipelineRuns.BatchesAreWorkers | src/merge.c:11-27 | collected and waiting vectors together never exceed n, so `batches[n]` is never overrun; after the collect loop the batches are each worker's vector exactly once |
| Pipeline.StepKeepsInv | src/main.c:121-138 | every step of every thread keeps the whole invariant: queues, waiters, shutdown phases, taken paths, published vectors, output |
| Pipeline.SchedulerIsFree | src/ioqueue.c:31-57 | the machine shuts out no schedule of its queues: sleepers may wake for no reason, workers may overtake those woken, a signal may go to any sleeper |
| Pipeline.PublishNeverBlocks | src/worker.c:42 | whoever has not published finds a free slot in the output queue, since each worker publishes once and the queue has one slot per worker |
| IoQueueProtocol.QueueIsSafeFifo | src/ioqueue.c:28-67 | over any interleaving of puts, gets, closes and wakeups: no lost wakeup, the items got are a prefix of the items put in lock order, the rest are in the queue, at most `cap` of them |
| IoQueueProtocol.NullMeansEverythingWasTaken | src/ioqueue.c:44-51 | a get returns NULL only when the queue is closed and every item put was got, and with no later put that stays so |
| IoQueueProtocol.SleeperHasWokenPeer | src/ioqueue.c:38-57 | a getter asleep beside an item, or a putter asleep beside a free slot, has a woken peer on its way |
| IoQueueProtocol.StepKeepsInv | src/ioqueue.c:28-67 | every critical section keeps: a sleeping getter means at least `count` woken getters, a sleeping putter means at least `cap - count` woken putters, and no getter sleeps once closed |
| IoQueueProtocol.SchedulerIsFree | src/ioqueue.c:31-57 | any sleeper may wake spuriously, any thread outside a wait may put, get or close ahead of those woken, and a signal may wake any sleeper |
| IoQueues.IoQueue.constructor | src/ioqueue.c:4-17 | a new queue is open and empty with the capacity asked for |
| IoQueues.IoQueue.TryPut | src/ioqueue.c:30-36 | full exactly when `cap` items wait; otherwise the item is appended to the contents, as in the protocol's put |
| IoQueues.IoQueue.TryGet | src/ioqueue.c:44-55 | must wait, drained, or the oldest item, which leaves the contents, as in the protocol's get |
| IoQueues.IoQueue.Close | src/ioqueue.c:62-64 | closes and keeps the contents, as in the protocol's close |
| CursorHeap.HeapifyUp | src/heap.c:10-19 | with only the edge above `idx` broken, restores heap order, keeps the multiset of cursors and the slots past the heap |
| CursorHeap.HeapifyDown | src/heap.c:21-33 | with only the edges below `idx` broken, restores heap order, keeps the multiset of cursors and the slots past the heap |
| CursorHeap.HeapPush | src/heap.c:35-39 | adds exactly the given cursor to the multiset and keeps heap order and all cursors in range |
| CursorHeap.HeapPop | src/heap.c:41-48 | false exactly when empty, changing nothing; otherwise removes exactly the returned cursor, whose line is strcmp-minimal, and keeps heap order |
| Merging.Populate | src/merge.c:19-27 | the heap holds the first cursor of every nonempty batch and nothing else |
| Merging.Advance | src/merge.c:33-36 | after a pop the heap again holds exactly the next unwritten cursor of every batch that has one |
| Merging.MergeLines | src/merge.c:19-37 | for any sorted batches, empty ones and equal heads included, the output is the sort of their concatenation, one write for each line, inside `heap[n]` |
| Merging.Collect | src/merge.c:11-17 | collects exactly the queue's vectors in order and leaves it empty, within `batches[n]` |
| Merging.Merge | src/merge.c:8-37 | from a closed queue of at most n sorted vectors, drains the queue and writes the sort of all their lines |
| CStrings.StrcmpIsTotalOrder | src/linevec.c:42-44 | `strcmp` is a total order whose ties are equal strings, as `qsort`, the heap and uniq need |
| CStrings.StrcmpIsByteOrder | src/linevec.c:42-44 | `strcmp` is negative exactly when the first string is a proper prefix of the second or has the smaller byte at the first difference |
| SortedLines.SortLinesIsSortedPermutation | src/linevec.c:46-49 | sorting gives a sorted permutation |
| SortedLines.SortedPermutationIsUnique | src/linevec.c:46-49 | there is only one sorted permutation, so the choice of algorithm cannot show |
| SortedLines.StrictListingIsUnique | src/linevec.c:51-63 | a strictly sorted listing is fixed by its set of lines |
| SortedLines.UniqKeepsTheSet | src/linevec.c:51-63 | uniq never lengthens, keeps the set of lines and keeps the last line |
| SortedLines.SortUniqIsStrictListing | src/worker.c:40-41 | sort then uniq gives the strictly increasing listing of the set of lines |
| LineVectors.LineVec.constructor | src/linevec.c:8-19 | a new vector is empty with the capacity asked for |
| LineVectors.LineVec.Push | src/linevec.c:21-33 | appends, doubling a full array; refuses exactly when it is full and sixteen times its capacity exceeds 2^64-1, and then changes nothing |
| LineVectors.LineVec.Replace | src/linevec.c:35-40 | changes the one line named and nothing else |
| LineVectors.LineVec.Sort | src/linevec.c:46-49 | the vector becomes the sorted permutation of its lines, in place |
| LineVectors.LineVec.Unique | src/linevec.c:52-63 | the compaction with read and write indices leaves the first of every run of equal lines |
| LineVectors.LineVec.SortAndUnique | src/worker.c:40-41 | the vector a worker publishes is strictly increasing with the same set of lines |
| LangProtocol.NobodyIsStranded | src/lang.c:159-177 | in every reachable state a thread asleep for a language means that language is in `loading[]`, a thread is loading it, and that thread's next step wakes the sleeper, loaded or not |
| LangProtocol.EveryCallReturns | src/lang.c:154-222 | n threads that open k calls take at most (2n+4)k steps plus two per spurious wakeup, loads failing or not |
| LangProtocol.NeverStuck | src/lang.c:154-222 | each thread in one call at a time: while some thread is inside a call, some thread can take a step of the call it is in that is not a spurious wakeup |
| LangProtocol.OneSuccessPerLanguage | src/lang.c:196-212 | a language that loads was not cached before, and no later load of it can ever succeed |
| LangProtocol.RunIsSafe | src/lang.c:154-222 | on every execution names cached and names in flight are distinct and disjoint, each in-flight name has one loader, `entries[]` only grows at its end, and a returned index names the requested language forever |
| LangProtocol.CapacityNeverReached | src/lang.c:182-186 | cached and in-flight names together number at most nine, below the 32 slots, so the branches for too many languages are never taken |
| LangProtocol.StepKeepsInv | src/lang.c:154-222 | every step keeps the invariant |
| LangProtocol.SchedulerIsFree | src/lang.c:175-211 | a thread may take any step its call is at, loads may go either way, sleepers may wake spuriously, and calls may begin for any language |
| LangProtocol.ResultIgnoresSchedule | src/lang.c:154-222 | if each language always loads or never does, a returned call has an entry exactly when its language loads, whatever the schedule |
| LangCaches.LangCache.constructor | src/lang.h:7 | a new cache has nothing cached and nothing in flight |
| LangCaches.LangCache.LookUp | src/lang.c:160-188 | the two array scans decide hit, in flight, full or first to load, in that order, and only the last marks the name |
| LangCaches.LangCache.Complete | src/lang.c:196-210 | unmarks the first occurrence by swap with the last, appends on success if there is room, and returns the new index |
| Languages.LookUpExtension | src/lang.c:27-34 | the loop returns the language of the first row with that extension, which `Languages.WhichLanguage` gives extension by extension |
| Languages.WhichLanguage | src/lang.c:15-34 | for every extension: each of the nine languages is found for exactly the extensions the table gives it, and any other extension finds none |
| Languages.LanguageOfMeaning | src/lang.c:15-34 | a path has a language if and only if it is a stem, a dot and an extension of that language, where the stem is nonempty and does not end in a slash |
| Languages.NineLanguages | src/lang.c:12-17 | every extension that has a language maps into the nine names |
| Languages.ExtensionMeaning | src/lang.c:19-25 | `stem.ext` has extension `ext` exactly when `ext` is nonempty and the dot does not start the last component |
| Languages.ExtensionShape | src/lang.c:19-25 | every path with an extension has that shape, so `.c`, `a.` and `dir.c/a` have none |
| Deduplication.Dedup.Claim | src/linevec.c:84-95 | an unknown range survives at the end of the vector; a known one survives only with a higher pattern, which is raised in its first entry, at that entry's slot |
| Deduplication.Dedup.Track | src/linevec.c:97-101 | appends the entry while there are fewer than 1024, else changes nothing |
| Deduplication.TrackedMeaning | src/linevec.c:97-101 | the tracked ranges are the first 1024 distinct ranges |
| Deduplication.WhichAreKept | src/parse.c:231-247 | a match has its own place if and only if its range is untracked or it is the first of its range |
| Deduplication.TrackedRangeHasItsLine | src/parse.c:231-247 | each tracked range has a line, at its first appearance, made from its winning match |
| Deduplication.BestWins | src/linevec.c:86-90 | the winning match has the highest pattern of its range and is the earliest with it |
| Deduplication.OneLinePerTrackedRange | src/parse.c:231-247 | a tracked range has no second line |
| Deduplication.UntrackedMatchKeepsItsLine | src/linevec.c:97-101 | every match of a range that found no room in the table keeps a line of its own |
| Deduplication.KeptIncreases | src/parse.c:238-244 | lines stand in the order of first appearance |
| Deduplication.EveryMatchHasALine | src/parse.c:231-247 | every match has a line: its own, or that of a match of the same range with a higher pattern, or earlier with the same |
| Parsing.Extract | src/parse.c:120-145 | the capture loop yields the last name and the last kind, or nothing when either is empty, with offsets inside the source |
| Parsing.ExtractMeaning | src/parse.c:127-143 | the match gives a range and a kind exactly when its last capture called `name` has that range, which is not empty, and its last capture whose name is `kind.` and more has that kind |
| Parsing.MakeTagLine | src/parse.c:155-178 | the line printed from the escaped window up to its first NUL; there is one if and only if every byte of the name is from 0x20 to 0x7e |
| Parsing.LineRoundTrip | src/parse.c:155-178 | reading a printed line, cut at its first tab and its last two, gives exactly the name, the path, the source text shown and the kind, for every path |
| Parsing.PrintingIsInjective | src/parse.c:165-175 | equal lines from any two files at any two paths have equal name, path, shown text and kind |
| Parsing.LineNamesItsPath | src/parse.c:155-178 | every line a file contributes reads back to that file's path, whatever the path |
| Parsing.WhenLeftToRightWorks | src/parse.c:165-175 | the left-to-right reader gets the path right if and only if it holds no tab |
| Parsing.FileLinesHaveNoNul | src/parse.c:217-248 | no line a file contributes holds a NUL, so `strcmp` and `fputs` see all of it |
| Parsing.RepeatedRangeIsPrintable | src/parse.c:235-236 | a range that has a line already never fails to make one, so raising the pattern before `make_line` is harmless |
| Parsing.AppendMatches | src/parse.c:217-248 | the lines of earlier files are untouched and the first 4096 matches append exactly the lines of the dedup rule |
| Parsing.ParseFileLines | src/parse.c:181-253 | returns 1 and adds nothing exactly when there is no extension, no entry, the parser refuses the language, the file is unreadable or over 2097152 bytes, a newline-free stretch exceeds 4096 bytes, or parsing fails; otherwise returns 0 and appends exactly the file's lines |
| Parsing.MatchHasTag | src/parse.c:217-248 | in a parsed file each complete match among the first 4096 has its tag in the file's lines, or that of a match of the same bytes with a higher pattern, or earlier with the same |
| Parsing.LineIsTag | src/parse.c:217-248 | each line of a file reads back as the tag of one of its first 4096 matches |
| Parsing.YieldsMeaning | src/parse.c:222-236 | what the loop works on is the complete matches, each once and in order |
| Scanning.HasLongLine | src/parse.c:51-61 | true if and only if some newline-free stretch exceeds 4096 bytes |
| Scanning.LineRange | src/parse.c:63-72 | the two scans find the window's ends, around `start` and inside the source |
| Scanning.LineIsClipped | src/parse.c:63-72 | the window is newline-free, each end at a newline, at the end of the source or 512 bytes away; at most 1024 bytes |
| Scanning.ClippedLineIsUnique | src/parse.c:63-72 | no other window has that shape |
| Scanning.WholeLineWhenItFits | src/parse.c:63-72 | when both halves of the source line fit in 512 bytes the window is the whole line |
| Scanning.NameIsPrintable | src/parse.c:147-152 | true exactly when every byte is from 0x20 to 0x7e |
| TagLines.CountEscaped | src/parse.c:74-83 | the first pass counts exactly the bytes of the escaped text |
| TagLines.EscapePattern | src/parse.c:74-109 | the second pass fills exactly the bytes the first one counted, then the NUL |
| TagLines.EscapeRoundTrip | src/parse.c:74-109 | undoing the escapes gives the input up to its first CR or LF; the text has no raw tab, CR or LF and no slash outside an escape |
| TagLines.EscapeLength | src/parse.c:74-109 | the escaped text is longer than the line by one byte for each tab, backslash and slash, and one for a `$` that ends an input without CR and LF: nothing else is escaped |
| TagLines.OtherBytesAreCopied | src/parse.c:105 | bytes other than tab, backslash, slash, CR and LF are copied, a `$` too unless it ends the input |
| TagLines.EscapeMakesKnownPairs | src/parse.c:90-104 | a backslash stands only before `t`, a backslash, a slash, or a `$` that ends the text |
| TagLines.UpToEolMeaning | src/parse.c:89 | the line is what stands before the first CR or LF |
| TagLines.ShownMeaning | src/parse.c:165-175 | what a tag shows is what stands before the first CR, LF or NUL of the window |
| TagLines.WhenDollarStaysBare | src/parse.c:100-105 | the text ends in an unescaped `$` if and only if the input's line ends in `$` and a CR or LF follows it |
| TagLines.TruncatedRoundTrip | src/parse.c:165-175 | cutting the text at a NUL, as `%s` does, never splits an escape, and what is left still decodes to the line up to that NUL |
| TagLines.TagRoundTripAnyPath | src/parse.c:165-175 | a printed line whose name, pattern and kind hold no tab reads back to its four fields, whatever the path holds |
| TagLines.TagRoundTrip | src/parse.c:165-175 | a printed line with tab-free name and path reads back to its four fields |
| Discovery.DiscoveryIsExact | src/discover.c:55-112 | the paths queued from one root are pairwise distinct and, as a multiset, exactly the accepted files of the whole tree |
| Discovery.QueuedMeaning | src/discover.c:55-112 | a path is queued if and only if names that are not `.` or `..` lead from the root through directories to a regular file and join to that path, no component is `.git`, `build` or `dist`, and it has a language |
| Discovery.AllFilesMeaning | src/discover.c:76-94 | the files of a tree are the paths of the names that lead to them, joined by slashes, where a root `.` leaves no trace |
| Discovery.EnqueuePath | src/discover.c:37-114 | the stack loop ends on every finite tree and queues the paths of the recursive walk, in its order |
| Discovery.WalkIsFilter | src/discover.c:55-112 | a path is queued if and only if it is a regular file of the tree whose own path is not ignored and has a known language |
| Discovery.FilesAreDistinct | src/discover.c:84-88 | child paths built from distinct names never collide, the `.` root included |
| Discovery.PruningIsExact | src/discover.c:55-59 | `path/name` is ignored if and only if `path` is or `name` is one of the three names |
| Discovery.IsIgnored | src/discover.c:17-35 | the pointer scan returns true if and only if some nonempty component between slashes is one of the three names |
| Discovery.IgnoredMeaning | src/discover.c:14-35 | a path is ignored if and only if `.git`, `build` or `dist` is a whole component of it, between slashes or ends |

## Left out

- Tree-sitter parsing and query execution: a file's matches are an arbitrary sequence of captures with a pattern index; that node offsets lie inside the source, start before end, is assumed, and that capture names, which come from src/queries.h, hold no tab and no NUL.
- `dlopen`, `dlsym` and `ts_query_new` in `load_lang`: one step that succeeds or fails by free choice. The theorems about what is written, in `WholeProgram` and `TagsFile`, take each language to load always or never; those about safety, progress and length do not.
- Pointer comparison of language names (src/lang.c:169): names are compared by value. `cpp` occurs six times in the table, and whether equal literals are one object is left unspecified by section 6.4.5, paragraph 7 of ISO C11; the model assumes that they are.
- Failure of `malloc`, `realloc`, `strdup`, thread creation, joins and parser, cursor or vector initialisation, the early exits of main and worker that handle them, and all `free` calls.
- File reading, `lstat`, `opendir`, `readdir` and stdio: a finite tree, a fixed content for each path and an output sequence. A file that changes while the program works is not modelled.
- The `qsort` algorithm: `LineVectors.LineVec.Sort` assigns the sorted permutation, which is unique.
- src/strstack.c: a sequence inside `Discovery.EnqueuePath`; each stack item carries the tree node that `lstat` would show for its path.
- src/options.c, the choice of the default worker count, the parser directory, messages on stderr, tools/ and the benchmark scripts.
- corpus/expected as a reference for order: those files are not in `strcmp` order and hold duplicates that uniq drops.
- Interleaving inside a critical section: the mutexes make each one a single step.
- Main's puts in `Pipeline`: the list of paths is fixed before the execution starts; `TagsFile` takes it from `Discovery`.
- `uint32_t` byte offsets: natural numbers; files over 2 MiB are skipped, so no offset comes near the limit.
- Bytes: one `char` for each byte, ordered by code point, which is the unsigned byte order of `strcmp`.
- Merging.Merge: the queue carries the contents of the vectors, so the pointer shared by worker and merge thread is not modelled; in `Pipeline` a vector travels as the number of its worker.
- IoQueues.IoQueue.TryPut: one turn of the wait loop with the lock held; sleeping, signalling and retrying are steps of `IoQueueProtocol`.
- IoQueues.IoQueue.TryGet: one turn of the wait loop with the lock held; sleeping, signalling and retrying are steps of `IoQueueProtocol`.
- LangCaches.LangCache.LookUp: one turn of the retry loop; waiting and broadcasting are steps of `LangProtocol`.
- Parsing.AppendMatches: asks for a vector of fewer than about 2^60 lines, so that the overflow guard of `line_vec_push`, whose refusal `LineVectors.LineVec.Push` states, does not drop a line.
- TagsFile.RunWorker: the same bound on the lines of one worker.
- LangProtocol.EveryCallReturns: bounds all steps together; no fairness of the scheduler is modelled, so a call can be delayed by others for as long as new calls keep coming.
