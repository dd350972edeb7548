# Line enumerator, deferred I/O and word-count aggregation (functionaljava)

This project models two small cores of the functionaljava repository.

**The deferred-action combinators and the line enumerator of `fj.data.IO`.**
- An `IO<A>` is a deferred action. It is modelled as a function from a world to a result. The world holds the files that can be opened and the buffered readers opened so far. The result is a value or an I/O error, together with the world afterwards.
- `unit`, `map`, `bind` and `bracket` are functions that combine such actions.
- The run loop of `enumReader` is a method with a `while` loop. It is proved equal to a recursive specification, and that specification is characterised as a fold of the consumer's step function over the lines after the reader's cursor.
- `enumFile` combines `bufferFile`, `enumReader` and `closeReader` with `bracket`.
- The consumer (`Iteratee.IterV`) is either `Done(value, leftover)` or `Cont(state)`, and comes with a step function from a waiting state and one input to the next consumer.

**The aggregation logic of the word-count demo (`fj.demo.concurrent.WordCount`).**
- `wordsAndCounts` is the counting step on a word→count map.
- The sequential `getWordsAndCountsFromFiles` is a fold of that step over the words of all files.
- `fileNameToWordsAndCounts` is the same fold over one file.
- `plus` is a method with the source's two loops, which update a local map. It is proved equal to a merge function.
- Together with the empty map, the merge forms the monoid of `treeMapSum`.
- The parallel fold-map is modelled as a sequential left fold of per-file maps. It is proved to be independent of grouping and equal to the sequential count.
- The demo's sample files are modelled too. The final map is proved to be the one the demo's `main` asserts.

Files:
- `iteratee.dfy`: `Option` and the consumer interface.
- `io.dfy`: the world, the actions, the enumerator and `enumFile`.
- `io_scenarios.dfy`: library consumers (length, head, drop-then-head, list), and the enumerator on a file of three lines.
- `wordcount.dfy`: counting, `plus` and the merge laws.
- `wordcount_sample.dfy`: the demo's sample files and its expected result.

## Model

| member | source | states |
|---|---|---|
| Iteratee.Run | core/src/test/fj/data/IOTest.java:39 | defines `IterV.run()` as the tests apply it: the result of a `Done` consumer, or of a waiting one after end-of-input; the "diverging iteratee" error is `None` |
| IO.Unit | core/src/main/java/fj/data/IO.java:94-101 | defines `unit(a)`: yields `a` and leaves the world as it is (its laws are `IO.BindUnitLeft` and `IO.BindUnitRight`) |
| IO.Map | core/src/main/java/fj/data/IO.java:146-153 | defines `map(f)`: runs the receiver, then applies `f` to its value; an error passes through (related to `bind` by `IO.MapIsBindUnit`) |
| IO.Bind | core/src/main/java/fj/data/IO.java:155-162 | defines `bind(f)`: runs the receiver, then runs the action `f` builds from its value; an error passes through |
| IO.Bracket | core/src/main/java/fj/data/IO.java:78-92 | defines `bracket` as written: runs `init`, then `body`; `fin` is never run (stated by `IO.BracketNeverReleases`) |
| IO.BracketReleasing | core/src/main/java/fj/data/IO.java:78-92 | defines the corrected `bracket`, which runs `fin` after `body` on every exit (stated by `IO.BracketReleasingExtendsBracket`) |
| IO.BufferFile | core/src/main/java/fj/data/IO.java:69-76 | defines `bufferFile`: opens a new reader at the file's first line, or fails when there is no such file |
| IO.CloseReader | core/src/main/java/fj/data/IO.java:40-48 | defines `closeReader`: marks the reader closed |
| IO.EnumLoop | core/src/main/java/fj/data/IO.java:127-135 | the loop of `enumReader`'s action; it touches only the reader it reads from: the files, the other readers and the number of readers stay as they were |
| IO.EnumReader | core/src/main/java/fj/data/IO.java:103-142 | defines `enumReader(r)(it)`: the deferred action that runs the loop on reader `r` from consumer `it` |
| IO.EnumFile | core/src/main/java/fj/data/IO.java:63-67 | defines `enumFile`: `bracket` of `bufferFile`, `closeReader` and `enumReader` (stated by `IO.EnumFileRuns`) |
| IO.EnumFileClosing | core/src/main/java/fj/data/IO.java:63-67 | defines `enumFile` on the corrected bracket (stated by `IO.EnumFileClosingCloses`) |
| IO.MapIsBindUnit | core/src/main/java/fj/data/IO.java:146-153 | `map(f)` runs the receiver and then applies `f` to its value, i.e. it is `bind` followed by `unit`; an error passes through |
| IO.BindUnitLeft | core/src/main/java/fj/data/IO.java:155-162 | binding `unit(a)` to `f` runs exactly `f(a)` |
| IO.BindUnitRight | core/src/main/java/fj/data/IO.java:155-162 | binding an action to `unit` runs exactly that action |
| IO.BindAssociative | core/src/main/java/fj/data/IO.java:155-162 | `bind` runs the receiver and then the action built from its value, so nested binds can be regrouped |
| IO.BracketNeverReleases | core/src/main/java/fj/data/IO.java:78-92 | as written, `bracket` returns `init`'s error when `init` fails; otherwise it returns exactly `body`'s outcome and world, whatever `fin` is, because the release action built at line 88 is never run |
| IO.BracketReleasingExtendsBracket | core/src/main/java/fj/data/IO.java:78-92 | the corrected bracket agrees with the bracket as written when `init` fails; otherwise it is the as-written outcome followed by exactly one run of `fin` on the acquired resource, on success and on error of `body` alike, and `body`'s value or error stands unless the release itself fails |
| IO.ReadLine | core/src/main/java/fj/data/IO.java:129-130 | `readLine` yields the next line and moves the cursor by one exactly when the reader is open and not at the end of its file; at the end it yields `null` and changes nothing; an error changes nothing |
| IO.Consumed | core/src/main/java/fj/data/IO.java:127-135 | the enumerator consumes at most all the lines; if it stops early, the consumer is `Done`; a consumer that is already `Done` consumes nothing |
| IO.RunEnumReader | core/src/main/java/fj/data/IO.java:124-137 | the `while` loop returns a `Done` consumer unchanged without reading, and in every case computes the enumerator's action |
| IO.FeedDone | core/src/main/java/fj/data/IO.java:119-133 | the step function is never applied to a `Done` consumer: feeding it leaves it as it is |
| IO.FeedAppend | core/src/main/java/fj/data/IO.java:128-133 | the lines are fed in read order, one after another |
| IO.FeedOneMore | core/src/main/java/fj/data/IO.java:131-133 | each further line is fed exactly once, as `El(line)`, to the waiting consumer's step |
| IO.ConsumedPrefix | core/src/main/java/fj/data/IO.java:127-135 | the consumer was still waiting before each consumed line, and the result is the step folded over exactly the consumed prefix |
| IO.EnumLoopFolds | core/src/main/java/fj/data/IO.java:127-135 | on an open reader, the result is the step folded over the lines after the cursor, and the cursor ends just after the last consumed line; at the end of the file the waiting consumer is returned as it is, without end-of-input; a read fault is returned as the error |
| IO.EnumLoopExit | core/src/main/java/fj/data/IO.java:127-135 | on exit without error the consumer is `Done` or every line has been consumed, and the cursor never passes the end of the file |
| IO.EnumLoopClosed | core/src/main/java/fj/data/IO.java:128-129 | on a closed reader a `Done` consumer is returned unchanged and a waiting one gets the stream-closed error, with the world unchanged |
| IO.EnumFileRuns | core/src/main/java/fj/data/IO.java:63-76 | `enumFile` on a missing file fails with nothing opened; otherwise it opens one new reader on the file and feeds the consumer the file's lines as the enumerator does, and that reader is still open afterwards |
| IO.EnumFileLeavesReaderOpen | core/src/main/java/fj/data/IO.java:83-89 | the reader `enumFile` opens is still open after its action finishes, on success and on error |
| IO.EnumFileClosingCloses | core/src/main/java/fj/data/IO.java:40-48 | `enumFile` on the corrected bracket has the same outcome, and the reader it opened is closed afterwards, with nothing else changed |
| IOScenarios.LengthScenario | core/src/test/fj/data/IOTest.java:36-40 | on the lines `foo`, `bar`, `baz` the counting consumer yields 3 and the reader ends after the third line |
| IOScenarios.HeadScenario | core/src/test/fj/data/IOTest.java:42-48 | the head consumer yields `foo` and only the first line is read |
| IOScenarios.DropOneScenario | core/src/test/fj/data/IOTest.java:50-57 | dropping one line and then taking the head yields `bar` |
| IOScenarios.DropTwoScenario | core/src/test/fj/data/IOTest.java:59-66 | dropping two lines and then taking the head yields `baz` |
| IOScenarios.ListScenario | core/src/test/fj/data/IOTest.java:68-74 | the list consumer collects the three lines in file order |
| IOScenarios.MissingFileScenario | core/src/main/java/fj/data/IO.java:69-76 | opening a missing file fails with nothing opened and the world unchanged |
| WordCount.Plus | demo/src/main/fj/demo/concurrent/WordCount.java:207-232 | `plus` returns `b` unchanged when `a` is empty and `a` unchanged when `b` is empty; in every case its two in-place loops build exactly the merge of the two maps |
| WordCount.Add | demo/src/main/fj/demo/concurrent/WordCount.java:53 | defines `integersAdd`: integer addition, the update `treeMapSum` passes to `plus` |
| WordCount.Merge | demo/src/main/fj/demo/concurrent/WordCount.java:207-232 | the map `plus` returns; its keys are exactly the union of the two key sets (entries stated by `WordCount.MergeEntries`) |
| WordCount.FoldCount | demo/src/main/fj/demo/concurrent/WordCount.java:157-160 | defines `foldLeft(wordsAndCounts, m)` over a list of words (stated by `WordCount.FoldCountOccurrences`) |
| WordCount.FileCounts | demo/src/main/fj/demo/concurrent/WordCount.java:194-201 | defines `fileNameToWordsAndCounts`: the fold from the empty map over one file's words (stated by `WordCount.FileCountsOccurrences`) |
| WordCount.Flatten | demo/src/main/fj/demo/concurrent/WordCount.java:158 | defines the words of all files, file after file, as `fileNames.map(read).bind(words)` builds them |
| WordCount.WordCounts | demo/src/main/fj/demo/concurrent/WordCount.java:157-160 | defines the sequential `getWordsAndCountsFromFiles` (stated by `WordCount.WordCountsOccurrences`) |
| WordCount.FoldMap | demo/src/main/fj/demo/concurrent/WordCount.java:202-204 | defines the fold-map with the `treeMapSum` monoid, one file at a time (stated by `WordCount.FoldMapAppend` and `WordCount.ParallelEqualsSequential`) |
| WordCount.MergeEntries | demo/src/main/fj/demo/concurrent/WordCount.java:219-231 | the merged keys are exactly the union of the two key sets; a shared key gets `update(a[k], b[k])`; a key of one side keeps its value |
| WordCount.MergeIdentity | demo/src/main/fj/demo/concurrent/WordCount.java:202-204 | the empty map is an identity of the merge on both sides |
| WordCount.MergeAssociative | demo/src/main/fj/demo/concurrent/WordCount.java:202-204 | with an associative update the merge is associative, which is the monoid contract |
| WordCount.MergeCommutative | demo/src/main/fj/demo/concurrent/WordCount.java:187 | with a commutative update the merge is commutative |
| WordCount.MergeDisjointSize | demo/src/main/fj/demo/concurrent/WordCount.java:225-231 | merging maps with disjoint keys copies every entry, so the sizes add up |
| WordCount.CountsMergeLaws | demo/src/main/fj/demo/concurrent/WordCount.java:178-193 | `treeMapSum`, the merge with integer addition, is associative and commutative, so partial maps can be combined in any grouping and order |
| WordCount.CountWord | demo/src/main/fj/demo/concurrent/WordCount.java:76-83 | counting `w` sets its count to the old count plus 1, or to 1 if absent, adds only `w` as a key and leaves every other count unchanged |
| WordCount.FoldCountOccurrences | demo/src/main/fj/demo/concurrent/WordCount.java:157-160 | folding the counting step over words adds exactly those words as keys and adds each word's number of occurrences to its count |
| WordCount.FileCountsOccurrences | demo/src/main/fj/demo/concurrent/WordCount.java:194-201 | a file's map has the file's words as keys, each mapped to its number of occurrences |
| WordCount.FoldCountIsMerge | demo/src/main/fj/demo/concurrent/WordCount.java:194-204 | counting words onto a map is merging that map with the counts of those words |
| WordCount.FoldCountAppend | demo/src/main/fj/demo/concurrent/WordCount.java:157-160 | counting the words of two lists one after the other is counting their concatenation |
| WordCount.FoldMapAppend | demo/src/main/fj/demo/concurrent/WordCount.java:202-204 | the fold-map of a concatenation of file lists is the merge of the fold-maps of the parts, so the result does not depend on how the files are grouped |
| WordCount.ParallelEqualsSequential | demo/src/main/fj/demo/concurrent/WordCount.java:157-204 | folding per-file maps with `plus` from the empty map equals counting over the concatenation of all files' words |
| WordCount.WordCountsOccurrences | demo/src/main/fj/demo/concurrent/WordCount.java:157-160 | the aggregated map has the words of all files as keys, each mapped to its number of occurrences over all files |
| WordCountSample.SampleFiles | demo/src/main/fj/demo/concurrent/WordCount.java:131-148 | defines the file list `writeSampleFiles` returns, each file's words in order, the last file first |
| WordCountSample.Expected | demo/src/main/fj/demo/concurrent/WordCount.java:131-148 | defines the expected map `writeSampleFiles` builds |
| WordCountSample.SampleOccurrences | demo/src/main/fj/demo/concurrent/WordCount.java:135-145 | in the sample files, `File<i>` occurs once and `someword<j>` once per file |
| WordCountSample.SampleCounts | demo/src/main/fj/demo/concurrent/WordCount.java:109-121 | both aggregations of the sample files give the expected map: `File<i>` maps to 1 and `someword<j>` to `numFiles` |
| WordCountSample.ExpectedSize | demo/src/main/fj/demo/concurrent/WordCount.java:110 | with at least one file, the expected map has `numFiles + numSharedWords` keys |
| WordCountSample.DemoResult | demo/src/main/fj/demo/concurrent/WordCount.java:95-121 | for 100 files sharing 200 words, both aggregations meet the demo's assertions: the expected map, with 300 keys |

## Left out

- Real file I/O is not modelled. `FileReader`/`BufferedReader` become a world of files given as lines, and a reader is a cursor into one file. Line terminators are taken as already stripped.
- An unknown reader handle is treated as a closed stream. A Java `Reader` reference is always valid.
- An I/O error while reading is modelled as a read fault after a file's last line. Errors in the middle of a file, and errors while opening an existing file, are not modelled.
- `readFileToString`, `copy`, `readFileToLazyString` and `LazyString.split` (whitespace splitting) are not modelled. Each file is given as the sequence of words its text splits into.
- Parallel execution is replaced by a sequential left fold of per-file maps: `ParModule.parFoldMap`, `Promise.claim` and the thread pool. Grouping independence is proved instead. `ParModule` is not part of this model.
- `countWords`, `countWordsFromFiles` and `countWordsFromLazyString` are a word count through the same thread pool and library split, and are not modelled.
- Iteratee.Run: stands for the library's `IterV.run` as the tests use it, written from that behaviour; its "diverging iteratee" error is modelled as `None`, not as an exception.
- The library consumers `IterV.length`, `head`, `drop(n).bind(constant(head))` and `list` are written out in `Consumers` as step functions with the behaviour the tests rely on. `peek` and the rest of the `IterV` library are not part of this model.
- The scenarios run on `enumFile`, the only line driver in `IO.java`. `enumFileLines`, `enumFileChunks`, `streamFromChars` and `charStreamFromLines` are used by the tests but do not appear in `IO.java`, so the chunk and character drivers are not modelled.
- The "iteratee is done" error branch has no counterpart: the step is only ever applied to a waiting consumer, so it cannot be reached.
- IO.CloseReader: a failing `close()` is not modelled; closing always succeeds. So the statement of `IO.EnumFileClosingCloses` that the corrected `enumFile` keeps the as-written outcome holds only because a close cannot fail in this model.
- Runtime exceptions thrown by the functions passed to `map`, `bind` and `bracket` are not modelled. Neither is a `null` returned by them.
- WordCount.CountWord: does not model 32-bit `Integer` overflow, because counts are unbounded integers.
- `TreeMap` ordering by `stringOrd` is not modelled. A Dafny map has no order, and the demo compares the maps as unordered maps.
- `plus` iterates the `Map` that `TreeMap.toMutableMap()` returns. The code does not fix its iteration order, so each loop picks its next key arbitrarily, and the result is proved not to depend on the choice.
- Temporary file creation and deletion, timing printouts and the `main` demos of `IO` and `WordCount` are not modelled. The `main` assertions are stated as lemmas.
- A bracket is meant to run the release action on every exit of `body`. The code at `IO.java:88` only builds the release action and never runs it. The model follows the code (`IO.Bracket`, `IO.EnumFile`); the intended behaviour is `IO.BracketReleasing` (see Findings).

## Findings

| source | as written | input that shows it | evidently intended | confidence | as-written member | corrected member |
|---|---|---|---|---|---|---|
| core/src/main/java/fj/data/IO.java:88 | the `finally` block calls `fin.f(a)`, which only builds the release action; it never calls `run()` on it, so `bracket` never releases the resource and `enumFile` never closes the reader it opens | any existing file with any consumer, e.g. the lines `foo`, `bar`, `baz` with the counting consumer: after the action of `enumFile` has run, the reader is still open | `fin.f(a).run()` in the `finally` block, so that the reader is closed on every exit of `body` | high; not executed | IO.EnumFileLeavesReaderOpen | IO.EnumFileClosingCloses |

In the Findings row:
- `IO.BracketNeverReleases` states the as-written `bracket` in general.
- `IO.BracketReleasingExtendsBracket` relates the corrected bracket to the bracket as written, in general.
- `IO.EnumFileClosingCloses` also shows that the correction does not change any outcome the scenarios state. So the scenarios hold for both versions.
