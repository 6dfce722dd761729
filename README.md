# greppy, modelled in Dafny

greppy is a semantic code search tool. It cuts a codebase into overlapping,
line-aligned chunks, embeds them, and stores them in one ChromaDB collection
per project. A JSON manifest holds the hash of every indexed file, so that
later runs re-index only the files that changed. A file-system watcher
re-runs the indexer, debounced, after code files change. The command line
offers `index`, `search`, `exact` (ripgrep or grep) and `read` (a file with
numbered lines).

This project models the core of that tool and proves properties of it:

- `classifier.dfy` (module `Classifier`): which paths are indexed (`should_index_file`,
  `should_skip_dir`), `is_valid_file` over what the file system reports, and the
  `SkippedFiles` report.
- `chunker.dfy` (module `Chunker`): `chunk_file` (the chunking loop as a method proved
  against a functional definition of the chunk ranges), chunk ids,
  `is_valid_chunk`, `chunk_codebase` over a listing of files, and `get_file_hashes`.
- `store.dfy` (module `Store`): collection and manifest names, `compute_changes`,
  and a `ProjectIndex` class holding the collection (a map from chunk id to
  record) and the manifest. `index_chunks` and `index_incremental` are methods
  on it, with the batched `add` loop, the deletion step and the failure paths.
- `watch.dfy` (module `Watch`): the watcher's ignore and code-file tests (the
  handler runs them as written; the corrected test sits beside them), the
  one-slot debounce timer of `CodeChangeHandler`, and the start/stop protocol
  of `Watcher`, with timers and the observer as discrete steps.
- `cli.dfy` (module `Cli`): `read`'s location parser and its clamped,
  numbered printing; `index`'s choice between a full and an incremental run;
  and `exact`'s line limit.
- `text.dfy`, `paths.dfy` and `wrappers.dfy` hold the `str` and `pathlib`
  behaviour the rest relies on: split and join, strip, lower, decimal ints,
  path components, name, suffix, `/` and `relative_to`.

MD5 is a parameter: any function that returns 32 lower-case hex digits. The
embedding model is a parameter too: any function that returns one vector per
text. A file system is a listing of `SourceFile` values, each holding what
`stat`, a binary read and `read_text` return for the file, or that they raise.
Failures of the vector store are inputs: `readFails` says the `get` before a
deletion raises, and `failsAt` names the batch whose `add` raises. An
embedder that raises inside `index_chunks` or `index_incremental` leaves the
collection and the manifest as `failsAt == Some(0)` does: whatever was
deleted stays deleted, no `add` completes, and the manifest is not saved.

## Model

| member | source | states |
|---|---|---|
| Classifier.LockFilesNeverIndexed | src/greppy/chunker.py:202-206 | a lock file named in `SKIP_FILES` is never indexed, whatever its extension |
| Classifier.NoSuffixNeverIndexed | src/greppy/chunker.py:202-206 | a path without a suffix (a dot-file, a `Makefile`) is never indexed |
| Classifier.Sample | src/greppy/chunker.py:154-156 | the sample is the file's first 8192 bytes: the whole file when it is that short, exactly 8192 bytes of it otherwise |
| Classifier.DecodeLatin1 | src/greppy/chunker.py:168-169 | Latin-1 decoding never fails and maps each byte to the character with the same code |
| Classifier.IsValidFile | src/greppy/chunker.py:135-179 | the checks run in order (stat error, empty, large, read error, binary, minified), and no file is ever rejected for "encoding" |
| Classifier.IsValidFileAccepted | src/greppy/chunker.py:135-179 | a file is accepted iff stat and read succeed, its size is between 1 byte and 512 KiB, and its sample holds no NUL byte and is not minified |
| Classifier.BinaryRejected | src/greppy/chunker.py:160-162 | a readable file of admissible size is rejected as binary iff its first 8192 bytes contain a zero byte |
| Classifier.HasNulIffZeroIn | src/greppy/chunker.py:161 | the recursive NUL test agrees with `b'\x00' in sample` |
| Classifier.HasLongLineIff | src/greppy/chunker.py:174-177 | the minified test finds a line exactly when some checked line is longer than 2000 characters |
| Classifier.ShortSampleNotMinified | src/greppy/chunker.py:173-177 | a sample of at most 2000 bytes is never taken for minified |
| Classifier.SkippedFiles.constructor | src/greppy/chunker.py:58-66 | all six reason lists start empty |
| Chunker.CountSkipped | src/greppy/chunker.py:68-69 | after `chunk_codebase` with a fresh report, `total()` plus the number of chunked files is the number of indexable files in the listing |
| Classifier.SkippedFiles.Record | src/greppy/chunker.py:307 | recording appends the path to its reason's list only, and raises the total by one |
| Chunker.HashContentIsHex | src/greppy/chunker.py:82-84 | a chunk id is 12 lower-case hex digits |
| Chunker.ChunkId | src/greppy/chunker.py:244 | the id hashes `path:start_line:content` and is 12 characters long |
| Chunker.ValidChunkAsRatio | src/greppy/chunker.py:182-199 | a chunk is valid iff its stripped text is non-empty, at least 10 characters long, and at least 0.3 of it is alphanumeric or whitespace |
| Chunker.RatioInIntegers | src/greppy/chunker.py:196 | the real ratio test `count / len >= 0.3` equals the integer test `10*count >= 3*len` |
| Chunker.SpansShape | src/greppy/chunker.py:224-265 | the chunk ranges of a file start at line 1, end at its last line, stay inside it, and each range after the first starts with the previous range's last three lines when that range has more than three lines, and right after it otherwise |
| Chunker.SpansCover | src/greppy/chunker.py:231-265 | every line of the file lies in some chunk range |
| Chunker.ChainedOrdered | src/greppy/chunker.py:247-250 | later ranges start and end strictly later, and consecutive ranges overlap or touch |
| Chunker.SmallTextOneSpan | src/greppy/chunker.py:231-265 | a text within the 2000-character budget is a single range over all its lines |
| Chunker.CostOfJoin | src/greppy/chunker.py:232-235 | the size the loop counts (`len(line) + 1` per line) is the joined chunk's length plus one |
| Chunker.FileChunksFacts | src/greppy/chunker.py:214-267 | every chunk of a file is valid, names the file, spans lines inside it, holds exactly those lines joined by newlines and carries the id of its path, start and content, and chunks come in increasing start order |
| Chunker.ChunkLines | src/greppy/chunker.py:224-267 | the imperative chunking loop returns exactly the functional chunks of the lines |
| Chunker.ChunkFile | src/greppy/chunker.py:214-267 | an unreadable or blank file gives no chunks, any other gives the chunks of its lines |
| Chunker.ChunkCodebase | src/greppy/chunker.py:281-323 | the chunks yielded are those of the eligible files in listing order, and each rejected indexable file is appended to the list of its reason |
| Chunker.SkipAccounting | src/greppy/chunker.py:298-320 | every indexable file is either accepted or recorded under exactly one reason, and none under "encoding" |
| Chunker.HashSnapshotContents | src/greppy/chunker.py:326-351 | the manifest maps exactly the eligible files' relative paths, each to the hash of its content |
| Chunker.GetFileHashes | src/greppy/chunker.py:326-351 | the loop builds exactly that manifest |
| Store.NamePart | src/greppy/store.py:30 | the name part of a collection name is at most 20 characters |
| Store.NamePartAt | src/greppy/store.py:30 | it is the directory name's first 20 characters with `-` and `.` replaced by `_`, and holds no `/` |
| Store.CollectionNameShape | src/greppy/store.py:25-31 | a collection name is at most 29 characters: the name part, `_`, and the first 8 hex digits of the resolved path's hash |
| Store.ManifestPathName | src/greppy/store.py:34-38 | the manifest file is named after the collection, with suffix `.json` |
| Store.ComputeChanges | src/greppy/store.py:86-107 | the loop returns the added, modified and deleted paths as set differences and hash comparison define them |
| Store.ChangesDisjoint | src/greppy/store.py:98-105 | added, modified and deleted are pairwise disjoint |
| Store.UnchangedInNone | src/greppy/store.py:98-105 | a path with the same hash in both manifests is in none of the three sets |
| Store.NoChangesIffIdentical | src/greppy/store.py:86-107 | all three sets are empty iff the manifest equals the current hashes |
| Store.ChangesReconcile | src/greppy/store.py:175-184 | `added \| modified` are the paths whose new hash is missing or different in the manifest; `modified \| deleted` are the manifest paths whose hash is missing or different now |
| Store.InsertedKeepsExisting | src/greppy/store.py:143-155 | adding chunks never changes a record that already exists, and adds only ids of the chunks given |
| Store.InsertedFresh | src/greppy/store.py:143-155 | each chunk with a new, distinct id is stored with its location, content and vector |
| Store.InsertedBatch | src/greppy/store.py:137-156 | adding the chunks batch by batch is adding them all at once |
| Store.BatchSizesFacts | src/greppy/store.py:137-141 | the batches cover the chunks in order, each holds 1 to 500 chunks, and all but the last hold exactly 500 |
| Store.NumBatchesBound | src/greppy/store.py:137 | batch `k` exists iff `k * 500` is below the number of chunks |
| Store.Stored | src/greppy/store.py:137-156 | the chunks stored before a failing add are fewer than all iff some batch fails |
| Store.HasIndexAfterIndexing | src/greppy/store.py:77-83 | once a full index run stores at least one chunk with no failing `add`, `has_index` finds the project indexed |
| Store.ProjectIndex.StoreBatches | src/greppy/store.py:137-156 | the add loop stores the chunks up to the first failing batch, calls `add` with the batch sizes in order, and raises iff a batch fails |
| Store.ProjectIndex.IndexChunks | src/greppy/store.py:110-165 | a full index clears the collection (unless reading it raises), stores all chunks in batches, saves the fresh manifest only if it stored at least one chunk and raised nothing, and returns the number of chunks |
| Store.FullReindexContents | src/greppy/store.py:110-165 | after a full index of distinct chunks, the collection holds exactly those chunks, each with its vector |
| Store.ProjectIndex.CollectStale | src/greppy/store.py:186-194 | the stale ids are those of records whose file, relative to the project, is modified or deleted; a record outside the project makes the step fail |
| Store.ProjectIndex.DeleteStale | src/greppy/store.py:183-199 | the deletion step removes exactly the stale records and counts them, and removes nothing when reading fails |
| Store.PrunedFacts | src/greppy/store.py:183-199 | deletion keeps every record of an unchanged file, removes every record of a changed file when it succeeds, and the count is the number of records removed |
| Store.FindFileFinds | src/greppy/store.py:205-207 | a listed file is found under its relative path |
| Store.ReindexedFilesPass | src/greppy/store.py:204-214 | every file in the fresh manifest exists and passes both filters again, so the re-chunking drops none of them |
| Store.ProjectIndex.CollectChunks | src/greppy/store.py:202-214 | the loop collects the chunks of the files to index that exist and pass both filters, in iteration order |
| Store.ProjectIndex.IndexIncremental | src/greppy/store.py:168-247 | an incremental run deletes the stale records, adds the chunks of added and modified files in batches of 500 (the `add` calls are exactly those batch sizes, up to the one that raised), saves the fresh manifest unless an add raised, and returns the added chunks, the deleted records and the number of files to index |
| Store.ProjectIndex.StoreReindexed | src/greppy/store.py:202-240 | when there are files to index, the re-chunked files are stored in batches of 500; no chunks means no `add` call; it raises iff a batch `add` raises |
| Store.IncrementalKeepsOtherFiles | src/greppy/store.py:183-241 | the records of files outside `modified \| deleted` survive an incremental run unchanged |
| Watch.IgnoredPathComponents | src/greppy/watcher.py:31-35 | the root part `/` of an absolute path never counts as skipped |
| Watch.IgnoresWholeProject | src/greppy/watcher.py:29-35 | as written, every path in a project that lies below a skipped or dot directory is ignored |
| Watch.DataDirectoryProject | src/greppy/watcher.py:29-42 | as written, `main.py` of a project at `/home/dev/data/app` is indexable, yet it is ignored and a change to it schedules no index run; with the corrected test it is a code file |
| Watch.AnySkippedAppend | src/greppy/watcher.py:31-35 | a path with parts `a + b` has a skipped part iff `a` or `b` has one |
| Watch.IgnoredAgreesUnderCleanProject | src/greppy/watcher.py:29-42 | under a project none of whose own directories is skipped, the written and the corrected tests agree on every path, so the two differ only for projects below a skipped directory |
| Watch.IgnoredBelowOnlyRelative | src/greppy/watcher.py:29-35 | corrected, a path under the project is ignored iff a part below the project root is skipped |
| Watch.CodeFileVersusIndexable | src/greppy/watcher.py:37-42 | for a path that `_should_ignore` lets through, the indexer indexes it iff the watcher treats it as code and it is not a lock file |
| Watch.CodeChangeHandler.constructor | src/greppy/watcher.py:17-27 | a new handler has no timer and has made no calls |
| Watch.CodeChangeHandler.ShouldIgnore | src/greppy/watcher.py:29-35 | the loop answers true iff some part of the whole event path, the directories above the project root included, is a skipped directory name or starts with `.` |
| Watch.CodeChangeHandler.IsCodeFile | src/greppy/watcher.py:37-42 | a path is a code file iff `_should_ignore` lets it through and its lower-cased suffix is a code extension |
| Watch.CodeChangeHandler.ScheduleIndex | src/greppy/watcher.py:44-54 | scheduling cancels the pending timer and starts a fresh one, so exactly one timer is live |
| Watch.CodeChangeHandler.Fire | src/greppy/watcher.py:56-60 | a live timer empties the slot and calls `on_change(project)` once; a cancelled one does nothing |
| Watch.CodeChangeHandler.OnEvent | src/greppy/watcher.py:62-77 | an event schedules a run iff it is not about a directory and its source, or a move's destination, is a code file; otherwise nothing changes |
| Watch.CodeChangeHandler.OnEvents | src/greppy/watcher.py:62-77 | after a burst of events a timer is pending iff one was before or some event qualified; at most one timer is live and no call is made |
| Watch.CodeChangeHandler.Stop | src/greppy/watcher.py:79-84 | stopping cancels the pending timer and empties the slot |
| Watch.Watcher.Start | src/greppy/watcher.py:102-115 | starting creates a fresh idle handler and a running observer |
| Watch.Watcher.Dispatch | src/greppy/watcher.py:110-115 | a running observer hands each event to the handler: a qualifying event cancels the pending timer and arms a fresh one as the only live timer, any other event leaves the handler as it was; a stopped observer hands it nothing |
| Watch.Watcher.StopAsWritten | src/greppy/watcher.py:117-123 | as written, the started handler itself is stopped before the observer, so after `stop` that handler has a timer pending iff an event in between qualified; it makes no `on_change` call, and a second `stop` leaves no timer |
| Watch.StopLeavesTimer | src/greppy/watcher.py:117-123 | as written, one qualifying event in between leaves a timer pending after `stop`, and when it runs out `on_change(project)` is called for the stopped watcher |
| Watch.Watcher.Stop | src/greppy/watcher.py:117-123 | corrected, the observer is stopped first, so the started handler has no timer pending after `stop` and has made no call |
| Watch.StopLeavesNoTimer | src/greppy/watcher.py:117-123 | corrected, no timer is pending after `stop`, whatever events arrive |
| Cli.Half | src/greppy/cli.py:233 | `context // 2` is the floor of half the context, also for negative values |
| Cli.ParseLocation | src/greppy/cli.py:218-244 | a parsed file name is a prefix of the location; an invalid range is the text after the last `:`, and it holds a `-` |
| Cli.ParseWholeFile | src/greppy/cli.py:241-244 | a location without `:` is the file, with lines `1..context` |
| Cli.ParseRangeRoundTrip | src/greppy/cli.py:219-228 | `file:A-B` reads lines A to B of `file`, even when the file name holds a `:` |
| Cli.ParseCenteredRoundTrip | src/greppy/cli.py:230-235 | `file:N` reads from `max(1, N - context//2)` to `N + context//2` |
| Cli.ParseColonInFileName | src/greppy/cli.py:236-240 | a line part that is neither a range nor an integer makes the whole location the file, with lines `1..context` |
| Cli.ParseInvalidRange | src/greppy/cli.py:219-228 | a line part `A-B` after the last `:`, with no `-` in `A`, one of whose sides is not an integer is the "Invalid line range" error for that line part |
| Cli.NumberedRoundTrip | src/greppy/cli.py:268-271 | a printed line gives back its number (the field before the tab) and its content (everything after the tab) |
| Cli.ReadLines | src/greppy/cli.py:258-271 | the range is clamped to start at 1 or later and end at the last line or earlier; exactly lines start to end are printed, numbered and with their line endings removed; nothing is printed when start is past end |
| Cli.ReadHead | src/greppy/cli.py:241-271 | a location without a line prints the first `context` lines of the file (all of them if it is shorter), numbered from 1 |
| Cli.LimitKeepsFirstLines | src/greppy/cli.py:174-177 | with a positive limit n, the output is the first n lines of the stripped output (all of them if there are fewer) and a prefix of it |
| Cli.LimitAboveLineCount | src/greppy/cli.py:197-200 | when the stripped output has no more lines than the limit, limiting only strips it |
| Cli.LimitDropsLastLines | src/greppy/cli.py:174-177 | with a negative limit -d, the last d lines of the stripped output are dropped and the rest is a prefix of it; nothing is left when there are no more than d lines |
| Cli.IndexModeCases | src/greppy/cli.py:54-97 | a full reindex happens iff forced, without an index or with an empty manifest; the index is reported up to date, with no incremental run, iff the manifest equals the current hashes; otherwise an incremental run follows |

## Left out

- Subprocesses and the file system are not modelled: `git ls-files`, `os.walk`, `stat`, `open`, `read_text`, and `rg`/`grep` in `exact`. A listing of `SourceFile` values stands for them, and `exact` is modelled from the output it receives.
- MD5 (RFC 1321) and the sentence-transformers embedder (`embedder.py`) are parameters. Only the digest's length and hex alphabet, and one vector per text, are relied on.
- ChromaDB is a map from chunk id to record. `search`, `clear_index` and `get_stats` are not modelled: search scores use floating point, and the others only report.
- `get_collection` raising (src/greppy/store.py:115 and src/greppy/store.py:172) is not modelled: it raises before `index_chunks` or `index_incremental` changes anything. An embedder failure is modelled only through `failsAt == Some(0)`, which leaves the same collection and manifest when there are chunks to add.
- The JSON encoding of the manifest is not modelled. An absent or unparseable manifest is the empty map.
- Store.ProjectIndex.Add: an `add` whose id already exists keeps the stored record. Chroma's behaviour for duplicate ids is not modelled beyond that.
- Store.ProjectIndex.IndexIncremental: Python's iteration order over `files_to_index` is the `order` parameter, which must list that set once each. Which order Python picks is not modelled.
- Watch.CodeChangeHandler.Fire: timers are discrete steps. The race where a cancelled timer fires late and clears a newer timer's slot is not modelled, and neither are the lock, debounce seconds, `Watcher.wait` and `KeyboardInterrupt`.
- Cli.ParseLocation: `int()` is modelled as an optional sign followed by ASCII digits. Python also accepts surrounding whitespace, underscores and other Unicode digits, so `f.py: 45` would be a line 45 in Python but a file name here.
- Text.Strip, Text.Lower and the character classes cover only ASCII whitespace, letters and digits. Python's full Unicode tables are not modelled.
- Classifier.IsValidFile: strict UTF-8 decoding is modelled byte by byte. The Latin-1 fallback always succeeds, so the "encoding" reason never occurs.
- Rich console output, progress bars, click argument handling and `sys.exit` are not modelled. The `read` header line and the messages of `index`, `status` and `clear` are left out with them.
- Chunker: `MAX_CHUNK_SIZE` is applied as written. A single line longer than the budget, or a carried-over overlap, can make a chunk larger than 2000 characters. `OVERLAP_SIZE` is declared but never used.

## Findings

| source | as written | input that shows it | evidently intended | confidence | as-written member | corrected member |
|---|---|---|---|---|---|---|
| src/greppy/watcher.py:29-35 | `_should_ignore` tests every part of the absolute event path, including the directories above the project root | a project at `/home/dev/data/app` (or anywhere inside a dot-directory): the event for `/home/dev/data/app/main.py` is ignored, so the watcher never re-indexes, although `index` indexes that file | test only the parts below the project root, as the directory pruning of the walk does | not executed | Watch.DataDirectoryProject | Watch.IgnoredBelowOnlyRelative |
| src/greppy/watcher.py:117-123 | `Watcher.stop` cancels the handler's timer before it stops and joins the observer | a code-file event delivered between `self._handler.stop()` and `self._observer.stop()` starts a new timer, which fires after `stop` returns and calls `on_change` for a stopped watcher | stop the observer first, then cancel the timer | not executed | Watch.StopLeavesTimer | Watch.StopLeavesNoTimer |
