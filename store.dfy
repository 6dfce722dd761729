/**
 * The index bookkeeping of `store.py`: the collection and manifest names of a
 * project, the diff of two manifests (`compute_changes`), and the collection
 * of a project as a map from chunk id to its stored record, written in
 * batches of 500 by the full (`index_chunks`) and incremental
 * (`index_incremental`) reindex.
 */
module Store {
  import opened Wrappers
  import opened Text
  import opened Paths
  import opened Classifier
  import opened Chunker

  /** Number of chunks written by one `collection.add` call. */
  const ChromaBatchSize: nat := 500

  /** Number of hex digits of the path hash in a collection name. */
  const PathHashLength: nat := 8

  /** Number of characters kept of the project directory's name. */
  const NameLength: nat := 20

  // ---------------------------------------------------------------------
  // get_collection_name and get_manifest_path
  // ---------------------------------------------------------------------

  /** The project directory's name with `-` and `.` replaced by `_`, cut to 20 characters. */
  function NamePart(projectPath: string): (part: string)
    ensures |part| <= NameLength
  {
    PrefixSlice(ReplaceChar(ReplaceChar(Name(projectPath), '-', '_'), '.', '_'), NameLength)
  }

  /**
   * `get_collection_name`: the name part, `_`, and the first 8 hex digits of
   * the MD5 digest of the resolved project path (`resolved`, which the file
   * system supplies).
   */
  function CollectionName(md5: Md5, projectPath: string, resolved: string): string
  {
    NamePart(projectPath) + "_" + md5(resolved)[..PathHashLength]
  }

  /** The name part is the project's name, cut to 20 characters, with every `-` and `.` made `_`. */
  lemma NamePartAt(projectPath: string)
    ensures |NamePart(projectPath)| == if |Name(projectPath)| < NameLength then |Name(projectPath)| else NameLength
    ensures forall k :: 0 <= k < |NamePart(projectPath)| ==>
      NamePart(projectPath)[k] == (if Name(projectPath)[k] == '-' || Name(projectPath)[k] == '.' then '_' else Name(projectPath)[k])
    ensures '/' !in NamePart(projectPath)
  {
    hide Name;
    var name := Name(projectPath);
    var once := ReplaceChar(name, '-', '_');
    var twice := ReplaceChar(once, '.', '_');
    ReplaceCharAt(name, '-', '_');
    ReplaceCharAt(once, '.', '_');
    NameIsComponent(projectPath);
    var part := NamePart(projectPath);
    assert forall k :: 0 <= k < |part| ==> part[k] == twice[k];
    forall k | 0 <= k < |part|
      ensures part[k] != '/'
    {
      assert name[k] != '/';
    }
  }

  /**
   * A collection name is at most 29 characters: the name part, `_` and the
   * path hash, so that two projects with the same directory name get
   * different collections when their resolved paths hash differently. It
   * holds no `/`.
   */
  lemma CollectionNameShape(md5: Md5, projectPath: string, resolved: string)
    ensures |CollectionName(md5, projectPath, resolved)| <= NameLength + 1 + PathHashLength
    ensures |CollectionName(md5, projectPath, resolved)| == |NamePart(projectPath)| + 1 + PathHashLength
    ensures CollectionName(md5, projectPath, resolved)[|NamePart(projectPath)|] == '_'
    ensures CollectionName(md5, projectPath, resolved)[|NamePart(projectPath)| + 1..] == md5(resolved)[..PathHashLength]
    ensures '/' !in CollectionName(md5, projectPath, resolved)
  {
    NamePartAt(projectPath);
    hide Name, NamePart;
    var part := NamePart(projectPath);
    var full := CollectionName(md5, projectPath, resolved);
    var digest := md5(resolved);
    forall k | 0 <= k < |full|
      ensures full[k] != '/'
    {
      if k < |part| {
        assert full[k] == part[k];
      } else if k > |part| {
        assert full[k] == digest[k - |part| - 1];
      }
    }
  }

  /** `get_manifest_path`: the file `<collection name>.json` in the manifest directory. */
  function ManifestPath(manifestDir: string, collection: string): string
  {
    JoinPath(manifestDir, collection + ".json")
  }

  /** A file name with suffix `.json` and no `/` is a one-component relative path with that suffix. */
  lemma JsonFileName(file: string)
    requires '/' !in file && |file| >= 6 && file[|file| - 5..] == ".json"
    ensures IsNormalRelative(file) && Name(file) == file && Suffix(file) == ".json"
  {
    NoSeparatorSplit(file, '/');
    assert Components(file) == [file];
    assert Render(false, [file]) == file;
    LastIndexOfFacts(file, '.');
    var i := LastIndexOf(file, '.');
    assert file[|file| - 5] == '.';
    assert i.Some?;
    assert i.value == |file| - 5;
  }

  /** The manifest of a project is a file directly inside the manifest directory, named after its collection, with suffix `.json`. */
  lemma ManifestPathName(md5: Md5, manifestDir: string, projectPath: string, resolved: string)
    ensures Name(ManifestPath(manifestDir, CollectionName(md5, projectPath, resolved)))
      == CollectionName(md5, projectPath, resolved) + ".json"
    ensures Suffix(ManifestPath(manifestDir, CollectionName(md5, projectPath, resolved))) == ".json"
  {
    var name := CollectionName(md5, projectPath, resolved);
    CollectionNameShape(md5, projectPath, resolved);
    hide CollectionName, Name, Suffix, JoinPath, Components;
    var file := name + ".json";
    assert '/' !in file by {
      forall k | 0 <= k < |file|
        ensures file[k] != '/'
      {
        if k < |name| {
          assert file[k] == name[k];
        }
      }
    }
    assert file[|file| - 5..] == ".json";
    JsonFileName(file);
    NameOfJoinPath(manifestDir, file);
  }

  // ---------------------------------------------------------------------
  // compute_changes
  // ---------------------------------------------------------------------

  /** Paths the new manifest has and the old one has not. */
  function Added(oldHashes: map<string, string>, newHashes: map<string, string>): set<string>
  {
    newHashes.Keys - oldHashes.Keys
  }

  /** Paths the old manifest has and the new one has not. */
  function Deleted(oldHashes: map<string, string>, newHashes: map<string, string>): set<string>
  {
    oldHashes.Keys - newHashes.Keys
  }

  /** Paths in both manifests whose hashes differ. */
  function Modified(oldHashes: map<string, string>, newHashes: map<string, string>): set<string>
  {
    set p | p in oldHashes && p in newHashes && oldHashes[p] != newHashes[p]
  }

  /**
   * `compute_changes` on the loaded manifest and the fresh one: the two set
   * differences, then a loop over the common paths collecting the ones whose
   * hash changed.
   */
  method ComputeChanges(oldHashes: map<string, string>, newHashes: map<string, string>)
    returns (added: set<string>, modified: set<string>, deleted: set<string>)
    ensures added == Added(oldHashes, newHashes)
    ensures modified == Modified(oldHashes, newHashes)
    ensures deleted == Deleted(oldHashes, newHashes)
  {
    added := newHashes.Keys - oldHashes.Keys;
    deleted := oldHashes.Keys - newHashes.Keys;
    modified := {};
    var common := oldHashes.Keys * newHashes.Keys;
    var rest := common;
    while rest != {}
      invariant rest <= common
      invariant forall p :: p in modified <==> p in common && p !in rest && oldHashes[p] != newHashes[p]
      decreases |rest|
    {
      var f :| f in rest;
      if oldHashes[f] != newHashes[f] {
        modified := modified + {f};
      }
      rest := rest - {f};
    }
  }

  /** The three sets are pairwise disjoint. */
  lemma ChangesDisjoint(oldHashes: map<string, string>, newHashes: map<string, string>)
    ensures Added(oldHashes, newHashes) !! Modified(oldHashes, newHashes)
    ensures Added(oldHashes, newHashes) !! Deleted(oldHashes, newHashes)
    ensures Modified(oldHashes, newHashes) !! Deleted(oldHashes, newHashes)
  {
  }

  /** A path with the same hash in both manifests is in none of the three sets. */
  lemma UnchangedInNone(oldHashes: map<string, string>, newHashes: map<string, string>, p: string)
    requires p in oldHashes && p in newHashes && oldHashes[p] == newHashes[p]
    ensures p !in Added(oldHashes, newHashes)
    ensures p !in Modified(oldHashes, newHashes)
    ensures p !in Deleted(oldHashes, newHashes)
  {
  }

  /** There are no changes exactly when the two manifests are identical. */
  lemma NoChangesIffIdentical(oldHashes: map<string, string>, newHashes: map<string, string>)
    ensures Added(oldHashes, newHashes) == {} && Modified(oldHashes, newHashes) == {}
        && Deleted(oldHashes, newHashes) == {}
      <==> oldHashes == newHashes
  {
    if Added(oldHashes, newHashes) == {} && Modified(oldHashes, newHashes) == {}
      && Deleted(oldHashes, newHashes) == {}
    {
      assert oldHashes.Keys == newHashes.Keys by {
        forall p | p in newHashes ensures p in oldHashes {
          assert p !in Added(oldHashes, newHashes);
        }
        forall p | p in oldHashes ensures p in newHashes {
          assert p !in Deleted(oldHashes, newHashes);
        }
      }
      forall p | p in oldHashes
        ensures oldHashes[p] == newHashes[p]
      {
        assert p !in Modified(oldHashes, newHashes);
      }
    }
  }

  /**
   * The changes reconcile the old manifest with the new one: the files to
   * re-chunk (`added | modified`) are exactly the new paths whose hash is new
   * or different, the files whose chunks are dropped (`modified | deleted`)
   * exactly the old paths that are gone or changed, and the new set of paths
   * is the old one without the deleted and with the added paths.
   */
  lemma ChangesReconcile(oldHashes: map<string, string>, newHashes: map<string, string>, p: string)
    ensures p in Added(oldHashes, newHashes) + Modified(oldHashes, newHashes)
      <==> p in newHashes && (p !in oldHashes || oldHashes[p] != newHashes[p])
    ensures p in Modified(oldHashes, newHashes) + Deleted(oldHashes, newHashes)
      <==> p in oldHashes && (p !in newHashes || oldHashes[p] != newHashes[p])
    ensures p in newHashes <==> p in (oldHashes.Keys - Deleted(oldHashes, newHashes)) + Added(oldHashes, newHashes)
  {
  }

  // ---------------------------------------------------------------------
  // The collection: records and batched adds
  // ---------------------------------------------------------------------

  /** An embedding vector. */
  type Vector = seq<real>

  /** `get_embeddings`: an opaque embedding function that gives one vector per text. */
  type Embedder = f: seq<string> -> seq<Vector> | forall texts :: |f(texts)| == |texts|
    witness (texts: seq<string>) => seq(|texts|, _ => [])

  /** What the collection stores under a chunk id: the metadata, the document and its embedding. */
  datatype Record = Record(filePath: string, startLine: nat, endLine: nat, document: string, embedding: Vector)

  /** The record `collection.add` stores for a chunk and its embedding. */
  function RecordOf(c: CodeChunk, embedding: Vector): Record
  {
    Record(c.filePath, c.startLine, c.endLine, c.content, embedding)
  }

  /** The embeddings of the chunks' texts, one per chunk. */
  function Vectors(embed: Embedder, chunks: seq<CodeChunk>): (vectors: seq<Vector>)
    ensures |vectors| == |chunks|
  {
    embed(Texts(chunks))
  }

  /** `[c.content for c in chunks]`. */
  function Texts(chunks: seq<CodeChunk>): (texts: seq<string>)
    ensures |texts| == |chunks|
    ensures forall k :: 0 <= k < |chunks| ==> texts[k] == chunks[k].content
  {
    seq(|chunks|, k requires 0 <= k < |chunks| => chunks[k].content)
  }

  /**
   * The collection after the first `n` chunks have been added, each with the
   * embedding at its own index. An id the collection already holds keeps its
   * record (ChromaDB ignores an `add` of an existing id).
   */
  function Inserted(entries: map<string, Record>, chunks: seq<CodeChunk>, vectors: seq<Vector>, n: nat): map<string, Record>
    requires n <= |chunks| == |vectors|
  {
    if n == 0 then entries
    else
      var before := Inserted(entries, chunks, vectors, n - 1);
      var c := chunks[n - 1];
      if c.Id() in before then before else before[c.Id() := RecordOf(c, vectors[n - 1])]
  }

  /** Adding chunks never changes a record the collection already held, and adds no id beyond the chunks' ids. */
  lemma {:induction false} InsertedKeepsExisting(entries: map<string, Record>, chunks: seq<CodeChunk>, vectors: seq<Vector>, n: nat)
    requires n <= |chunks| == |vectors|
    ensures forall id :: id in entries ==>
      id in Inserted(entries, chunks, vectors, n) && Inserted(entries, chunks, vectors, n)[id] == entries[id]
    ensures forall id :: id in Inserted(entries, chunks, vectors, n) ==>
      id in entries || exists k :: 0 <= k < n && chunks[k].Id() == id
  {
    if n > 0 {
      InsertedKeepsExisting(entries, chunks, vectors, n - 1);
      var before := Inserted(entries, chunks, vectors, n - 1);
      forall id | id in Inserted(entries, chunks, vectors, n)
        ensures id in entries || exists k :: 0 <= k < n && chunks[k].Id() == id
      {
        if id !in before {
          assert chunks[n - 1].Id() == id;
        }
      }
    }
  }

  /** Chunks with distinct ids that the collection does not hold yet are each stored with their own metadata, text and embedding. */
  lemma {:induction false} InsertedFresh(entries: map<string, Record>, chunks: seq<CodeChunk>, vectors: seq<Vector>, n: nat)
    requires n <= |chunks| == |vectors|
    requires forall j, k :: 0 <= j < k < n ==> chunks[j].Id() != chunks[k].Id()
    requires forall k :: 0 <= k < n ==> chunks[k].Id() !in entries
    ensures forall k :: 0 <= k < n ==>
      chunks[k].Id() in Inserted(entries, chunks, vectors, n)
      && Inserted(entries, chunks, vectors, n)[chunks[k].Id()] == RecordOf(chunks[k], vectors[k])
  {
    if n > 0 {
      InsertedFresh(entries, chunks, vectors, n - 1);
      InsertedKeepsExisting(entries, chunks, vectors, n - 1);
      var before := Inserted(entries, chunks, vectors, n - 1);
      var c := chunks[n - 1];
      assert c.Id() !in before;
      var after := before[c.Id() := RecordOf(c, vectors[n - 1])];
      assert Inserted(entries, chunks, vectors, n) == after;
      forall k | 0 <= k < n
        ensures chunks[k].Id() in after && after[chunks[k].Id()] == RecordOf(chunks[k], vectors[k])
      {
        if k < n - 1 {
          assert chunks[k].Id() != c.Id();
        }
      }
    }
  }

  /** Every added chunk's id is in the collection afterwards, whether or not it was there before. */
  lemma {:induction false} InsertedHoldsChunks(entries: map<string, Record>, chunks: seq<CodeChunk>, vectors: seq<Vector>, n: nat)
    requires n <= |chunks| == |vectors|
    ensures forall k :: 0 <= k < n ==> chunks[k].Id() in Inserted(entries, chunks, vectors, n)
  {
    if n > 0 {
      InsertedHoldsChunks(entries, chunks, vectors, n - 1);
    }
  }

  lemma InsertedNothing(entries: map<string, Record>, chunks: seq<CodeChunk>, vectors: seq<Vector>)
    requires |chunks| == |vectors|
    ensures Inserted(entries, chunks, vectors, 0) == entries
  {
  }

  /** Adding the rest of the chunks from `i` on continues adding the first `i`. */
  lemma {:induction false} InsertedTail(entries: map<string, Record>, chunks: seq<CodeChunk>, vectors: seq<Vector>, i: nat, j: nat)
    requires i <= j <= |chunks| == |vectors|
    ensures Inserted(Inserted(entries, chunks, vectors, i), chunks[i..], vectors[i..], j - i)
      == Inserted(entries, chunks, vectors, j)
  {
    if j > i {
      InsertedTail(entries, chunks, vectors, i, j - 1);
      assert chunks[i..][j - 1 - i] == chunks[j - 1];
      assert vectors[i..][j - 1 - i] == vectors[j - 1];
    }
  }

  /** Adding the chunks `[i, j)` as one batch continues adding the first `i`. */
  lemma InsertedBatch(entries: map<string, Record>, chunks: seq<CodeChunk>, vectors: seq<Vector>, i: nat, j: nat)
    requires i <= j <= |chunks| == |vectors|
    ensures Inserted(Inserted(entries, chunks, vectors, i), chunks[i..j], vectors[i..j], j - i)
      == Inserted(entries, chunks, vectors, j)
  {
    InsertedTail(entries, chunks, vectors, i, j);
    assert chunks[i..][..j - i] == chunks[i..j];
    assert vectors[i..][..j - i] == vectors[i..j];
    InsertedPrefix(Inserted(entries, chunks, vectors, i), chunks[i..], vectors[i..], j - i);
  }

  /** Only the first `n` chunks matter to `Inserted(.., n)`. */
  lemma {:induction false} InsertedPrefix(entries: map<string, Record>, chunks: seq<CodeChunk>, vectors: seq<Vector>, n: nat)
    requires n <= |chunks| == |vectors|
    ensures Inserted(entries, chunks[..n], vectors[..n], n) == Inserted(entries, chunks, vectors, n)
    decreases n
  {
    if n > 0 {
      assert chunks[..n][..n - 1] == chunks[..n - 1];
      assert vectors[..n][..n - 1] == vectors[..n - 1];
      InsertedPrefix(entries, chunks[..n], vectors[..n], n - 1);
      InsertedPrefix(entries, chunks, vectors, n - 1);
    }
  }

  // ---------------------------------------------------------------------
  // Batches: `for i in range(0, n, CHROMA_BATCH_SIZE)`
  // ---------------------------------------------------------------------

  /** `len(range(0, n, 500))`. */
  function NumBatches(n: nat): nat
  {
    (n + ChromaBatchSize - 1) / ChromaBatchSize
  }

  /** `min(a, b)`. */
  function Min(a: nat, b: nat): nat
  {
    if a < b then a else b
  }

  /**
   * The sizes of the first `b` slices `[i, min(i + 500, n))` for `i` in
   * `range(0, n, 500)`, that is, of the first `b` `add` calls for `n` chunks.
   */
  function BatchSizes(n: nat, b: nat): (sizes: seq<nat>)
    requires b <= NumBatches(n)
    ensures |sizes| == b
  {
    if b == 0 then []
    else
      NumBatchesBound(n, b - 1);
      BatchSizes(n, b - 1) + [Min(ChromaBatchSize, n - (b - 1) * ChromaBatchSize)]
  }

  /** The sum of a sequence of sizes. */
  function Sum(xs: seq<nat>): nat
  {
    if |xs| == 0 then 0 else Sum(xs[..|xs| - 1]) + xs[|xs| - 1]
  }

  /**
   * The batches split the first chunks into consecutive slices: every slice
   * holds between 1 and 500 chunks, all but the last of all exactly 500, and
   * the first `b` together hold `min(500 * b, n)` chunks, so all `n` batches
   * hold each chunk once.
   */
  lemma {:induction false} BatchSizesFacts(n: nat, b: nat)
    requires b <= NumBatches(n)
    ensures Sum(BatchSizes(n, b)) == Min(b * ChromaBatchSize, n)
    ensures forall k :: 0 <= k < b ==> 1 <= BatchSizes(n, b)[k] <= ChromaBatchSize
    ensures forall k :: 0 <= k < b && k < NumBatches(n) - 1 ==> BatchSizes(n, b)[k] == ChromaBatchSize
  {
    if b > 0 {
      BatchSizesFacts(n, b - 1);
      LastBatch(n, b);
      var p := (b - 1) * ChromaBatchSize;
      var last := Min(ChromaBatchSize, n - p);
      var before := BatchSizes(n, b - 1);
      var sizes := BatchSizes(n, b);
      hide NumBatches, BatchSizes;
      assert sizes[..b - 1] == before;
      assert Sum(sizes) == Sum(before) + last;
      forall k | 0 <= k < b
        ensures 1 <= sizes[k] <= ChromaBatchSize
        ensures k < NumBatches(n) - 1 ==> sizes[k] == ChromaBatchSize
      {
        if k < b - 1 {
          assert sizes[k] == before[k];
        }
      }
    }
  }

  /** Batch `b - 1` starts below `n` and is the last one appended; it is full unless it is the last batch of all. */
  lemma LastBatch(n: nat, b: nat)
    requires 0 < b <= NumBatches(n)
    ensures (b - 1) * ChromaBatchSize < n
    ensures b * ChromaBatchSize == (b - 1) * ChromaBatchSize + ChromaBatchSize
    ensures BatchSizes(n, b) == BatchSizes(n, b - 1) + [Min(ChromaBatchSize, n - (b - 1) * ChromaBatchSize)]
    ensures b < NumBatches(n) ==> n - (b - 1) * ChromaBatchSize > ChromaBatchSize
  {
    NumBatchesBound(n, b - 1);
    NumBatchesBound(n, b);
  }

  /** One more batch is the slice from `500 * b` on, of at most 500 chunks. */
  lemma BatchSizesStep(n: nat, b: nat)
    requires b < NumBatches(n)
    ensures BatchSizes(n, b + 1) == BatchSizes(n, b) + [Min(b * ChromaBatchSize + ChromaBatchSize, n) - b * ChromaBatchSize]
  {
    NumBatchesBound(n, b);
  }

  /** Batch `k` of `n` chunks exists exactly when its start is below `n`. */
  lemma NumBatchesBound(n: nat, k: nat)
    ensures k < NumBatches(n) <==> k * ChromaBatchSize < n
  {
  }

  /** The `add` of batch `failsAt.value` raises, and that batch exists for `n` chunks. */
  predicate BatchFails(failsAt: Option<nat>, n: nat)
  {
    failsAt.Some? && failsAt.value < NumBatches(n)
  }

  /** How many of `n` chunks are stored before an `add` raises (all of them when none does). */
  function Stored(failsAt: Option<nat>, n: nat): (stored: nat)
    ensures stored <= n
    ensures stored < n <==> BatchFails(failsAt, n)
  {
    if BatchFails(failsAt, n) then
      NumBatchesBound(n, failsAt.value);
      failsAt.value * ChromaBatchSize
    else n
  }

  /** How many `add` calls complete for `n` chunks. */
  function CompletedBatches(failsAt: Option<nat>, n: nat): (b: nat)
    ensures b <= NumBatches(n)
  {
    if BatchFails(failsAt, n) then failsAt.value else NumBatches(n)
  }

  // ---------------------------------------------------------------------
  // index_incremental: stale ids and files to re-chunk
  // ---------------------------------------------------------------------

  /** Every stored chunk's `file_path` lies under the project, so `relative_to` does not raise. */
  predicate AllUnder(entries: map<string, Record>, project: string)
  {
    forall id :: id in entries ==> RelativeTo(entries[id].filePath, project).Some?
  }

  /**
   * The ids `index_incremental` collects for deletion: those whose
   * `file_path`, made relative to the project, is a file to delete; None when
   * `relative_to` raises for some stored chunk, which abandons the deletion.
   */
  function StaleIds(entries: map<string, Record>, project: string, toDelete: set<string>): Option<set<string>>
  {
    if AllUnder(entries, project) then
      Some(set id | id in entries && RelativeTo(entries[id].filePath, project).Some?
                      && RelativeTo(entries[id].filePath, project).value in toDelete)
    else None
  }

  /** `added | modified`: the files `index_incremental` re-chunks. */
  function ToIndex(oldHashes: map<string, string>, newHashes: map<string, string>): set<string>
  {
    Added(oldHashes, newHashes) + Modified(oldHashes, newHashes)
  }

  /** `modified | deleted`: the files whose stored chunks `index_incremental` deletes. */
  function ToDelete(oldHashes: map<string, string>, newHashes: map<string, string>): set<string>
  {
    Modified(oldHashes, newHashes) + Deleted(oldHashes, newHashes)
  }

  lemma ChangeSets(oldHashes: map<string, string>, newHashes: map<string, string>)
    ensures Added(oldHashes, newHashes) + Modified(oldHashes, newHashes) == ToIndex(oldHashes, newHashes)
    ensures Modified(oldHashes, newHashes) + Deleted(oldHashes, newHashes) == ToDelete(oldHashes, newHashes)
  {
  }

  /** The collection after the deletion step of `index_incremental`. */
  function Pruned(entries: map<string, Record>, project: string, toDelete: set<string>, readFails: bool): map<string, Record>
  {
    if toDelete == {} || readFails then entries
    else
      match StaleIds(entries, project, toDelete)
      case None => entries
      case Some(ids) => entries - ids
  }

  /** `deleted_count`: the number of ids the deletion step removes. */
  function DeletedCount(entries: map<string, Record>, project: string, toDelete: set<string>, readFails: bool): nat
  {
    if toDelete == {} || readFails then 0
    else
      match StaleIds(entries, project, toDelete)
      case None => 0
      case Some(ids) => |ids|
  }

  /**
   * The deletion step removes exactly the chunks of the files to delete: a
   * chunk of any other file keeps its record, a chunk of a file to delete is
   * gone when the step ran, and `deleted_count` is the number of ids removed.
   */
  lemma PrunedFacts(entries: map<string, Record>, project: string, toDelete: set<string>, readFails: bool)
    ensures Pruned(entries, project, toDelete, readFails).Keys <= entries.Keys
    ensures forall id :: (id in entries && RelativeTo(entries[id].filePath, project).Some?
        && RelativeTo(entries[id].filePath, project).value !in toDelete) ==>
      id in Pruned(entries, project, toDelete, readFails) && Pruned(entries, project, toDelete, readFails)[id] == entries[id]
    ensures !readFails && AllUnder(entries, project) ==>
      forall id :: id in entries && RelativeTo(entries[id].filePath, project).value in toDelete ==>
        id !in Pruned(entries, project, toDelete, readFails)
    ensures DeletedCount(entries, project, toDelete, readFails)
      == |entries.Keys| - |Pruned(entries, project, toDelete, readFails).Keys|
  {
    hide RelativeTo;
    var pruned := Pruned(entries, project, toDelete, readFails);
    if toDelete != {} && !readFails && AllUnder(entries, project) {
      var ids := StaleIds(entries, project, toDelete).value;
      assert ids <= entries.Keys;
      assert pruned.Keys == entries.Keys - ids;
      CardinalityOfDifference(entries.Keys, ids);
    }
  }

  /** What the deletion step does, case by case. */
  lemma PrunedStep(entries: map<string, Record>, project: string, toDelete: set<string>, readFails: bool)
    ensures toDelete == {} || readFails || StaleIds(entries, project, toDelete).None? ==>
      Pruned(entries, project, toDelete, readFails) == entries && DeletedCount(entries, project, toDelete, readFails) == 0
    ensures toDelete != {} && !readFails && StaleIds(entries, project, toDelete).Some? ==>
      Pruned(entries, project, toDelete, readFails) == entries - StaleIds(entries, project, toDelete).value
      && DeletedCount(entries, project, toDelete, readFails) == |StaleIds(entries, project, toDelete).value|
  {
  }

  lemma CardinalityOfDifference<T>(a: set<T>, b: set<T>)
    requires b <= a
    ensures |a - b| == |a| - |b|
  {
    assert a == (a - b) + b;
  }

  /** The first file of the listing with relative path `rel`: where `(project / rel).exists()` holds. */
  function FindFile(files: seq<SourceFile>, rel: string): (r: Option<SourceFile>)
    ensures r.Some? ==> r.value in files && r.value.rel == rel
  {
    if |files| == 0 then None
    else if files[0].rel == rel then Some(files[0])
    else FindFile(files[1..], rel)
  }

  /** A file is found by its relative path exactly when the listing has one. */
  lemma {:induction false} FindFileFinds(files: seq<SourceFile>, k: nat)
    requires k < |files| && DistinctRels(files)
    ensures FindFile(files, files[k].rel) == Some(files[k])
  {
    if k > 0 {
      assert files[0].rel != files[k].rel;
      assert DistinctRels(files[1..]) by {
        forall a, b | 0 <= a < b < |files| - 1
          ensures files[1..][a].rel != files[1..][b].rel
        {
          assert files[1..][a] == files[a + 1] && files[1..][b] == files[b + 1];
        }
      }
      FindFileFinds(files[1..], k - 1);
    }
  }

  /**
   * What the re-chunking loop of `index_incremental` yields for the first `n`
   * relative paths of `order`: a path whose file no longer exists, whose name
   * `should_index_file` rejects or which `is_valid_file` rejects adds nothing;
   * any other adds the chunks of `project / rel`.
   */
  function Reindexed(md5: Md5, project: string, files: seq<SourceFile>, order: seq<string>, n: nat): seq<CodeChunk>
    requires n <= |order|
  {
    if n == 0 then []
    else
      var rel := order[n - 1];
      var path := JoinPath(project, rel);
      Reindexed(md5, project, files, order, n - 1)
        + match FindFile(files, rel)
          case None => []
          case Some(f) =>
            if ShouldIndexFile(path) && IsValidFile(f.snapshot) == Accepted then ChunksOfText(md5, path, f.snapshot.text) else []
  }

  lemma FirstInSet(order: seq<string>, s: set<string>)
    requires forall p :: p in order <==> p in s
    ensures |order| > 0 ==> order[0] in s
  {
  }

  lemma ReindexedNothing(md5: Md5, project: string, files: seq<SourceFile>, order: seq<string>)
    requires order == []
    ensures Reindexed(md5, project, files, order, |order|) == []
  {
  }

  /** Each listed file lives at `project / rel`, with `rel` in normal form. */
  predicate ListedUnder(project: string, files: seq<SourceFile>)
  {
    forall k :: 0 <= k < |files| ==> IsNormalRelative(files[k].rel) && files[k].path == JoinPath(project, files[k].rel)
  }

  /**
   * The re-chunking loop drops no file the fresh manifest holds: such a file
   * exists, and the filters it is checked against again are the ones it
   * passed when the manifest was built.
   */
  lemma ReindexedFilesPass(md5: Md5, project: string, files: seq<SourceFile>, rel: string)
    requires ListedUnder(project, files) && DistinctRels(files)
    requires rel in HashSnapshot(md5, files, |files|)
    ensures FindFile(files, rel).Some?
    ensures ShouldIndexFile(JoinPath(project, rel)) && IsValidFile(FindFile(files, rel).value.snapshot) == Accepted
  {
    HashSnapshotContents(md5, files, |files|);
    hide HashSnapshot, JoinPath, ShouldIndexFile, IsValidFile;
    var k :| 0 <= k < |files| && files[k].rel == rel && Eligible(files[k]);
    FindFileFinds(files, k);
  }

  /**
   * `index_incremental` leaves the chunks of every file outside
   * `modified | deleted` as they were: neither the deletion step nor the
   * adds change their records.
   */
  lemma IncrementalKeepsOtherFiles(entries: map<string, Record>, project: string, toDelete: set<string>, readFails: bool,
                                   chunks: seq<CodeChunk>, vectors: seq<Vector>, n: nat, id: string)
    requires n <= |chunks| == |vectors|
    requires id in entries && RelativeTo(entries[id].filePath, project).Some?
    requires RelativeTo(entries[id].filePath, project).value !in toDelete
    ensures id in Inserted(Pruned(entries, project, toDelete, readFails), chunks, vectors, n)
    ensures Inserted(Pruned(entries, project, toDelete, readFails), chunks, vectors, n)[id] == entries[id]
  {
    PrunedFacts(entries, project, toDelete, readFails);
    InsertedKeepsExisting(Pruned(entries, project, toDelete, readFails), chunks, vectors, n);
  }

  /**
   * After a full reindex that cleared the collection, it holds exactly the
   * chunks (when their ids are distinct): each under its id, with its own
   * metadata, text and embedding, and nothing else.
   */
  lemma FullReindexContents(chunks: seq<CodeChunk>, vectors: seq<Vector>)
    requires |chunks| == |vectors|
    requires forall j, k :: 0 <= j < k < |chunks| ==> chunks[j].Id() != chunks[k].Id()
    ensures forall k :: 0 <= k < |chunks| ==>
      chunks[k].Id() in Inserted(map[], chunks, vectors, |chunks|)
      && Inserted(map[], chunks, vectors, |chunks|)[chunks[k].Id()] == RecordOf(chunks[k], vectors[k])
    ensures forall id :: id in Inserted(map[], chunks, vectors, |chunks|) ==>
      exists k :: 0 <= k < |chunks| && chunks[k].Id() == id
  {
    InsertedFresh(map[], chunks, vectors, |chunks|);
    InsertedKeepsExisting(map[], chunks, vectors, |chunks|);
  }

  // ---------------------------------------------------------------------
  // The project's collection and manifest
  // ---------------------------------------------------------------------

  /** The outcome of an operation that may raise. */
  datatype Outcome<T> = Done(value: T) | Raised

  /** What `index_incremental` returns: `(added_chunks, deleted_chunks, files_updated)`. */
  datatype Counts = Counts(addedChunks: nat, deletedChunks: nat, filesUpdated: nat)

  /**
   * A project's ChromaDB collection, as a map from chunk id to record, and
   * its saved manifest (relative path to file hash; an absent or unparseable
   * manifest file loads as the empty map). `addCalls` records the size of
   * every `collection.add` call.
   */
  class ProjectIndex {
    const project: string
    var entries: map<string, Record>
    var manifest: map<string, string>
    ghost var addCalls: seq<nat>

    /** A new, empty collection for the resolved project path `project`. */
    constructor (project: string)
      ensures this.project == project && entries == map[] && manifest == map[] && addCalls == []
    {
      this.project := project;
      entries := map[];
      manifest := map[];
      addCalls := [];
    }

    /** `has_index`: the collection holds a chunk; false when opening it raises. */
    method HasIndex(raises: bool) returns (b: bool)
      ensures b <==> !raises && entries != map[]
    {
      if raises {
        return false;
      }
      b := |entries| > 0;
      assert b ==> entries != map[];
      assert entries != map[] ==> (exists id :: id in entries) && |entries| > 0;
    }

    /** `collection.add` of one batch, each chunk with the embedding at its own index. */
    method Add(batch: seq<CodeChunk>, vectors: seq<Vector>)
      requires |batch| == |vectors|
      modifies this
      ensures entries == Inserted(old(entries), batch, vectors, |batch|)
      ensures manifest == old(manifest) && addCalls == old(addCalls) + [|batch|]
    {
      entries := Inserted(entries, batch, vectors, |batch|);
      addCalls := addCalls + [|batch|];
    }

    /** `collection.delete(ids=...)`. */
    method Delete(ids: set<string>)
      modifies this
      ensures entries == old(entries) - ids
      ensures manifest == old(manifest) && addCalls == old(addCalls)
    {
      entries := entries - ids;
    }

    /**
     * The batch loop shared by `index_chunks` and `index_incremental`: chunks
     * `[i, min(i + 500, n))` with their embeddings, for `i` in
     * `range(0, n, 500)`. When the `add` of batch `failsAt` raises, the
     * batches before it stay stored and the exception propagates.
     */
    method StoreBatches(chunks: seq<CodeChunk>, vectors: seq<Vector>, failsAt: Option<nat>)
      returns (stored: nat, raised: bool)
      requires |chunks| == |vectors|
      modifies this
      ensures raised <==> BatchFails(failsAt, |chunks|)
      ensures stored == Stored(failsAt, |chunks|)
      ensures entries == Inserted(old(entries), chunks, vectors, stored)
      ensures addCalls == old(addCalls) + BatchSizes(|chunks|, CompletedBatches(failsAt, |chunks|))
      ensures manifest == old(manifest)
    {
      var n := |chunks|;
      assert Inserted(old(entries), chunks, vectors, 0) == entries;
      assert BatchSizes(n, 0) == [];
      hide Inserted, BatchSizes;
      stored, raised := 0, false;
      for b := 0 to NumBatches(n)
        invariant stored == Min(b * ChromaBatchSize, n)
        invariant entries == Inserted(old(entries), chunks, vectors, stored)
        invariant addCalls == old(addCalls) + BatchSizes(n, b)
        invariant manifest == old(manifest)
        invariant failsAt.None? || failsAt.value >= b
      {
        NumBatchesBound(n, b);
        if failsAt == Some(b) {
          raised := true;
          return;
        }
        var i := b * ChromaBatchSize;
        var end := Min(i + ChromaBatchSize, n);
        InsertedBatch(old(entries), chunks, vectors, i, end);
        BatchSizesStep(n, b);
        Add(chunks[i..end], vectors[i..end]);
        stored := end;
      }
      NumBatchesBound(n, NumBatches(n));
    }

    /**
     * `index_chunks` (full reindex): every stored id is deleted (a failure
     * while reading or deleting is swallowed and leaves the collection as it
     * was); no chunks returns 0 without saving the manifest; otherwise all
     * texts are embedded in one call, stored in batches, and only when every
     * `add` succeeded is the manifest of the listing saved and the count returned.
     */
    method IndexChunks(md5: Md5, files: seq<SourceFile>, chunks: seq<CodeChunk>, embed: Embedder,
                       readFails: bool, failsAt: Option<nat>)
      returns (r: Outcome<nat>)
      modifies this
      ensures r.Raised? <==> BatchFails(failsAt, |chunks|)
      ensures r.Done? ==> r.value == |chunks|
      ensures entries == Inserted(if readFails then old(entries) else map[], chunks, Vectors(embed, chunks),
                                  Stored(failsAt, |chunks|))
      ensures addCalls == old(addCalls) + BatchSizes(|chunks|, CompletedBatches(failsAt, |chunks|))
      ensures manifest == if r.Done? && chunks != [] then HashSnapshot(md5, files, |files|) else old(manifest)
    {
      if !readFails {
        var existing := entries.Keys;
        if existing != {} {
          Delete(existing);
        }
        assert entries == map[];
      }
      if chunks == [] {
        return Done(0);
      }
      var vectors := Vectors(embed, chunks);
      var stored, raised := StoreBatches(chunks, vectors, failsAt);
      if raised {
        return Raised;
      }
      var hashes := GetFileHashes(md5, files);
      manifest := hashes;
      return Done(stored);
    }

    /**
     * The ids of stored chunks whose `file_path`, relative to the project, is
     * one of `toDelete`; None when `relative_to` raises for a stored chunk.
     */
    method CollectStale(toDelete: set<string>) returns (ids: Option<set<string>>)
      ensures ids == StaleIds(entries, project, toDelete)
    {
      hide RelativeTo;
      var rest := entries.Keys;
      var acc: set<string> := {};
      while rest != {}
        invariant rest <= entries.Keys
        invariant forall id :: id in entries && id !in rest ==> RelativeTo(entries[id].filePath, project).Some?
        invariant forall id :: id in acc <==> (id in entries && id !in rest
          && RelativeTo(entries[id].filePath, project).value in toDelete)
        decreases |rest|
      {
        var id :| id in rest;
        var rel := RelativeTo(entries[id].filePath, project);
        if rel.None? {
          assert !AllUnder(entries, project);
          return None;
        }
        if rel.value in toDelete {
          acc := acc + {id};
        }
        rest := rest - {id};
      }
      assert AllUnder(entries, project);
      assert acc == set id | id in entries && RelativeTo(entries[id].filePath, project).Some?
                               && RelativeTo(entries[id].filePath, project).value in toDelete;
      return Some(acc);
    }

    /**
     * The re-chunking loop of `index_incremental`: for each relative path in
     * the order the set yields them, the file `project / rel` is skipped when
     * it no longer exists or fails `should_index_file` or `is_valid_file`,
     * and chunked otherwise.
     */
    method CollectChunks(md5: Md5, files: seq<SourceFile>, order: seq<string>) returns (chunks: seq<CodeChunk>)
      ensures chunks == Reindexed(md5, project, files, order, |order|)
    {
      hide ShouldIndexFile, IsValidFile, ChunksOfText, JoinPath;
      chunks := [];
      for i := 0 to |order|
        invariant chunks == Reindexed(md5, project, files, order, i)
      {
        var rel := order[i];
        var path := JoinPath(project, rel);
        var found := FindFile(files, rel);
        if found.None? {
          continue;
        }
        var f := found.value;
        if !ShouldIndexFile(path) {
          continue;
        }
        var validity := IsValidFile(f.snapshot);
        if validity.Rejected? {
          continue;
        }
        var fileChunks := ChunkFile(md5, path, f.snapshot.text);
        chunks := chunks + fileChunks;
      }
    }

    /**
     * `index_incremental`: the changes between the saved manifest and the
     * listing's; the chunks of modified and deleted files are deleted (a
     * failure while reading or deleting is swallowed); the added and modified
     * files (visited in `order`, the set's iteration order) are re-chunked,
     * embedded in one call and stored in batches; only when every `add`
     * succeeded is the new manifest saved and the counts returned.
     */
    method IndexIncremental(md5: Md5, files: seq<SourceFile>, embed: Embedder, readFails: bool,
                            failsAt: Option<nat>, order: seq<string>)
      returns (r: Outcome<Counts>)
      requires forall p :: p in order <==> p in ToIndex(manifest, HashSnapshot(md5, files, |files|))
      requires forall j, k :: 0 <= j < k < |order| ==> order[j] != order[k]
      modifies this
      ensures r.Raised? <==> BatchFails(failsAt, |Reindexed(md5, project, files, order, |order|)|)
      ensures r.Done? ==> r.value == Counts(
        |Reindexed(md5, project, files, order, |order|)|,
        DeletedCount(old(entries), project, ToDelete(old(manifest), HashSnapshot(md5, files, |files|)), readFails),
        |ToIndex(old(manifest), HashSnapshot(md5, files, |files|))|)
      ensures entries == Inserted(
        Pruned(old(entries), project, ToDelete(old(manifest), HashSnapshot(md5, files, |files|)), readFails),
        Reindexed(md5, project, files, order, |order|),
        Vectors(embed, Reindexed(md5, project, files, order, |order|)),
        Stored(failsAt, |Reindexed(md5, project, files, order, |order|)|))
      ensures addCalls == old(addCalls) + BatchSizes(|Reindexed(md5, project, files, order, |order|)|,
                                                     CompletedBatches(failsAt, |Reindexed(md5, project, files, order, |order|)|))
      ensures manifest == if r.Done? then HashSnapshot(md5, files, |files|) else old(manifest)
    {
      hide HashSnapshot, Reindexed, Inserted, Pruned, DeletedCount, ToIndex, ToDelete, Added, Modified, Deleted,
        BatchSizes, CompletedBatches, Stored, BatchFails;
      var newHashes := GetFileHashes(md5, files);
      var added, modified, deleted := ComputeChanges(manifest, newHashes);
      var filesToIndex := added + modified;
      var filesToDelete := modified + deleted;
      ChangeSets(old(manifest), newHashes);
      var deletedCount := DeleteStale(filesToDelete, readFails);
      if filesToIndex == {} {
        FirstInSet(order, filesToIndex);
        ReindexedNothing(md5, project, files, order);
      }
      var addedCount, raised := StoreReindexed(md5, files, embed, failsAt, order, filesToIndex != {});
      if raised {
        return Raised;
      }
      var hashes := GetFileHashes(md5, files);
      manifest := hashes;
      return Done(Counts(addedCount, deletedCount, |filesToIndex|));
    }

    /**
     * The adding step of `index_incremental`: when there are files to index
     * (`visit`), they are re-chunked, and a non-empty list of chunks is
     * embedded in one call and stored in batches.
     */
    method StoreReindexed(md5: Md5, files: seq<SourceFile>, embed: Embedder, failsAt: Option<nat>,
                          order: seq<string>, visit: bool)
      returns (addedCount: nat, raised: bool)
      requires !visit ==> Reindexed(md5, project, files, order, |order|) == []
      modifies this
      ensures raised <==> BatchFails(failsAt, |Reindexed(md5, project, files, order, |order|)|)
      ensures !raised ==> addedCount == |Reindexed(md5, project, files, order, |order|)|
      ensures entries == Inserted(old(entries),
        Reindexed(md5, project, files, order, |order|),
        Vectors(embed, Reindexed(md5, project, files, order, |order|)),
        Stored(failsAt, |Reindexed(md5, project, files, order, |order|)|))
      ensures addCalls == old(addCalls) + BatchSizes(|Reindexed(md5, project, files, order, |order|)|,
                                                     CompletedBatches(failsAt, |Reindexed(md5, project, files, order, |order|)|))
      ensures manifest == old(manifest)
    {
      assert BatchSizes(0, CompletedBatches(failsAt, 0)) == [];
      assert !BatchFails(failsAt, 0);
      InsertedNothing(entries, [], Vectors(embed, []));
      hide Reindexed, Inserted, BatchSizes, CompletedBatches;
      var chunks := [];
      if visit {
        chunks := CollectChunks(md5, files, order);
      }
      if chunks == [] {
        return 0, false;
      }
      var vectors := Vectors(embed, chunks);
      var stored;
      stored, raised := StoreBatches(chunks, vectors, failsAt);
      addedCount := stored;
    }

    /**
     * The deletion step of `index_incremental`: when there are files to
     * delete, the ids of their stored chunks are collected and deleted, and
     * their number is the deleted count; a failure while reading or deleting
     * is swallowed and deletes nothing.
     */
    method DeleteStale(toDelete: set<string>, readFails: bool) returns (deletedCount: nat)
      modifies this
      ensures entries == Pruned(old(entries), project, toDelete, readFails)
      ensures deletedCount == DeletedCount(old(entries), project, toDelete, readFails)
      ensures manifest == old(manifest) && addCalls == old(addCalls)
    {
      PrunedStep(entries, project, toDelete, readFails);
      hide Pruned, DeletedCount, StaleIds;
      deletedCount := 0;
      if toDelete != {} && !readFails {
        var stale := CollectStale(toDelete);
        if stale.Some? && stale.value != {} {
          Delete(stale.value);
          deletedCount := |stale.value|;
        }
      }
    }
  }

  /**
   * `has_index` after a full `index_chunks` run: once a listing that yields
   * at least one chunk is indexed without a failing `add`, the collection of
   * the project is found non-empty.
   */
  method HasIndexAfterIndexing(project: string, md5: Md5, files: seq<SourceFile>, chunks: seq<CodeChunk>,
                               embed: Embedder) returns (found: bool)
    requires chunks != []
    ensures found
  {
    var index := new ProjectIndex(project);
    var r := index.IndexChunks(md5, files, chunks, embed, false, None);
    InsertedHoldsChunks(map[], chunks, Vectors(embed, chunks), |chunks|);
    assert chunks[0].Id() in index.entries;
    found := index.HasIndex(false);
  }
}
