/**
 How a run of the index pipeline ends (pkg/indexer.go:37-202), said of the store
 it finds and of what fails on the way.
 */
module IndexerOutcomes {
  import opened Text
  import opened Version
  import opened Splitter
  import opened Indexer

  /** Every batch, from chunk 64k on, is embedded and inserted. */
  ghost predicate AllBatchesGoIn(env: Environment) {
    forall k: nat :: BatchGoesIn(env, k)
  }

  predicate BatchGoesIn(env: Environment, k: nat) {
    64 * k < |env.chunks| ==> env.embeds(64 * k) && env.inserts(64 * k) == Inserted
  }

  lemma {:induction false} CompleteFrom(env: Environment, k: nat, docs: seq<Document>)
    ensures InsertFrom(env, 64 * k, docs).complete <==> forall j: nat :: k <= j ==> BatchGoesIn(env, j)
    decreases |env.chunks| - 64 * k
  {
    if 64 * k < |env.chunks| {
      CompleteFrom(env, k + 1, docs + Documents(env.chunks[64 * k..BatchEnd(env.chunks, 64 * k)]));
      if forall j: nat :: k <= j ==> BatchGoesIn(env, j) {
        assert BatchGoesIn(env, k);
      }
    }
  }

  lemma CompleteIff(run: Run)
    ensures InsertsEverything(run) <==> AllBatchesGoIn(run.env)
  {
    CompleteFrom(run.env, 0, []);
  }

  /** The documents stored so far are those of the first chunks. */
  ghost predicate StoresFirst(docs: seq<Document>, chunks: seq<Chunk>) {
    exists n: nat :: n <= |chunks| && AreOf(docs, chunks[..n])
  }

  lemma {:induction false} StoresFirstOf(env: Environment, i: nat, docs: seq<Document>)
    requires docs == Documents(env.chunks[..if i < |env.chunks| then i else |env.chunks|])
    ensures StoresFirst(InsertFrom(env, i, docs).docs, env.chunks)
    decreases |env.chunks| - i
  {
    if i >= |env.chunks| {
      DocumentsAreOf(env.chunks[..|env.chunks|]);
    } else {
      var end := BatchEnd(env.chunks, i);
      var batch := Documents(env.chunks[i..end]);
      DocumentsAreOf(env.chunks[..i]);
      DocumentsFurther(env.chunks, i, end);
      if env.embeds(i) {
        match env.inserts(i)
        case Inserted => StoresFirstOf(env, i + EMBEDDING_BATCH_SIZE, docs + batch);
        case InsertFailed(n) => PartOfBatch(env.chunks, i, end, Min(n, |batch|));
      }
    }
  }

  lemma PartOfBatch(chunks: seq<Chunk>, i: nat, end: nat, n: nat)
    requires i <= end <= |chunks| && n <= end - i
    ensures StoresFirst(Documents(chunks[..i]) + Documents(chunks[i..end])[..n], chunks)
  {
    DocumentsFurther(chunks, i, i + n);
    DocumentsAreOf(chunks[..i + n]);
    FirstDocuments(chunks, i, end, n);
    assert AreOf(Documents(chunks[..i + n]), chunks[..i + n]);
  }

  lemma FirstDocuments(chunks: seq<Chunk>, i: nat, end: nat, n: nat)
    requires i <= end <= |chunks| && n <= end - i
    ensures Documents(chunks[i..end])[..n] == Documents(chunks[i..i + n])
  {
    forall k | 0 <= k < n ensures Documents(chunks[i..end])[..n][k] == Documents(chunks[i..i + n])[k] {
      assert chunks[i..end][k] == chunks[i..i + n][k];
    }
  }

  /** There is an index of the same commit under the same rules, and the run may see it. */
  predicate FindsIndex(store: Store, run: Run) {
    var name := run.options.collection;
    && !run.options.force && !run.env.checkFails && run.env.read == Shown
    && name in store.data && name in store.metadata
    && TrimSpace(store.metadata[name].commitSHA) == TrimSpace(run.options.commitSHA) != ""
    && TrimSpace(store.metadata[name].ignoreFingerprint) == TrimSpace(run.options.fingerprint) != ""
  }

  /** Nothing that the run does fails, as far as it is reported. */
  ghost predicate GoesThrough(store: Store, run: Run) {
    var there := run.options.collection in store.data;
    && (!run.options.force ==> !run.env.checkFails && (there ==> run.env.read != ReadFailed))
    && run.env.dimensionKnown && !run.env.recheckFails
    && (there ==> run.env.drop == Cleared || run.env.drop == MetadataKept)
    && run.env.create == Created && !run.env.walkFails
    && AllBatchesGoIn(run.env) && run.env.write == Written
  }

  /** The metadata says what was indexed. */
  predicate Describes(m: Metadata, run: Run) {
    && m.branch == run.options.branch && m.commitSHA == run.options.commitSHA
    && m.ignoreFingerprint == run.options.fingerprint
    && m.fileCount == run.env.fileCount && m.chunkCount == |run.env.chunks|
  }

  /**
   How a run ends: it leaves things alone exactly when there is an index of the
   same commit under the same rules; else it succeeds exactly when nothing fails,
   and has then stored every chunk, in order, under metadata that describes it.
   */
  lemma OutcomeExactly(store: Store, run: Run)
    ensures var (t, outcome) := IndexRun(store, run);
            var name := run.options.collection;
            && (outcome == UpToDate <==> FindsIndex(store, run))
            && (outcome == UpToDate ==> t == store)
            && (outcome == Indexed <==> !FindsIndex(store, run) && GoesThrough(store, run))
            && (outcome == Indexed ==>
                  && name in t.data && AreOf(t.data[name], run.env.chunks)
                  && name in t.metadata && Describes(t.metadata[name], run))
  {
    SkipsIff(store, run);
    CompleteIff(run);
    StoredIfComplete(run);
  }

  lemma SkipsIff(store: Store, run: Run)
    ensures Skips(store, run) <==> FindsIndex(store, run)
  {
  }

  lemma StoredIfComplete(run: Run)
    ensures InsertsEverything(run) ==> AreOf(InsertFrom(run.env, 0, []).docs, run.env.chunks)
  {
    assert run.env.chunks[..0] == [];
    InsertFromExact(run.env, 0, []);
    DocumentsAreOf(run.env.chunks);
  }

  /** Wherever a run stops after it has made its collection, what is stored is of its first chunks, in order. */
  lemma StopsWithFirstChunks(store: Store, run: Run)
    requires !FindsIndex(store, run) && run.env.create == Created && run.env.dimensionKnown && !run.env.recheckFails
    requires !run.options.force ==>
               !run.env.checkFails && (run.options.collection in store.data ==> run.env.read != ReadFailed)
    requires run.options.collection in store.data ==> run.env.drop == Cleared || run.env.drop == MetadataKept
    ensures var t := IndexRun(store, run).0;
            run.options.collection in t.data && StoresFirst(t.data[run.options.collection], run.env.chunks)
  {
    SkipsIff(store, run);
    assert run.env.chunks[..0] == [];
    StoresFirstOf(run.env, 0, []);
    DocumentsAreOf(run.env.chunks[..0]);
    assert AreOf([], run.env.chunks[..0]);
  }
}
