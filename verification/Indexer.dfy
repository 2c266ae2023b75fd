/**
 The index pipeline (pkg/indexer.go) against a store whose every operation may
 fail, also half way (pkg/vectorstore/milvus.go). What the store, the embedder
 and the file system decide in one run is that run's environment.
 */
module Indexer {
  import opened Wrappers
  import opened Version
  import opened Splitter
  import opened Text
  import opened Sequences

  const EMBEDDING_BATCH_SIZE: nat := 64

  const MAX_CONTENT: nat := 65535

  /** A document as it is stored; what stands for its id is the string that is hashed. */
  datatype Document = Document(id: string, content: string, filePath: string, startLine: int, endLine: int,
                               language: string, nodeType: string)

  function DocumentOf(chunk: Chunk): Document {
    Document(chunk.filePath + ":" + Decimal(chunk.startLine) + "-" + Decimal(chunk.endLine),
             if |chunk.content| <= MAX_CONTENT then chunk.content else chunk.content[..MAX_CONTENT],
             chunk.filePath, chunk.startLine, chunk.endLine, chunk.language, chunk.nodeType)
  }

  function Documents(chunks: seq<Chunk>): (docs: seq<Document>)
    ensures |docs| == |chunks|
    ensures forall k :: 0 <= k < |chunks| ==> docs[k] == DocumentOf(chunks[k])
  {
    seq(|chunks|, k requires 0 <= k < |chunks| => DocumentOf(chunks[k]))
  }

  /** The document is of this chunk: its place, its language and its content, up to 65535 bytes of it. */
  predicate IsOf(doc: Document, chunk: Chunk) {
    && doc.filePath == chunk.filePath && doc.startLine == chunk.startLine && doc.endLine == chunk.endLine
    && doc.language == chunk.language && doc.nodeType == chunk.nodeType
    && doc.content <= chunk.content && |doc.content| == if |chunk.content| > 65535 then 65535 else |chunk.content|
  }

  /** What is stored of the chunks, in order. */
  ghost predicate AreOf(docs: seq<Document>, chunks: seq<Chunk>) {
    |docs| == |chunks| && forall k :: 0 <= k < |chunks| ==> IsOf(docs[k], chunks[k])
  }

  lemma DocumentsAreOf(chunks: seq<Chunk>)
    ensures AreOf(Documents(chunks), chunks)
  {
    forall k | 0 <= k < |chunks| ensures IsOf(Documents(chunks)[k], chunks[k]) {
      assert Documents(chunks)[k] == DocumentOf(chunks[k]);
    }
  }

  /** Documents have one id string exactly when their chunks are of the same lines of the same file. */
  lemma DocumentIdTellsIff(a: Chunk, b: Chunk)
    ensures DocumentOf(a).id == DocumentOf(b).id <==>
              a.filePath == b.filePath && a.startLine == b.startLine && a.endLine == b.endLine
  {
    var x, y := Decimal(a.startLine) + "-" + Decimal(a.endLine), Decimal(b.startLine) + "-" + Decimal(b.endLine);
    if DocumentOf(a).id == DocumentOf(b).id {
      IdReads(a);
      IdReads(b);
      SameAtLast(a.filePath, ':', x, b.filePath, y);
      SameNumbers(a.startLine, a.endLine, b.startLine, b.endLine);
    }
  }

  lemma IdReads(chunk: Chunk)
    ensures DocumentOf(chunk).id == chunk.filePath + ":" + (Decimal(chunk.startLine) + "-" + Decimal(chunk.endLine))
  {
    ConcatAssociates(chunk.filePath + ":", Decimal(chunk.startLine), "-");
    ConcatAssociates(chunk.filePath + ":", Decimal(chunk.startLine) + "-", Decimal(chunk.endLine));
  }

  /** The data collections and the metadata kept beside them, by collection name. */
  datatype Store = Store(data: map<string, seq<Document>>, metadata: map<string, Metadata>)

  /**
   Dropping removes the data, then the metadata. It may report success with the
   metadata still there, or stop with an error before or after the data is gone.
   */
  datatype DropFate = Cleared | MetadataKept | DropRefused | DataLost

  datatype CreateFate = Created | CreatedThenFailed | CreateRefused

  /** Inserting a batch may fail after some of its documents are stored. */
  datatype InsertFate = Inserted | InsertFailed(stored: nat)

  /** Reading metadata may fail, or miss metadata that is there. */
  datatype MetadataRead = Shown | Missed | ReadFailed

  /** Writing metadata may fail before or after it takes effect. */
  datatype MetadataWrite = Written | WrittenThenFailed | WriteRefused

  datatype Environment = Environment(
    checkFails: bool,
    read: MetadataRead,
    dimensionKnown: bool,
    recheckFails: bool,
    drop: DropFate,
    create: CreateFate,
    walkFails: bool,
    fileCount: nat,
    chunks: seq<Chunk>,
    embeds: nat -> bool,
    inserts: nat -> InsertFate,
    write: MetadataWrite)

  datatype Options = Options(collection: string, branch: string, commitSHA: string, fingerprint: string, force: bool)

  datatype Outcome = UpToDate | Indexed | Failed

  datatype Run = Run(options: Options, env: Environment)

  function MetadataOf(run: Run): Metadata {
    Metadata(run.options.branch, run.options.commitSHA, run.options.fingerprint, run.env.fileCount, |run.env.chunks|)
  }

  // --- one run ---

  datatype Inserting = Inserting(docs: seq<Document>, complete: bool)

  function BatchEnd(chunks: seq<Chunk>, i: nat): nat {
    Min(i + EMBEDDING_BATCH_SIZE, |chunks|)
  }

  /** Embedding and inserting from chunk i on, given what is stored already. */
  function InsertFrom(env: Environment, i: nat, docs: seq<Document>): Inserting
    decreases |env.chunks| - i
  {
    if i >= |env.chunks| then Inserting(docs, true)
    else
      var batch := Documents(env.chunks[i..BatchEnd(env.chunks, i)]);
      if !env.embeds(i) then Inserting(docs, false)
      else
        match env.inserts(i)
        case Inserted => InsertFrom(env, i + EMBEDDING_BATCH_SIZE, docs + batch)
        case InsertFailed(n) => Inserting(docs + batch[..Min(n, |batch|)], false)
  }

  /** The up-to-date shortcut. */
  predicate Skips(store: Store, run: Run) {
    && !run.options.force
    && !run.env.checkFails
    && run.options.collection in store.data
    && run.env.read == Shown
    && run.options.collection in store.metadata
    && !IsStale(Some(store.metadata[run.options.collection]), run.options.commitSHA, run.options.fingerprint)
  }

  predicate FailsBeforeDrop(store: Store, run: Run) {
    || (!run.options.force &&
          (run.env.checkFails || (run.options.collection in store.data && run.env.read == ReadFailed)))
    || !run.env.dimensionKnown
    || run.env.recheckFails
  }

  function Drop(store: Store, name: string, fate: DropFate): Store {
    match fate
    case Cleared => Store(store.data - {name}, store.metadata - {name})
    case MetadataKept => Store(store.data - {name}, store.metadata)
    case DropRefused => store
    case DataLost => Store(store.data - {name}, store.metadata)
  }

  predicate DropFails(fate: DropFate) {
    fate == DropRefused || fate == DataLost
  }

  /** The store and the outcome after one run. */
  function IndexRun(store: Store, run: Run): (Store, Outcome) {
    var name := run.options.collection;
    if Skips(store, run) then (store, UpToDate)
    else if FailsBeforeDrop(store, run) then (store, Failed)
    else if name in store.data && DropFails(run.env.drop) then (Drop(store, name, run.env.drop), Failed)
    else
      var dropped := if name in store.data then Drop(store, name, run.env.drop) else store;
      if run.env.create == CreateRefused then (dropped, Failed)
      else
        var created := dropped.(data := dropped.data[name := []]);
        if run.env.create == CreatedThenFailed || run.env.walkFails then (created, Failed)
        else
          var inserting := InsertFrom(run.env, 0, []);
          var filled := created.(data := created.data[name := inserting.docs]);
          if !inserting.complete || run.env.write == WriteRefused then (filled, Failed)
          else
            (filled.(metadata := filled.metadata[name := MetadataOf(run)]),
             if run.env.write == Written then Indexed else Failed)
  }

  class Indexer {
    var data: map<string, seq<Document>>
    var metadata: map<string, Metadata>

    constructor ()
      ensures State() == Store(map[], map[])
    {
      data, metadata := map[], map[];
    }

    function State(): Store
      reads this
    {
      Store(data, metadata)
    }

    method Insert(name: string, docs: seq<Document>, fate: InsertFate) returns (ok: bool)
      requires name in data
      modifies this`data
      ensures ok == fate.Inserted?
      ensures data == old(data)[name := old(data)[name] + if ok then docs else docs[..Min(fate.stored, |docs|)]]
    {
      ok := fate.Inserted?;
      data := data[name := data[name] + if ok then docs else docs[..Min(fate.stored, |docs|)]];
    }

    /** Embeds and inserts all chunks in batches; stops at the first failure. */
    method InsertAll(name: string, env: Environment) returns (complete: bool)
      requires name in data && data[name] == []
      modifies this`data
      ensures var inserting := InsertFrom(env, 0, []);
              complete == inserting.complete && data == old(data)[name := inserting.docs]
    {
      var i := 0;
      while i < |env.chunks|
        invariant name in data && data == old(data)[name := data[name]]
        invariant InsertFrom(env, i, data[name]) == InsertFrom(env, 0, [])
        decreases |env.chunks| - i
      {
        var end := i + EMBEDDING_BATCH_SIZE;
        if end > |env.chunks| {
          end := |env.chunks|;
        }
        var batch := env.chunks[i..end];
        if !env.embeds(i) {
          return false;
        }
        var docs := Documents(batch);
        var ok := Insert(name, docs, env.inserts(i));
        if !ok {
          return false;
        }
        i := i + EMBEDDING_BATCH_SIZE;
      }
      complete := true;
    }

    method Index(run: Run) returns (outcome: Outcome)
      modifies this
      ensures (State(), outcome) == IndexRun(old(State()), run)
    {
      var name, env := run.options.collection, run.env;
      if !run.options.force {
        if env.checkFails {
          return Failed;
        }
        if name in data {
          if env.read == ReadFailed {
            return Failed;
          }
          var meta := if env.read == Shown && name in metadata then Some(metadata[name]) else None;
          if meta.Some? && !IsStale(meta, run.options.commitSHA, run.options.fingerprint) {
            return UpToDate;
          }
        }
      }
      if !env.dimensionKnown || env.recheckFails {
        return Failed;
      }
      if name in data {
        if env.drop == DropRefused {
          return Failed;
        }
        data := data - {name};
        if env.drop == DataLost {
          return Failed;
        }
        if env.drop == Cleared {
          metadata := metadata - {name};
        }
      }
      if env.create == CreateRefused {
        return Failed;
      }
      data := data[name := []];
      if env.create == CreatedThenFailed || env.walkFails {
        return Failed;
      }
      var complete := InsertAll(name, env);
      if !complete || env.write == WriteRefused {
        return Failed;
      }
      metadata := metadata[name := MetadataOf(run)];
      outcome := if env.write == Written then Indexed else Failed;
    }
  }

  // --- all runs ---

  /** The store after a sequence of runs from an empty store. */
  function After(runs: seq<Run>): Store {
    if runs == [] then Store(map[], map[]) else IndexRun(After(runs[..|runs| - 1]), runs[|runs| - 1]).0
  }

  /** A run whose chunks are all embedded and inserted. */
  predicate InsertsEverything(run: Run) {
    InsertFrom(run.env, 0, []).complete
  }

  /** The collection holds exactly the chunks of this run, and its metadata is this run's. */
  ghost predicate BuiltBy(store: Store, name: string, run: Run) {
    && name in store.data && name in store.metadata
    && run.options.collection == name && InsertsEverything(run)
    && store.data[name] == Documents(run.env.chunks)
    && store.metadata[name] == MetadataOf(run)
  }

  ghost predicate BuiltAmong(store: Store, name: string, runs: seq<Run>) {
    exists k :: 0 <= k < |runs| && BuiltBy(store, name, runs[k])
  }

  ghost predicate Consistent(store: Store, runs: seq<Run>) {
    forall name :: name in store.metadata ==> BuiltAmong(store, name, runs)
  }

  /** The run gets as far as its drop. */
  predicate ReachesDrop(store: Store, run: Run) {
    !Skips(store, run) && !FailsBeforeDrop(store, run)
  }

  /** The run gets to the end and writes its own metadata. */
  predicate WritesMetadata(store: Store, run: Run) {
    && ReachesDrop(store, run) && !(run.options.collection in store.data && DropFails(run.env.drop))
    && run.env.create == Created && !run.env.walkFails && InsertsEverything(run) && run.env.write != WriteRefused
  }

  /** The drop takes data that is there, leaves metadata that is there, and the run does not write its own. */
  predicate LeavesStaleMetadata(store: Store, run: Run) {
    && ReachesDrop(store, run)
    && run.options.collection in store.data && run.options.collection in store.metadata
    && (run.env.drop == MetadataKept || run.env.drop == DataLost)
    && !WritesMetadata(store, run)
  }

  /** No run of the sequence leaves stale metadata. */
  ghost predicate NoneStale(runs: seq<Run>) {
    runs != [] ==>
      var init := runs[..|runs| - 1];
      NoneStale(init) && !LeavesStaleMetadata(After(init), runs[|runs| - 1])
  }

  lemma LastRun(runs: seq<Run>)
    requires runs != []
    ensures runs[..|runs| - 1] + [runs[|runs| - 1]] == runs
  {
  }

  lemma AfterLast(runs: seq<Run>, run: Run)
    ensures After(runs + [run]) == IndexRun(After(runs), run).0
  {
    assert (runs + [run])[..|runs|] == runs;
  }

  lemma DocumentsFurther(chunks: seq<Chunk>, i: nat, end: nat)
    requires i <= end <= |chunks|
    ensures Documents(chunks[..i]) + Documents(chunks[i..end]) == Documents(chunks[..end])
  {
    var a, b := Documents(chunks[..i]) + Documents(chunks[i..end]), Documents(chunks[..end]);
    forall k | 0 <= k < end ensures a[k] == b[k] {
      assert k >= i ==> chunks[i..end][k - i] == chunks[..end][k];
    }
  }

  lemma {:induction false} InsertFromExact(env: Environment, i: nat, docs: seq<Document>)
    requires i <= |env.chunks| && docs == Documents(env.chunks[..i])
    ensures InsertFrom(env, i, docs).complete ==> InsertFrom(env, i, docs).docs == Documents(env.chunks)
    decreases |env.chunks| - i
  {
    if i == |env.chunks| {
      assert env.chunks[..i] == env.chunks;
    } else {
      var end := BatchEnd(env.chunks, i);
      var more := docs + Documents(env.chunks[i..end]);
      DocumentsFurther(env.chunks, i, end);
      if env.embeds(i) && env.inserts(i).Inserted? {
        if i + EMBEDDING_BATCH_SIZE <= |env.chunks| {
          InsertFromExact(env, end, more);
        } else {
          assert env.chunks[..end] == env.chunks;
        }
      }
    }
  }

  /** Other collections are left alone. */
  lemma RunTouchesOneCollection(store: Store, run: Run, name: string)
    requires name != run.options.collection
    ensures var after := IndexRun(store, run).0;
            && (name in after.metadata <==> name in store.metadata)
            && (name in after.data <==> name in store.data)
            && (name in store.metadata ==> after.metadata[name] == store.metadata[name])
            && (name in store.data ==> after.data[name] == store.data[name])
  {
  }

  /** The run's own collection is as before, has no metadata, or is complete, unless stale metadata is left. */
  lemma RunOnOwnCollection(store: Store, run: Run)
    requires !LeavesStaleMetadata(store, run)
    requires run.options.collection in store.metadata ==> run.options.collection in store.data
    ensures var after, name := IndexRun(store, run).0, run.options.collection;
            after == store || name !in after.metadata || BuiltBy(after, name, run)
  {
    assert run.env.chunks[..0] == [];
    InsertFromExact(run.env, 0, []);
  }

  // --- exactly when a run spoils the store ---

  /** The documents a run that stops after its drop has left in the collection, if it left one. */
  function LeftBehind(run: Run): Option<seq<Document>> {
    if DropFails(run.env.drop) || run.env.create == CreateRefused then None
    else if run.env.create == CreatedThenFailed || run.env.walkFails then Some([])
    else Some(InsertFrom(run.env, 0, []).docs)
  }

  /** What a run has left behind is, by chance, what some complete run with the metadata that stayed would have. */
  ghost predicate Excused(store: Store, runs: seq<Run>, run: Run)
    requires run.options.collection in store.metadata
  {
    exists k :: 0 <= k < |runs| && Explains(store, runs[k], run)
  }

  predicate Explains(store: Store, earlier: Run, run: Run)
    requires run.options.collection in store.metadata
  {
    && earlier.options.collection == run.options.collection && InsertsEverything(earlier)
    && MetadataOf(earlier) == store.metadata[run.options.collection]
    && LeftBehind(run) == Some(Documents(earlier.env.chunks))
  }

  /** The run leaves stale metadata, and it does not happen to fit what the run has left behind. */
  ghost predicate Spoils(store: Store, runs: seq<Run>, run: Run) {
    LeavesStaleMetadata(store, run) && !Excused(store, runs + [run], run)
  }

  /** The store when a run has left stale metadata: that metadata, and what is left behind. */
  lemma StaleStore(store: Store, run: Run)
    requires LeavesStaleMetadata(store, run)
    ensures var after, name := IndexRun(store, run).0, run.options.collection;
            && name in after.metadata && after.metadata[name] == store.metadata[name]
            && (name in after.data <==> LeftBehind(run).Some?)
            && (name in after.data ==> LeftBehind(run) == Some(after.data[name]))
  {
  }

  lemma StaleIsBuiltIff(store: Store, run: Run, earlier: Run)
    requires LeavesStaleMetadata(store, run)
    ensures BuiltBy(IndexRun(store, run).0, run.options.collection, earlier) <==> Explains(store, earlier, run)
  {
    StaleStore(store, run);
  }

  /** What was built before is built still when the run leaves its collection alone. */
  lemma BuiltStays(store: Store, runs: seq<Run>, run: Run, name: string)
    requires Consistent(store, runs) && name in store.metadata
    requires name != run.options.collection || IndexRun(store, run).0 == store
    ensures BuiltAmong(IndexRun(store, run).0, name, runs + [run])
  {
    if name != run.options.collection {
      RunTouchesOneCollection(store, run, name);
    }
    assert BuiltAmong(store, name, runs);
    var k :| 0 <= k < |runs| && BuiltBy(store, name, runs[k]);
    assert BuiltBy(IndexRun(store, run).0, name, (runs + [run])[k]);
  }

  /** A run keeps the store consistent exactly when it does not spoil it. */
  lemma RunKeepsConsistentIff(store: Store, runs: seq<Run>, run: Run)
    requires Consistent(store, runs)
    ensures Consistent(IndexRun(store, run).0, runs + [run]) <==> !Spoils(store, runs, run)
  {
    var after, all, own := IndexRun(store, run).0, runs + [run], run.options.collection;
    forall name | name in after.metadata && name != own ensures BuiltAmong(after, name, all) {
      RunTouchesOneCollection(store, run, name);
      BuiltStays(store, runs, run, name);
    }
    if LeavesStaleMetadata(store, run) {
      StaleStore(store, run);
      forall k | 0 <= k < |all| ensures BuiltBy(after, own, all[k]) <==> Explains(store, all[k], run) {
        StaleIsBuiltIff(store, run, all[k]);
      }
      assert BuiltAmong(after, own, all) <==> Excused(store, all, run);
    } else {
      RunOnOwnCollection(store, run);
      if after == store && own in store.metadata {
        BuiltStays(store, runs, run, own);
      } else if own in after.metadata {
        assert BuiltBy(after, own, all[|runs|]);
      }
    }
  }

  /** After every run of the sequence, whatever has metadata is a complete index that the metadata describes. */
  ghost predicate AlwaysConsistent(runs: seq<Run>) {
    Consistent(After(runs), runs) && (runs != [] ==> AlwaysConsistent(runs[..|runs| - 1]))
  }

  ghost predicate NoneSpoils(runs: seq<Run>) {
    runs != [] ==>
      var init := runs[..|runs| - 1];
      NoneSpoils(init) && !Spoils(After(init), init, runs[|runs| - 1])
  }

  /** Over any runs: the store is consistent all along exactly when no run on the way spoils it. */
  lemma {:induction false} AlwaysConsistentIff(runs: seq<Run>)
    ensures AlwaysConsistent(runs) <==> NoneSpoils(runs)
  {
    if runs != [] {
      var init := runs[..|runs| - 1];
      LastRun(runs);
      AlwaysConsistentIff(init);
      if AlwaysConsistent(init) {
        RunKeepsConsistentIff(After(init), init, runs[|runs| - 1]);
      }
    }
  }

  lemma {:induction false} NoneStaleSpoilsNothing(runs: seq<Run>)
    requires NoneStale(runs)
    ensures NoneSpoils(runs)
  {
    if runs != [] {
      NoneStaleSpoilsNothing(runs[..|runs| - 1]);
    }
  }

  /**
   Crash consistency: whatever fails and wherever a run stops, a collection that
   has metadata holds exactly the chunks of one run that inserted them all, as
   long as no run leaves stale metadata.
   */
  lemma IndexIsCrashConsistent(runs: seq<Run>)
    requires NoneStale(runs)
    ensures Consistent(After(runs), runs)
  {
    NoneStaleSpoilsNothing(runs);
    AlwaysConsistentIff(runs);
  }

  /** So the shortcut only ever accepts a complete index of the same commit and the same rules. */
  lemma ShortcutAcceptsOnlyCompleteIndexes(runs: seq<Run>, next: Run)
    returns (k: nat)
    requires NoneSpoils(runs) && IndexRun(After(runs), next).1 == UpToDate
    ensures k < |runs| && InsertsEverything(runs[k])
    ensures var name := next.options.collection;
            && name in After(runs).data && AreOf(After(runs).data[name], runs[k].env.chunks)
            && After(runs).metadata[name].chunkCount == |After(runs).data[name]|
    ensures TrimSpace(runs[k].options.commitSHA) == TrimSpace(next.options.commitSHA) != ""
    ensures TrimSpace(runs[k].options.fingerprint) == TrimSpace(next.options.fingerprint) != ""
  {
    AlwaysConsistentIff(runs);
    var name := next.options.collection;
    assert BuiltAmong(After(runs), name, runs);
    k :| 0 <= k < |runs| && BuiltBy(After(runs), name, runs[k]);
    DocumentsAreOf(runs[k].env.chunks);
  }

  /** A run that reports success is accepted by the next run at the same commit and rules. */
  lemma IndexedThenUpToDate(store: Store, run: Run, next: Run)
    requires IndexRun(store, run).1 == Indexed
    requires next.options.collection == run.options.collection && !next.options.force
    requires !next.env.checkFails && next.env.read == Shown
    requires TrimSpace(next.options.commitSHA) == TrimSpace(run.options.commitSHA) != ""
    requires TrimSpace(next.options.fingerprint) == TrimSpace(run.options.fingerprint) != ""
    ensures IndexRun(IndexRun(store, run).0, next) == (IndexRun(store, run).0, UpToDate)
  {
  }

  /**
   A drop that reports success but leaves the metadata behind breaks this: the
   first run indexes, the second drops and then fails to embed, and the third
   takes the emptied collection for an up-to-date index.
   */
  lemma KeptMetadataAcceptsEmptyIndex(first: Run, second: Run, third: Run)
    requires IndexRun(Store(map[], map[]), first).1 == Indexed && |first.env.chunks| > 0
    requires second.options == first.options.(force := true)
    requires second.env.dimensionKnown && !second.env.recheckFails
    requires second.env.drop == MetadataKept && second.env.create == Created && !second.env.walkFails
    requires |second.env.chunks| > 0 && !second.env.embeds(0)
    requires third.options == first.options && !third.options.force
    requires !third.env.checkFails && third.env.read == Shown
    requires TrimSpace(first.options.commitSHA) != "" && TrimSpace(first.options.fingerprint) != ""
    ensures IndexRun(After([first, second]), third).1 == UpToDate
    ensures After([first, second]).data[first.options.collection] == []
  {
    assert [first, second][..1] == [first] && [first][..0] == [];
    assert After([first]) == IndexRun(Store(map[], map[]), first).0;
    assert After([first, second]) == IndexRun(After([first]), second).0;
    InsertFromExact(first.env, 0, []);
  }

  /**
   So does a drop that takes the data and then reports an error: the metadata is
   not dropped, the next run finds no collection, makes a new one and fails to
   embed, and the one after that takes the empty collection for up to date.
   */
  lemma LostDataAcceptsEmptyIndex(first: Run, second: Run, third: Run, fourth: Run)
    requires IndexRun(Store(map[], map[]), first).1 == Indexed
    requires second.options == first.options.(force := true)
    requires second.env.dimensionKnown && !second.env.recheckFails && second.env.drop == DataLost
    requires third.options == first.options
    requires !third.env.checkFails && third.env.dimensionKnown && !third.env.recheckFails
    requires third.env.create == Created && !third.env.walkFails && |third.env.chunks| > 0 && !third.env.embeds(0)
    requires fourth.options == first.options && !fourth.options.force
    requires !fourth.env.checkFails && fourth.env.read == Shown
    requires TrimSpace(first.options.commitSHA) != "" && TrimSpace(first.options.fingerprint) != ""
    ensures var store := After([first, second, third]);
            && IndexRun(store, fourth).1 == UpToDate && store.data[first.options.collection] == []
            && store.metadata[first.options.collection].chunkCount == |first.env.chunks|
  {
    var s1 := IndexRun(Store(map[], map[]), first).0;
    var s2 := IndexRun(s1, second).0;
    AfterLast([], first);
    AfterLast([] + [first], second);
    AfterLast([] + [first] + [second], third);
    assert [] + [first] + [second] + [third] == [first, second, third];
    assert s2 == Store(s1.data - {first.options.collection}, s1.metadata);
  }

  /**
   Nor are equal counts enough: the second run inserts as many documents of another
   commit under the metadata of the first, its own metadata is refused, and the
   third run takes them for the documents of the first commit.
   */
  lemma RefusedMetadataAcceptsOtherDocuments(first: Run, second: Run, third: Run)
    requires IndexRun(Store(map[], map[]), first).1 == Indexed
    requires second.options.collection == first.options.collection && second.options.force
    requires second.env.dimensionKnown && !second.env.recheckFails && second.env.drop == MetadataKept
    requires second.env.create == Created && !second.env.walkFails
    requires InsertsEverything(second) && second.env.write == WriteRefused
    requires third.options == first.options && !third.options.force
    requires !third.env.checkFails && third.env.read == Shown
    requires TrimSpace(first.options.commitSHA) != "" && TrimSpace(first.options.fingerprint) != ""
    ensures var store := After([first, second]);
            && IndexRun(store, third).1 == UpToDate
            && store.data[first.options.collection] == Documents(second.env.chunks)
            && store.metadata[first.options.collection] == MetadataOf(first)
  {
    AfterLast([], first);
    AfterLast([] + [first], second);
    assert [] + [first] + [second] == [first, second];
    assert second.env.chunks[..0] == [];
    InsertFromExact(second.env, 0, []);
  }
}
