/**
 The two code splitters (pkg/splitter): overlapping line windows, and syntax
 nodes whose oversized members are cut again by line windows. The syntax tree
 comes from a foreign parser and is a parameter.
 */
module Splitter {
  import opened Wrappers
  import opened Sequences
  import opened Text

  datatype Chunk = Chunk(content: string, filePath: string, startLine: int, endLine: int, language: string,
                         nodeType: string)

  /** The chunk's content is the file's lines startLine to endLine, counted from one. */
  ghost predicate Faithful(chunk: Chunk, lines: seq<string>) {
    && 1 <= chunk.startLine <= chunk.endLine <= |lines|
    && chunk.content == Join(lines[chunk.startLine - 1..chunk.endLine], "\n")
  }

  ghost predicate AllFaithful(chunks: seq<Chunk>, lines: seq<string>) {
    forall c :: 0 <= c < |chunks| ==> Faithful(chunks[c], lines)
  }

  /** Line j, counted from zero, lies in the chunk. */
  predicate Spans(chunk: Chunk, j: int) {
    chunk.startLine - 1 <= j < chunk.endLine
  }

  ghost predicate Covered(chunks: seq<Chunk>, j: int) {
    exists c :: 0 <= c < |chunks| && Spans(chunks[c], j)
  }

  // --- line windows ---

  function Min(a: int, b: int): int {
    if a < b then a else b
  }

  /** The window at line i, unless it is blank. */
  function WindowAt(lines: seq<string>, i: nat, size: nat, filePath: string, language: string): Option<Chunk>
    requires i < |lines|
  {
    var end := Min(i + size, |lines|);
    var content := Join(lines[i..end], "\n");
    if TrimSpace(content) == "" then None else Some(Chunk(content, filePath, i + 1, end, language, "block"))
  }

  /** The windows from line i on: blank ones are left out, and a window that reaches the end is the last. */
  function WindowsOf(window: nat -> Option<Chunk>, n: nat, i: nat, size: nat, step: nat): (chunks: seq<Chunk>)
    requires 0 < step <= size
    decreases n - i
  {
    if i >= n then []
    else
      match window(i)
      case None => WindowsOf(window, n, i + step, size, step)
      case Some(chunk) => [chunk] + (if i + size >= n then [] else WindowsOf(window, n, i + step, size, step))
  }

  function FileWindows(lines: seq<string>, size: nat, filePath: string, language: string): nat -> Option<Chunk> {
    (i: nat) => if i < |lines| then WindowAt(lines, i, size, filePath, language) else None
  }

  function Windows(lines: seq<string>, i: nat, size: nat, step: nat, filePath: string,
                   language: string): (chunks: seq<Chunk>)
    requires 0 < step <= size
  {
    WindowsOf(FileWindows(lines, size, filePath, language), |lines|, i, size, step)
  }

  class FallbackSplitter {
    const chunkSize: nat
    const overlap: nat

    /** NewFallbackSplitter: whatever is asked for, the window advances. */
    constructor (chunkSize: int, overlap: int)
      ensures this.chunkSize == if chunkSize > 0 then chunkSize else 80
      ensures 0 <= overlap < this.chunkSize ==> this.overlap == overlap
      ensures overlap < 0 ==> this.overlap == 0
      ensures overlap >= this.chunkSize ==> this.overlap == this.chunkSize / 4
      ensures Advances()
    {
      var size := if chunkSize <= 0 then 80 else chunkSize;
      var shared := if overlap < 0 then 0 else overlap;
      this.chunkSize := size;
      this.overlap := if shared >= size then size / 4 else shared;
    }

    predicate Advances() {
      overlap < chunkSize
    }

    /** The loop over the lines, given what the window at each line is. */
    method CollectWindows(window: nat -> Option<Chunk>, n: nat) returns (chunks: seq<Chunk>)
      requires Advances()
      ensures chunks == WindowsOf(window, n, 0, chunkSize, chunkSize - overlap)
    {
      chunks := [];
      var step := chunkSize - overlap;
      if step <= 0 {
        step := 1;
      }
      var i := 0;
      ghost var whole := WindowsOf(window, n, 0, chunkSize, step);
      assert [] + whole == whole;
      while i < n
        invariant i >= 0
        invariant Remain(whole, chunks, WindowsOf(window, n, i, chunkSize, step))
        decreases n - i
      {
        WindowsStep(window, n, i, chunkSize, step, whole, chunks);
        var chunk := window(i);
        if chunk.None? {
          i := i + step;
          continue;
        }
        chunks := chunks + [chunk.value];
        if i + chunkSize >= n {
          return;
        }
        i := i + step;
      }
      assert chunks + [] == chunks;
    }

    method Split(code: string, language: string, filePath: string) returns (chunks: seq<Chunk>)
      requires Advances()
      ensures chunks == Windows(Text.Split(code, '\n'), 0, chunkSize, chunkSize - overlap, filePath, language)
    {
      var lines := Text.Split(code, '\n');
      chunks := CollectWindows(FileWindows(lines, chunkSize, filePath, language), |lines|);
    }
  }

  /** All windows are the ones there are so far, then the rest. */
  ghost predicate Remain(whole: seq<Chunk>, chunks: seq<Chunk>, rest: seq<Chunk>) {
    whole == chunks + rest
  }

  lemma WindowsStep(window: nat -> Option<Chunk>, n: nat, i: nat, size: nat, step: nat, whole: seq<Chunk>,
                    chunks: seq<Chunk>)
    requires 0 < step <= size && i < n && Remain(whole, chunks, WindowsOf(window, n, i, size, step))
    ensures if window(i).None? then Remain(whole, chunks, WindowsOf(window, n, i + step, size, step))
            else if i + size >= n then whole == chunks + [window(i).value]
            else Remain(whole, chunks + [window(i).value], WindowsOf(window, n, i + step, size, step))
  {
    if window(i).Some? && i + size < n {
      ConcatAssociates(chunks, [window(i).value], WindowsOf(window, n, i + step, size, step));
    }
  }

  lemma WindowAtFaithful(lines: seq<string>, i: nat, size: nat, filePath: string, language: string)
    requires i < |lines| && size > 0 && WindowAt(lines, i, size, filePath, language).Some?
    ensures var c := WindowAt(lines, i, size, filePath, language).value;
            Faithful(c, lines) && c.endLine - c.startLine + 1 <= size
  {
  }

  ghost predicate AllFit(chunks: seq<Chunk>, lines: seq<string>, size: nat) {
    AllFaithful(chunks, lines) && forall k :: 0 <= k < |chunks| ==> chunks[k].endLine - chunks[k].startLine + 1 <= size
  }

  lemma AllFitCons(c: Chunk, rest: seq<Chunk>, lines: seq<string>, size: nat)
    requires Faithful(c, lines) && c.endLine - c.startLine + 1 <= size && AllFit(rest, lines, size)
    ensures AllFit([c] + rest, lines, size)
  {
  }

  lemma {:induction false} WindowsOfFaithful(window: nat -> Option<Chunk>, lines: seq<string>, i: nat, size: nat,
                                             step: nat)
    requires 0 < step <= size
    requires forall k: nat :: k < |lines| && window(k).Some? ==>
               Faithful(window(k).value, lines) && window(k).value.endLine - window(k).value.startLine + 1 <= size
    ensures AllFit(WindowsOf(window, |lines|, i, size, step), lines, size)
    decreases |lines| - i
  {
    if i < |lines| {
      WindowsOfFaithful(window, lines, i + step, size, step);
      if window(i).Some? {
        AllFitCons(window(i).value, if i + size >= |lines| then []
                   else WindowsOf(window, |lines|, i + step, size, step), lines, size);
      }
    }
  }

  /** Every window's content is the lines it says it is. */
  lemma WindowsFaithful(lines: seq<string>, i: nat, size: nat, step: nat, filePath: string, language: string)
    requires 0 < step <= size
    ensures AllFit(Windows(lines, i, size, step, filePath, language), lines, size)
  {
    var window := FileWindows(lines, size, filePath, language);
    forall k: nat | k < |lines| && window(k).Some?
      ensures Faithful(window(k).value, lines) && window(k).value.endLine - window(k).value.startLine + 1 <= size
    {
      WindowAtFaithful(lines, k, size, filePath, language);
    }
    WindowsOfFaithful(window, lines, i, size, step);
  }

  lemma {:induction false} BlankJoinMeansBlankLines(lines: seq<string>, j: nat)
    requires j < |lines| && Blank(Join(lines, "\n"))
    ensures Blank(lines[j])
  {
    var s := Join(lines, "\n");
    if |lines| > 1 {
      var rest := Join(lines[1..], "\n");
      assert s == lines[0] + "\n" + rest;
      assert forall k :: 0 <= k < |lines[0]| ==> lines[0][k] == s[k];
      assert forall k :: 0 <= k < |rest| ==> rest[k] == s[|lines[0]| + 1 + k];
      if j > 0 {
        BlankJoinMeansBlankLines(lines[1..], j - 1);
      }
    }
  }

  /** A window over a line that is not blank is there, and spans the line. */
  lemma WindowAtSpans(lines: seq<string>, i: nat, size: nat, filePath: string, language: string, j: nat)
    requires i <= j < |lines| && j < i + size && !Blank(lines[j])
    ensures WindowAt(lines, i, size, filePath, language).Some?
    ensures Spans(WindowAt(lines, i, size, filePath, language).value, j)
  {
    var end := Min(i + size, |lines|);
    var content := Join(lines[i..end], "\n");
    TrimSpaceEmptyIffBlank(content);
    if Blank(content) {
      BlankJoinMeansBlankLines(lines[i..end], j - i);
    }
  }

  lemma {:induction false} WindowsOfCover(window: nat -> Option<Chunk>, n: nat, i: nat, size: nat, step: nat, j: nat)
    requires 0 < step <= size && i <= j < n
    requires forall k: nat :: k <= j < k + size && k < n ==> window(k).Some? && Spans(window(k).value, j)
    ensures Covered(WindowsOf(window, n, i, size, step), j)
    decreases n - i
  {
    var chunks := WindowsOf(window, n, i, size, step);
    if j < i + size {
      assert Spans(chunks[0], j);
    } else {
      WindowsOfCover(window, n, i + step, size, step, j);
      var rest := WindowsOf(window, n, i + step, size, step);
      var c :| 0 <= c < |rest| && Spans(rest[c], j);
      assert window(i).None? ==> chunks == rest;
      assert window(i).Some? ==> chunks[c + 1] == rest[c];
    }
  }

  /** Every line that is not blank is in some window. */
  lemma WindowsCover(lines: seq<string>, i: nat, size: nat, step: nat, filePath: string, language: string, j: nat)
    requires 0 < step <= size
    requires i <= j < |lines| && !Blank(lines[j])
    ensures Covered(Windows(lines, i, size, step, filePath, language), j)
  {
    var window := FileWindows(lines, size, filePath, language);
    forall k: nat | k <= j < k + size && k < |lines| ensures window(k).Some? && Spans(window(k).value, j) {
      WindowAtSpans(lines, k, size, filePath, language, j);
    }
    WindowsOfCover(window, |lines|, i, size, step, j);
  }

  // --- syntax nodes ---

  const MAX_CHUNK_LINES: int := 200

  datatype Node = Node(kind: string, startRow: nat, endRow: nat, children: seq<Node>)

  /** The node and everything below it lies inside a file of n lines. */
  predicate InFile(node: Node, n: nat) {
    && node.startRow <= node.endRow < n
    && forall c :: c in node.children ==> InFile(c, n)
  }

  /** The matched nodes that have no matched node above them, in source order. */
  function Topmost(node: Node, nodeTypes: map<string, string>): seq<Node>
    decreases node, |node.children| + 1
  {
    if node.kind in nodeTypes then [node] else TopmostBelow(node, |node.children|, nodeTypes)
  }

  function TopmostBelow(node: Node, n: nat, nodeTypes: map<string, string>): seq<Node>
    requires n <= |node.children|
    decreases node, n
  {
    if n == 0 then [] else TopmostBelow(node, n - 1, nodeTypes) + Topmost(node.children[n - 1], nodeTypes)
  }

  /** A file being split: its lines, and what the chunks say about it. */
  datatype File = File(lines: seq<string>, path: string, language: string, nodeTypes: map<string, string>)

  predicate Matched(node: Node, file: File) {
    node.kind in file.nodeTypes && node.startRow <= node.endRow < |file.lines|
  }

  ghost predicate AllMatched(nodes: seq<Node>, file: File) {
    forall n :: n in nodes ==> Matched(n, file)
  }

  function ExtractLines(lines: seq<string>, start: int, end: int): string
    requires 1 <= start <= end <= |lines|
  {
    Join(lines[start - 1..end], "\n")
  }

  function ChunkOf(node: Node, file: File): Chunk
    requires Matched(node, file)
  {
    Chunk(ExtractLines(file.lines, node.startRow + 1, node.endRow + 1), file.path, node.startRow + 1, node.endRow + 1,
          file.language, file.nodeTypes[node.kind])
  }

  ghost function ChunksOf(nodes: seq<Node>, file: File): (r: seq<Chunk>)
    requires AllMatched(nodes, file)
    ensures |r| == |nodes| && forall k :: 0 <= k < |nodes| ==> r[k] == ChunkOf(nodes[k], file)
  {
    seq(|nodes|, k requires 0 <= k < |nodes| => assert nodes[k] in nodes; ChunkOf(nodes[k], file))
  }

  lemma {:induction false} TopmostMatched(node: Node, file: File)
    requires InFile(node, |file.lines|)
    ensures AllMatched(Topmost(node, file.nodeTypes), file)
    decreases node, |node.children| + 1
  {
    if node.kind !in file.nodeTypes {
      TopmostBelowMatched(node, |node.children|, file);
    }
  }

  lemma {:induction false} TopmostBelowMatched(node: Node, n: nat, file: File)
    requires InFile(node, |file.lines|) && n <= |node.children|
    ensures AllMatched(TopmostBelow(node, n, file.nodeTypes), file)
    decreases node, n
  {
    if n > 0 {
      TopmostBelowMatched(node, n - 1, file);
      assert node.children[n - 1] in node.children;
      TopmostMatched(node.children[n - 1], file);
    }
  }

  lemma ChunksOfAppend(before: seq<Chunk>, a: seq<Node>, b: seq<Node>, file: File)
    requires AllMatched(a, file) && AllMatched(b, file)
    ensures AllMatched(a + b, file) && before + ChunksOf(a, file) + ChunksOf(b, file) == before + ChunksOf(a + b, file)
  {
    assert ChunksOf(a + b, file) == ChunksOf(a, file) + ChunksOf(b, file);
    ConcatAssociates(before, ChunksOf(a, file), ChunksOf(b, file));
  }

  /** walkNode appends the chunks of the topmost matched nodes of the tree, in order. */
  method WalkNode(node: Node, file: File, before: seq<Chunk>) returns (chunks: seq<Chunk>)
    requires InFile(node, |file.lines|)
    ensures AllMatched(Topmost(node, file.nodeTypes), file)
    ensures chunks == before + ChunksOf(Topmost(node, file.nodeTypes), file)
    decreases node
  {
    TopmostMatched(node, file);
    chunks := before;
    if node.kind in file.nodeTypes {
      var startLine := node.startRow + 1;
      var endLine := node.endRow + 1;
      chunks := chunks + [Chunk(ExtractLines(file.lines, startLine, endLine), file.path, startLine, endLine,
                                file.language, file.nodeTypes[node.kind])];
      return;
    }
    for i := 0 to |node.children|
      invariant AllMatched(TopmostBelow(node, i, file.nodeTypes), file)
      invariant chunks == before + ChunksOf(TopmostBelow(node, i, file.nodeTypes), file)
    {
      var child := node.children[i];
      assert child in node.children;
      TopmostBelowMatched(node, i + 1, file);
      TopmostMatched(child, file);
      ChunksOfAppend(before, TopmostBelow(node, i, file.nodeTypes), Topmost(child, file.nodeTypes), file);
      chunks := WalkNode(child, file, chunks);
    }
  }

  // --- cutting oversized chunks ---

  function Shift(chunk: Chunk, offset: int, nodeType: string): Chunk {
    chunk.(startLine := chunk.startLine + offset, endLine := chunk.endLine + offset, nodeType := nodeType)
  }

  function ShiftAll(parts: seq<Chunk>, offset: int, nodeType: string): (r: seq<Chunk>)
    ensures |r| == |parts| && forall k :: 0 <= k < |parts| ==> r[k] == Shift(parts[k], offset, nodeType)
  {
    seq(|parts|, k requires 0 <= k < |parts| => Shift(parts[k], offset, nodeType))
  }

  /** How chunks are cut: by lines and characters, into windows of a size and step. */
  datatype Cutting = Cutting(maxChars: int, size: nat, step: nat)

  predicate Oversized(chunk: Chunk, cutting: Cutting) {
    chunk.endLine - chunk.startLine + 1 > MAX_CHUNK_LINES || |chunk.content| > cutting.maxChars
  }

  /** What one chunk becomes: itself, or the windows over its own text under the file's line numbers. */
  function PartsOf(chunk: Chunk, cutting: Cutting): seq<Chunk>
    requires 0 < cutting.step <= cutting.size
  {
    if Oversized(chunk, cutting) then
      ShiftAll(Windows(Text.Split(chunk.content, '\n'), 0, cutting.size, cutting.step, chunk.filePath, chunk.language),
               chunk.startLine - 1, chunk.nodeType)
    else [chunk]
  }

  function AllParts(chunks: seq<Chunk>, cutting: Cutting): seq<Chunk>
    requires 0 < cutting.step <= cutting.size
  {
    if chunks == [] then [] else AllParts(chunks[..|chunks| - 1], cutting) + PartsOf(chunks[|chunks| - 1], cutting)
  }

  lemma AllPartsStep(chunks: seq<Chunk>, i: nat, cutting: Cutting)
    requires i < |chunks| && 0 < cutting.step <= cutting.size
    ensures AllParts(chunks[..i + 1], cutting) == AllParts(chunks[..i], cutting) + PartsOf(chunks[i], cutting)
  {
    assert chunks[..i + 1][..i] == chunks[..i];
  }

  predicate FitsIn(part: Chunk, chunk: Chunk) {
    chunk.startLine <= part.startLine && part.endLine <= chunk.endLine
      && part.endLine - part.startLine + 1 <= MAX_CHUNK_LINES
  }

  /** What covers the lines of one node's chunk, without leaving the chunk's lines. */
  ghost predicate Replaces(parts: seq<Chunk>, chunk: Chunk, lines: seq<string>) {
    && AllFaithful(parts, lines)
    && (forall k :: 0 <= k < |parts| ==> FitsIn(parts[k], chunk))
    && forall j :: 0 <= j < |lines| && Spans(chunk, j) && !Blank(lines[j]) ==> Covered(parts, j)
  }

  ghost predicate LinesOnly(lines: seq<string>) {
    forall k :: 0 <= k < |lines| ==> '\n' !in lines[k]
  }

  lemma ShiftFaithful(part: Chunk, chunk: Chunk, lines: seq<string>)
    requires Faithful(chunk, lines) && Faithful(part, lines[chunk.startLine - 1..chunk.endLine])
    ensures var shifted := Shift(part, chunk.startLine - 1, chunk.nodeType);
            Faithful(shifted, lines) && chunk.startLine <= shifted.startLine && shifted.endLine <= chunk.endLine
  {
    SliceOfSlice(lines, chunk.startLine - 1, chunk.endLine, part.startLine - 1, part.endLine);
  }

  lemma SplitOfChunk(chunk: Chunk, lines: seq<string>)
    requires Faithful(chunk, lines) && LinesOnly(lines)
    ensures Text.Split(chunk.content, '\n') == lines[chunk.startLine - 1..chunk.endLine]
  {
    SplitOfJoin(lines[chunk.startLine - 1..chunk.endLine], '\n');
    assert ['\n'] == "\n";
  }

  lemma ShiftedWindowsFaithful(sub: seq<Chunk>, chunk: Chunk, lines: seq<string>, size: nat, k: nat)
    requires size <= MAX_CHUNK_LINES && Faithful(chunk, lines) && k < |sub|
    requires AllFit(sub, lines[chunk.startLine - 1..chunk.endLine], size)
    ensures var part := Shift(sub[k], chunk.startLine - 1, chunk.nodeType);
            Faithful(part, lines) && FitsIn(part, chunk)
  {
    ShiftFaithful(sub[k], chunk, lines);
  }

  lemma ShiftedWindowsCover(sub: seq<Chunk>, parts: seq<Chunk>, chunk: Chunk, j: int)
    requires parts == ShiftAll(sub, chunk.startLine - 1, chunk.nodeType)
    requires Covered(sub, j - (chunk.startLine - 1))
    ensures Covered(parts, j)
  {
    var c :| 0 <= c < |sub| && Spans(sub[c], j - (chunk.startLine - 1));
    assert Spans(parts[c], j);
  }

  ghost predicate CoversAll(chunks: seq<Chunk>, lines: seq<string>) {
    forall j :: 0 <= j < |lines| && !Blank(lines[j]) ==> Covered(chunks, j)
  }

  lemma WindowsCoverAll(lines: seq<string>, size: nat, step: nat, filePath: string, language: string)
    requires 0 < step <= size
    ensures CoversAll(Windows(lines, 0, size, step, filePath, language), lines)
  {
    forall j | 0 <= j < |lines| && !Blank(lines[j])
      ensures Covered(Windows(lines, 0, size, step, filePath, language), j)
    {
      WindowsCover(lines, 0, size, step, filePath, language, j);
    }
  }

  lemma ShiftedCoverAll(sub: seq<Chunk>, parts: seq<Chunk>, chunk: Chunk, lines: seq<string>, j: int)
    requires Faithful(chunk, lines) && parts == ShiftAll(sub, chunk.startLine - 1, chunk.nodeType)
    requires CoversAll(sub, lines[chunk.startLine - 1..chunk.endLine])
    requires 0 <= j < |lines| && Spans(chunk, j) && !Blank(lines[j])
    ensures Covered(parts, j)
  {
    var own := lines[chunk.startLine - 1..chunk.endLine];
    assert own[j - (chunk.startLine - 1)] == lines[j];
    ShiftedWindowsCover(sub, parts, chunk, j);
  }

  lemma ShiftedReplace(sub: seq<Chunk>, parts: seq<Chunk>, chunk: Chunk, lines: seq<string>, size: nat)
    requires size <= MAX_CHUNK_LINES && Faithful(chunk, lines)
    requires parts == ShiftAll(sub, chunk.startLine - 1, chunk.nodeType)
    requires var own := lines[chunk.startLine - 1..chunk.endLine]; AllFit(sub, own, size) && CoversAll(sub, own)
    ensures Replaces(parts, chunk, lines)
  {
    forall k | 0 <= k < |parts| ensures Faithful(parts[k], lines) && FitsIn(parts[k], chunk) {
      ShiftedWindowsFaithful(sub, chunk, lines, size, k);
    }
    forall j | 0 <= j < |lines| && Spans(chunk, j) && !Blank(lines[j]) ensures Covered(parts, j) {
      ShiftedCoverAll(sub, parts, chunk, lines, j);
    }
  }

  /** Windows over a chunk's own content, renumbered, are faithful to the file and cover the chunk. */
  lemma ShiftedWindowsReplace(sub: seq<Chunk>, parts: seq<Chunk>, chunk: Chunk, lines: seq<string>,
                              size: nat, step: nat, filePath: string, language: string)
    requires 0 < step <= size <= MAX_CHUNK_LINES && Faithful(chunk, lines) && LinesOnly(lines)
    requires sub == Windows(Text.Split(chunk.content, '\n'), 0, size, step, filePath, language)
    requires parts == ShiftAll(sub, chunk.startLine - 1, chunk.nodeType)
    ensures Replaces(parts, chunk, lines)
  {
    var own := lines[chunk.startLine - 1..chunk.endLine];
    SplitOfChunk(chunk, lines);
    WindowsFaithful(own, 0, size, step, filePath, language);
    WindowsCoverAll(own, size, step, filePath, language);
    ShiftedReplace(sub, parts, chunk, lines, size);
  }

  class TreeSitterSplitter {
    const fallback: FallbackSplitter
    const maxChunkChars: int

    constructor (maxChunkChars: int)
      ensures Valid() && this.maxChunkChars == maxChunkChars
    {
      fallback := new FallbackSplitter(80, 10);
      this.maxChunkChars := maxChunkChars;
    }

    predicate Valid() {
      fallback.Advances() && fallback.chunkSize == 80 && fallback.overlap == 10
    }

    function Cuts(): (c: Cutting)
      requires Valid()
      ensures 0 < c.step <= c.size
    {
      Cutting(maxChunkChars, fallback.chunkSize, fallback.chunkSize - fallback.overlap)
    }

    /** The parts an oversized chunk is cut into, with the file's line numbers. */
    method CutChunk(chunk: Chunk, language: string, filePath: string,
                    ghost lines: seq<string>) returns (sub: seq<Chunk>)
      requires Valid() && Faithful(chunk, lines) && LinesOnly(lines)
      ensures Replaces(sub, chunk, lines)
      ensures sub == ShiftAll(Windows(Text.Split(chunk.content, '\n'), 0, Cuts().size, Cuts().step, filePath, language),
                              chunk.startLine - 1, chunk.nodeType)
    {
      sub := fallback.Split(chunk.content, language, filePath);
      ghost var windows := sub;
      for i := 0 to |sub|
        invariant |sub| == |windows|
        invariant forall k :: 0 <= k < i ==> sub[k] == Shift(windows[k], chunk.startLine - 1, chunk.nodeType)
        invariant forall k :: i <= k < |sub| ==> sub[k] == windows[k]
      {
        sub := sub[i := sub[i].(startLine := sub[i].startLine + (chunk.startLine - 1))];
        sub := sub[i := sub[i].(endLine := sub[i].endLine + (chunk.startLine - 1))];
        sub := sub[i := sub[i].(nodeType := chunk.nodeType)];
      }
      ShiftedWindowsReplace(windows, sub, chunk, lines, fallback.chunkSize, fallback.chunkSize - fallback.overlap,
                            filePath, language);
    }

    method CutIfOversized(chunk: Chunk, language: string, filePath: string,
                          ghost lines: seq<string>) returns (parts: seq<Chunk>)
      requires Valid() && Faithful(chunk, lines) && LinesOnly(lines) && chunk.filePath == filePath
      requires chunk.language == language
      ensures Replaces(parts, chunk, lines) && parts == PartsOf(chunk, Cuts())
    {
      var lineCount := chunk.endLine - chunk.startLine + 1;
      if lineCount > MAX_CHUNK_LINES || |chunk.content| > maxChunkChars {
        parts := CutChunk(chunk, language, filePath, lines);
      } else {
        WholeChunkReplaces(chunk, lines);
        parts := [chunk];
      }
    }

    /** The tree is absent when the language is not supported or the parser gives up. */
    method Split(code: string, language: string, filePath: string, tree: Option<Node>, nodeTypes: map<string, string>)
      returns (result: seq<Chunk>)
      requires Valid() && (tree.Some? ==> InFile(tree.value, |Text.Split(code, '\n')|))
      ensures var lines := Text.Split(code, '\n');
              && GoodChunks(result, lines)
              && (forall j :: 0 <= j < |lines| && !Blank(lines[j]) && InRegion(tree, nodeTypes, j) ==>
                  Covered(result, j))
              && (HasMatch(tree, nodeTypes) ==> AllWithinTopmost(result, tree.value, nodeTypes))
      ensures var file := File(Text.Split(code, '\n'), filePath, language, nodeTypes);
              if HasMatch(tree, nodeTypes) then
                AllMatched(Topmost(tree.value, nodeTypes), file) &&
                result == AllParts(ChunksOf(Topmost(tree.value, nodeTypes), file), Cuts())
              else result == Windows(file.lines, 0, Cuts().size, Cuts().step, filePath, language)
    {
      var lines := Text.Split(code, '\n');
      if tree.None? {
        result := FallbackSplit(code, language, filePath);
        return;
      }
      var file := File(lines, filePath, language, nodeTypes);
      var chunks := WalkNode(tree.value, file, []);
      if |chunks| == 0 {
        result := FallbackSplit(code, language, filePath);
        return;
      }
      result := CutChunks(chunks, Topmost(tree.value, nodeTypes), file);
      DoneCoversRegion(result, tree, file);
    }

    /** The loop over the chunks of the nodes, with oversized ones cut. */
    method CutChunks(chunks: seq<Chunk>, ghost nodes: seq<Node>, file: File) returns (result: seq<Chunk>)
      requires Valid() && AllMatched(nodes, file) && chunks == ChunksOf(nodes, file) && LinesOnly(file.lines)
      ensures Done(result, nodes, |nodes|, file) && result == AllParts(chunks, Cuts())
    {
      result := [];
      for i := 0 to |chunks|
        invariant Done(result, nodes, i, file)
        invariant result == AllParts(chunks[..i], Cuts())
      {
        AllPartsStep(chunks, i, Cuts());
        ChunkOfNode(nodes[i], file);
        assert nodes[i] in nodes;
        var parts := CutIfOversized(chunks[i], file.language, file.path, file.lines);
        AddParts(result, parts, nodes, i, file);
        result := result + parts;
      }
      assert chunks[..|chunks|] == chunks;
    }

    method FallbackSplit(code: string, language: string, filePath: string) returns (result: seq<Chunk>)
      requires Valid()
      ensures GoodChunks(result, Text.Split(code, '\n'))
      ensures forall j :: 0 <= j < |Text.Split(code, '\n')| && !Blank(Text.Split(code, '\n')[j]) ==> Covered(result, j)
      ensures result == Windows(Text.Split(code, '\n'), 0, Cuts().size, Cuts().step, filePath, language)
    {
      ghost var lines := Text.Split(code, '\n');
      result := fallback.Split(code, language, filePath);
      WindowsFaithful(lines, 0, fallback.chunkSize, fallback.chunkSize - fallback.overlap, filePath, language);
      forall j | 0 <= j < |lines| && !Blank(lines[j]) ensures Covered(result, j) {
        WindowsCover(lines, 0, fallback.chunkSize, fallback.chunkSize - fallback.overlap, filePath, language, j);
      }
    }
  }

  /** Every chunk is faithful to the file and of bounded length. */
  ghost predicate GoodChunks(chunks: seq<Chunk>, lines: seq<string>) {
    AllFaithful(chunks, lines) && forall c :: c in chunks ==> c.endLine - c.startLine + 1 <= MAX_CHUNK_LINES
  }

  ghost predicate HasMatch(tree: Option<Node>, nodeTypes: map<string, string>) {
    tree.Some? && Topmost(tree.value, nodeTypes) != []
  }

  /** The lines a split must cover: those of the topmost matched nodes, or the whole file when there is none. */
  ghost predicate InRegion(tree: Option<Node>, nodeTypes: map<string, string>, j: int) {
    HasMatch(tree, nodeTypes) ==> exists t :: t in Topmost(tree.value, nodeTypes) && t.startRow <= j <= t.endRow
  }

  predicate WithinNode(chunk: Chunk, node: Node) {
    node.startRow < chunk.startLine && chunk.endLine <= node.endRow + 1
  }

  /** No chunk reaches outside the topmost matched node it came from. */
  ghost predicate AllWithinTopmost(chunks: seq<Chunk>, tree: Node, nodeTypes: map<string, string>) {
    forall c :: c in chunks ==> exists t :: t in Topmost(tree, nodeTypes) && WithinNode(c, t)
  }

  ghost predicate NodeCovered(node: Node, chunks: seq<Chunk>, lines: seq<string>) {
    forall j :: node.startRow <= j <= node.endRow && j < |lines| && !Blank(lines[j]) ==> Covered(chunks, j)
  }

  lemma ChunkOfNode(node: Node, file: File)
    requires Matched(node, file)
    ensures var chunk := ChunkOf(node, file);
            Faithful(chunk, file.lines) && forall j :: Spans(chunk, j) <==> node.startRow <= j <= node.endRow
  {
  }

  lemma WholeChunkReplaces(chunk: Chunk, lines: seq<string>)
    requires Faithful(chunk, lines) && chunk.endLine - chunk.startLine + 1 <= MAX_CHUNK_LINES
    ensures Replaces([chunk], chunk, lines)
  {
    forall j | Spans(chunk, j) ensures Covered([chunk], j) {
      assert Spans([chunk][0], j);
    }
  }

  lemma CoverageGrows(a: seq<Chunk>, b: seq<Chunk>, j: int)
    requires Covered(a, j) || Covered(b, j)
    ensures Covered(a + b, j)
  {
    if Covered(a, j) {
      var c :| 0 <= c < |a| && Spans(a[c], j);
      assert Spans((a + b)[c], j);
    } else {
      var c :| 0 <= c < |b| && Spans(b[c], j);
      assert Spans((a + b)[|a| + c], j);
    }
  }

  /** The chunks of the first i nodes have been taken over, whole or cut. */
  ghost predicate Done(result: seq<Chunk>, nodes: seq<Node>, i: nat, file: File)
    requires i <= |nodes|
  {
    && GoodChunks(result, file.lines)
    && (forall c :: c in result ==> exists t :: t in nodes && WithinNode(c, t))
    && (forall k :: 0 <= k < i ==> NodeCovered(nodes[k], result, file.lines))
  }

  lemma AddParts(result: seq<Chunk>, parts: seq<Chunk>, nodes: seq<Node>, i: nat, file: File)
    requires AllMatched(nodes, file) && i < |nodes| && Matched(nodes[i], file)
    requires Replaces(parts, ChunkOf(nodes[i], file), file.lines)
    requires Done(result, nodes, i, file)
    ensures Done(result + parts, nodes, i + 1, file)
  {
    ChunkOfNode(nodes[i], file);
    assert nodes[i] in nodes;
    forall c | c in result + parts ensures exists t :: t in nodes && WithinNode(c, t) {
      if c in parts { assert WithinNode(c, nodes[i]); }
    }
    forall k, j | 0 <= k <= i && nodes[k].startRow <= j <= nodes[k].endRow && j < |file.lines| && !Blank(file.lines[j])
      ensures Covered(result + parts, j)
    {
      if k < i {
        assert NodeCovered(nodes[k], result, file.lines);
      } else {
        assert Spans(ChunkOf(nodes[i], file), j);
      }
      CoverageGrows(result, parts, j);
    }
  }

  lemma DoneCoversRegion(result: seq<Chunk>, tree: Option<Node>, file: File)
    requires HasMatch(tree, file.nodeTypes)
    requires var nodes := Topmost(tree.value, file.nodeTypes); Done(result, nodes, |nodes|, file)
    ensures forall j :: 0 <= j < |file.lines| && !Blank(file.lines[j]) && InRegion(tree, file.nodeTypes, j) ==>
            Covered(result, j)
    ensures AllWithinTopmost(result, tree.value, file.nodeTypes)
  {
    var nodes := Topmost(tree.value, file.nodeTypes);
    forall j | 0 <= j < |file.lines| && !Blank(file.lines[j]) && InRegion(tree, file.nodeTypes, j)
      ensures Covered(result, j)
    {
      var t :| t in nodes && t.startRow <= j <= t.endRow;
      var k :| 0 <= k < |nodes| && nodes[k] == t;
      assert NodeCovered(nodes[k], result, file.lines);
    }
  }
}
