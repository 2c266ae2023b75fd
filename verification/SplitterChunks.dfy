/**
 Which chunks there are (pkg/splitter/fallback.go:29-67, treesitter.go:56-137):
 exactly the line windows that start at multiples of the step, up to the first
 that reaches the end, and are not blank throughout; and for a syntax tree
 exactly its topmost matched nodes, whole or in windows.
 */
module SplitterChunks {
  import opened Wrappers
  import opened Sequences
  import opened Text
  import opened Splitter

  /** Window number k starts in the file, and the one before it does not reach the end. */
  predicate IsDue(n: nat, k: nat, size: nat, step: nat) {
    k * step < n && (k > 0 ==> (k - 1) * step + size < n)
  }

  function EndOf(n: nat, k: nat, size: nat, step: nat): nat {
    if k * step + size < n then k * step + size else n
  }

  /** The chunk is window number k: its lines as they are, not all of them blank. */
  ghost predicate IsWindow(chunk: Chunk, lines: seq<string>, k: nat, size: nat, step: nat, filePath: string,
                           language: string) {
    && IsDue(|lines|, k, size, step)
    && var end := EndOf(|lines|, k, size, step);
    && (exists j :: k * step <= j < end && !Blank(lines[j]))
    && chunk == Chunk(Join(lines[k * step..end], "\n"), filePath, k * step + 1, end, language, "block")
  }

  // --- any windows ---

  /** Window k is due, counting from k0, and there. */
  predicate IsListed(window: nat -> Option<Chunk>, n: nat, k0: nat, k: nat, size: nat, step: nat, chunk: Chunk) {
    k0 <= k && k * step < n && (k > k0 ==> (k - 1) * step + size < n) && window(k * step) == Some(chunk)
  }

  ghost predicate SomeListed(window: nat -> Option<Chunk>, n: nat, k0: nat, size: nat, step: nat, chunk: Chunk) {
    exists k: nat :: IsListed(window, n, k0, k, size, step, chunk)
  }

  /** After a window that is absent and reaches the end, all others are absent. */
  ghost predicate AbsentToTheEnd(window: nat -> Option<Chunk>, n: nat, size: nat) {
    forall i: nat, j: nat :: i <= j < n && n <= i + size && window(i).None? ==> window(j).None?
  }

  lemma StepsAscend(a: nat, b: nat, step: nat)
    requires a <= b
    ensures a * step <= b * step && (a < b ==> a * step + step <= b * step)
  {
    assert b * step == a * step + (b - a) * step;
    if a < b {
      assert (b - a) * step == step + (b - a - 1) * step;
    }
  }

  lemma {:induction false} ListedFrom(window: nat -> Option<Chunk>, n: nat, k0: nat, size: nat, step: nat, chunk: Chunk)
    requires 0 < step <= size && AbsentToTheEnd(window, n, size)
    ensures chunk in WindowsOf(window, n, k0 * step, size, step) <==>
              SomeListed(window, n, k0, size, step, chunk)
    decreases n - k0 * step
  {
    if k0 * step < n {
      OneStepMore(k0, step);
      ListedFrom(window, n, k0 + 1, size, step, chunk);
      ListedStep(window, n, k0, size, step, chunk);
    } else {
      NoneListedPast(window, n, k0, size, step, chunk);
    }
  }

  lemma OneStepMore(k: nat, step: nat)
    ensures (k + 1) * step == k * step + step
  {
  }

  lemma NoneListedPast(window: nat -> Option<Chunk>, n: nat, k0: nat, size: nat, step: nat, chunk: Chunk)
    requires k0 * step >= n
    ensures !SomeListed(window, n, k0, size, step, chunk)
  {
    forall k: nat ensures !IsListed(window, n, k0, k, size, step, chunk) {
      if k0 <= k {
        StepsAscend(k0, k, step);
      }
    }
  }

  lemma ListedStep(window: nat -> Option<Chunk>, n: nat, k0: nat, size: nat, step: nat, chunk: Chunk)
    requires 0 < step <= size && AbsentToTheEnd(window, n, size) && k0 * step < n
    ensures SomeListed(window, n, k0, size, step, chunk) <==>
              window(k0 * step) == Some(chunk)
              || ((window(k0 * step).None? || k0 * step + size < n) && SomeListed(window, n, k0 + 1, size, step, chunk))
  {
    if window(k0 * step) == Some(chunk) {
      assert IsListed(window, n, k0, k0, size, step, chunk);
    }
    if k: nat :| IsListed(window, n, k0, k, size, step, chunk) && k > k0 {
      StepsAscend(k0, k - 1, step);
      assert IsListed(window, n, k0 + 1, k, size, step, chunk);
    }
    if (window(k0 * step).None? || k0 * step + size < n) && SomeListed(window, n, k0 + 1, size, step, chunk) {
      var k: nat :| IsListed(window, n, k0 + 1, k, size, step, chunk);
      StepsAscend(k0, k, step);
      assert IsListed(window, n, k0, k, size, step, chunk);
    }
  }

  // --- the windows of a file ---

  lemma {:induction false} BlankLinesJoin(lines: seq<string>)
    requires forall j :: 0 <= j < |lines| ==> Blank(lines[j])
    ensures Blank(Join(lines, "\n"))
  {
    if |lines| > 1 {
      BlankLinesJoin(lines[1..]);
    }
  }

  lemma WindowIsBlankIff(lines: seq<string>, i: nat, size: nat, filePath: string, language: string)
    requires i < |lines|
    ensures WindowAt(lines, i, size, filePath, language).None? <==>
              forall j :: i <= j < Min(i + size, |lines|) ==> Blank(lines[j])
  {
    var own := lines[i..Min(i + size, |lines|)];
    TrimSpaceEmptyIffBlank(Join(own, "\n"));
    if Blank(Join(own, "\n")) {
      forall j | i <= j < Min(i + size, |lines|) ensures Blank(lines[j]) {
        BlankJoinMeansBlankLines(own, j - i);
        assert own[j - i] == lines[j];
      }
    }
    if forall j :: i <= j < Min(i + size, |lines|) ==> Blank(lines[j]) {
      BlankLinesJoin(own);
    }
  }

  lemma FileWindowsAbsent(lines: seq<string>, size: nat, filePath: string, language: string)
    ensures AbsentToTheEnd(FileWindows(lines, size, filePath, language), |lines|, size)
  {
    var window := FileWindows(lines, size, filePath, language);
    forall i: nat, j: nat | i <= j < |lines| && |lines| <= i + size && window(i).None? ensures window(j).None? {
      WindowIsBlankIff(lines, i, size, filePath, language);
      WindowIsBlankIff(lines, j, size, filePath, language);
    }
  }

  lemma ListedIsWindow(lines: seq<string>, k: nat, size: nat, step: nat, filePath: string, language: string,
                       chunk: Chunk)
    requires 0 < step <= size
    ensures IsListed(FileWindows(lines, size, filePath, language), |lines|, 0, k, size, step, chunk) <==>
              IsWindow(chunk, lines, k, size, step, filePath, language)
  {
    if k * step < |lines| {
      WindowIsBlankIff(lines, k * step, size, filePath, language);
    }
  }

  /**
   A chunk is a window exactly when it is window number k of the file for some k:
   it starts k steps down, no window before it reaches the end, it takes in as
   many lines as fit, and not all of them are blank.
   */
  lemma WindowsExactly(lines: seq<string>, size: nat, step: nat, filePath: string, language: string, chunk: Chunk)
    requires 0 < step <= size
    ensures chunk in Windows(lines, 0, size, step, filePath, language) <==>
              exists k: nat :: IsWindow(chunk, lines, k, size, step, filePath, language)
  {
    var window := FileWindows(lines, size, filePath, language);
    FileWindowsAbsent(lines, size, filePath, language);
    assert 0 * step == 0;
    ListedFrom(window, |lines|, 0, size, step, chunk);
    forall k: nat ensures IsListed(window, |lines|, 0, k, size, step, chunk) <==>
                          IsWindow(chunk, lines, k, size, step, filePath, language)
    {
      ListedIsWindow(lines, k, size, step, filePath, language, chunk);
    }
  }

  ghost predicate StartsAscend(chunks: seq<Chunk>, above: int) {
    && (forall c :: c in chunks ==> above <= c.startLine)
    && forall a, b :: 0 <= a < b < |chunks| ==> chunks[a].startLine < chunks[b].startLine
  }

  lemma {:induction false} WindowsOfAscend(window: nat -> Option<Chunk>, n: nat, i: nat, size: nat, step: nat)
    requires 0 < step <= size
    requires forall k: nat :: k < n && window(k).Some? ==> window(k).value.startLine == k + 1
    ensures StartsAscend(WindowsOf(window, n, i, size, step), i + 1)
    decreases n - i
  {
    if i < n {
      WindowsOfAscend(window, n, i + step, size, step);
    }
  }

  /** The windows come in the order of their lines. */
  lemma WindowsInOrder(lines: seq<string>, size: nat, step: nat, filePath: string, language: string)
    requires 0 < step <= size
    ensures StartsAscend(Windows(lines, 0, size, step, filePath, language), 1)
  {
    WindowsOfAscend(FileWindows(lines, size, filePath, language), |lines|, 0, size, step);
  }

  // --- the chunks of a syntax tree ---

  /** A matched node with only unmatched ones above it. */
  ghost predicate IsTopmost(tree: Node, nodeTypes: map<string, string>, node: Node)
    decreases tree
  {
    if tree.kind in nodeTypes then node == tree
    else exists c :: 0 <= c < |tree.children| && IsTopmost(tree.children[c], nodeTypes, node)
  }

  ghost predicate IsTopmostBelow(tree: Node, n: nat, nodeTypes: map<string, string>, node: Node)
    requires n <= |tree.children|
  {
    exists c :: 0 <= c < n && IsTopmost(tree.children[c], nodeTypes, node)
  }

  /** The nodes that make chunks are exactly the topmost matched ones. */
  lemma {:induction false} TopmostIff(tree: Node, nodeTypes: map<string, string>, node: Node)
    ensures node in Topmost(tree, nodeTypes) <==> IsTopmost(tree, nodeTypes, node)
    decreases tree, |tree.children| + 1
  {
    if tree.kind !in nodeTypes {
      TopmostBelowIff(tree, |tree.children|, nodeTypes, node);
    }
  }

  lemma {:induction false} TopmostBelowIff(tree: Node, n: nat, nodeTypes: map<string, string>, node: Node)
    requires n <= |tree.children|
    ensures node in TopmostBelow(tree, n, nodeTypes) <==> IsTopmostBelow(tree, n, nodeTypes, node)
    decreases tree, n
  {
    if n > 0 {
      TopmostBelowIff(tree, n - 1, nodeTypes, node);
      TopmostIff(tree.children[n - 1], nodeTypes, node);
      OneChildMore(tree, n - 1, nodeTypes, node);
    }
  }

  lemma OneChildMore(tree: Node, n: nat, nodeTypes: map<string, string>, node: Node)
    requires n < |tree.children|
    ensures IsTopmostBelow(tree, n + 1, nodeTypes, node) <==>
              IsTopmostBelow(tree, n, nodeTypes, node) || IsTopmost(tree.children[n], nodeTypes, node)
  {
  }

  /** What is made of one chunk: the windows of its own text under the file's line numbers, or the chunk itself. */
  ghost predicate IsPart(part: Chunk, chunk: Chunk, maxChars: int, size: nat, step: nat) {
    if chunk.endLine - chunk.startLine + 1 > 200 || |chunk.content| > maxChars then
      && part.nodeType == chunk.nodeType
      && var off := chunk.startLine - 1;
      var window := part.(startLine := part.startLine - off, endLine := part.endLine - off, nodeType := "block");
      exists k: nat :: IsWindow(window, Text.Split(chunk.content, '\n'), k, size, step, chunk.filePath, chunk.language)
    else part == chunk
  }

  lemma PartsExactly(part: Chunk, chunk: Chunk, cutting: Cutting)
    requires 0 < cutting.step <= cutting.size
    ensures part in PartsOf(chunk, cutting) <==> IsPart(part, chunk, cutting.maxChars, cutting.size, cutting.step)
  {
    if Oversized(chunk, cutting) {
      var off := chunk.startLine - 1;
      var lines := Text.Split(chunk.content, '\n');
      var windows := Windows(lines, 0, cutting.size, cutting.step, chunk.filePath, chunk.language);
      var window := part.(startLine := part.startLine - off, endLine := part.endLine - off, nodeType := "block");
      WindowsExactly(lines, cutting.size, cutting.step, chunk.filePath, chunk.language, window);
      ShiftedBack(windows, off, chunk.nodeType, part, window);
      forall w | w in windows ensures w.nodeType == "block" {
        WindowsExactly(lines, cutting.size, cutting.step, chunk.filePath, chunk.language, w);
      }
    }
  }

  /** Shifting is undone by shifting back. */
  lemma ShiftedBack(windows: seq<Chunk>, off: int, nodeType: string, part: Chunk, window: Chunk)
    requires window == part.(startLine := part.startLine - off, endLine := part.endLine - off, nodeType := "block")
    ensures window in windows && part.nodeType == nodeType ==> part in ShiftAll(windows, off, nodeType)
    ensures (forall w :: w in windows ==> w.nodeType == "block") && part in ShiftAll(windows, off, nodeType) ==>
              window in windows && part.nodeType == nodeType
  {
    var parts := ShiftAll(windows, off, nodeType);
    if window in windows && part.nodeType == nodeType {
      var k :| 0 <= k < |windows| && windows[k] == window;
      assert parts[k] == part;
    }
    if (forall w :: w in windows ==> w.nodeType == "block") && part in parts {
      var k :| 0 <= k < |parts| && parts[k] == part;
      assert windows[k] in windows && windows[k] == window;
    }
  }

  lemma {:induction false} AllPartsExactly(part: Chunk, chunks: seq<Chunk>, cutting: Cutting)
    requires 0 < cutting.step <= cutting.size
    ensures part in AllParts(chunks, cutting) <==>
              exists chunk :: chunk in chunks && IsPart(part, chunk, cutting.maxChars, cutting.size, cutting.step)
  {
    if chunks != [] {
      var init, last := chunks[..|chunks| - 1], chunks[|chunks| - 1];
      AllPartsExactly(part, init, cutting);
      PartsExactly(part, last, cutting);
      assert forall c :: c in chunks <==> c in init || c == last;
    }
  }

  /** The chunk of a node: its lines, under its line numbers and the type its kind stands for. */
  predicate IsChunkOf(chunk: Chunk, node: Node, file: File) {
    && node.startRow <= node.endRow < |file.lines| && node.kind in file.nodeTypes
    && chunk == Chunk(Join(file.lines[node.startRow..node.endRow + 1], "\n"), file.path, node.startRow + 1,
                      node.endRow + 1, file.language, file.nodeTypes[node.kind])
  }

  /** This part is made of the chunk of a topmost matched node. */
  ghost predicate ComesFrom(part: Chunk, tree: Node, file: File, maxChars: int, size: nat, step: nat) {
    exists node, chunk :: IsTopmost(tree, file.nodeTypes, node) && IsChunkOf(chunk, node, file)
                          && IsPart(part, chunk, maxChars, size, step)
  }

  /** A chunk of the topmost nodes is the chunk of one of them, and the other way round. */
  lemma NodeChunks(tree: Node, file: File, chunk: Chunk)
    requires AllMatched(Topmost(tree, file.nodeTypes), file)
    ensures chunk in ChunksOf(Topmost(tree, file.nodeTypes), file) <==>
              exists node :: IsTopmost(tree, file.nodeTypes, node) && IsChunkOf(chunk, node, file)
  {
    var nodes := Topmost(tree, file.nodeTypes);
    var chunks := ChunksOf(nodes, file);
    if chunk in chunks {
      var k :| 0 <= k < |chunks| && chunks[k] == chunk;
      assert nodes[k] in nodes;
      TopmostIff(tree, file.nodeTypes, nodes[k]);
      assert IsChunkOf(chunk, nodes[k], file);
    }
    if node :| IsTopmost(tree, file.nodeTypes, node) && IsChunkOf(chunk, node, file) {
      TopmostIff(tree, file.nodeTypes, node);
      var k :| 0 <= k < |nodes| && nodes[k] == node;
      assert chunks[k] == chunk;
    }
  }

  /**
   For a file with a syntax tree in which something matches, the chunks are exactly
   those of the topmost matched nodes: whole when they have at most 200 lines and
   are not too long, and otherwise as windows of their lines.
   */
  lemma TreeChunksExactly(part: Chunk, tree: Node, file: File, cutting: Cutting)
    requires 0 < cutting.step <= cutting.size && AllMatched(Topmost(tree, file.nodeTypes), file)
    ensures part in AllParts(ChunksOf(Topmost(tree, file.nodeTypes), file), cutting) <==>
              ComesFrom(part, tree, file, cutting.maxChars, cutting.size, cutting.step)
  {
    AllPartsExactly(part, ChunksOf(Topmost(tree, file.nodeTypes), file), cutting);
    forall chunk ensures chunk in ChunksOf(Topmost(tree, file.nodeTypes), file) <==>
                         exists node :: IsTopmost(tree, file.nodeTypes, node) && IsChunkOf(chunk, node, file)
    {
      NodeChunks(tree, file, chunk);
    }
  }
}
