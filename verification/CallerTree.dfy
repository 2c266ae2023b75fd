/**
 What the caller tree of module Callers says about the call graph: which callers
 it lists, where it puts them, and when it lists them all.
 */
module CallerTree {
  import opened Wrappers
  import opened Callers

  function LineIds(lines: seq<OutputLine>): set<string> {
    set l | l in lines :: l.node.identity
  }

  ghost predicate DistinctLines(lines: seq<OutputLine>) {
    forall i, j :: 0 <= i < j < |lines| ==> lines[i].node.identity != lines[j].node.identity
  }

  // --- the lines are the newly seen identities, each once ---

  ghost predicate NewLines(lines: seq<OutputLine>, seen: set<string>, seen': set<string>) {
    && seen' == seen + LineIds(lines)
    && LineIds(lines) !! seen
    && DistinctLines(lines)
  }

  /** The same for a level whose nodes are reserved already. */
  ghost predicate LevelLines(lines: seq<OutputLine>, level: seq<HierarchyNode>, seen: set<string>, seen': set<string>) {
    && Identities(level) <= LineIds(lines)
    && seen' == seen + LineIds(lines)
    && LineIds(lines) * seen <= Identities(level)
    && DistinctLines(lines)
  }

  lemma LineIdsAppend(a: seq<OutputLine>, b: seq<OutputLine>)
    ensures LineIds(a + b) == LineIds(a) + LineIds(b)
  {
    assert forall l :: l in a + b <==> l in a || l in b;
  }

  lemma DistinctAppend(a: seq<OutputLine>, b: seq<OutputLine>)
    requires DistinctLines(a) && DistinctLines(b) && LineIds(a) !! LineIds(b)
    ensures DistinctLines(a + b)
  {
    forall i, j | 0 <= i < |a| && 0 <= j < |b| ensures a[i].node.identity != b[j].node.identity {
      assert a[i] in a && b[j] in b;
      assert a[i].node.identity in LineIds(a) && b[j].node.identity in LineIds(b);
    }
  }

  lemma {:induction false} WalkLines(g: Graph, item: Item, maxDepth: int, depth: int, seen: set<string>)
    requires WellFormed(g) && depth <= maxDepth + 1
    ensures var r := Walk(g, item, maxDepth, depth, seen); r.Walked? ==> NewLines(r.lines, seen, r.seen)
    decreases maxDepth + 1 - depth, 0, 0
  {
    if depth <= maxDepth && CallersOf(g, item).Some? {
      var level := Unseen(CallersOf(g, item).value, seen);
      LevelDistinct(g, item, seen);
      DescendLines(g, level, maxDepth, depth, seen + Identities(level));
    }
  }

  lemma LevelDistinct(g: Graph, item: Item, seen: set<string>)
    requires WellFormed(g) && CallersOf(g, item).Some?
    ensures var level := Unseen(CallersOf(g, item).value, seen);
            DistinctIdentities(level) && Identities(level) !! seen
            && Identities(CallersOf(g, item).value) <= seen + Identities(level)
  {
    CallersDistinct(g, item);
    UnseenDistinct(CallersOf(g, item).value, seen);
  }

  lemma {:induction false} UnseenDistinct(nodes: seq<HierarchyNode>, seen: set<string>)
    requires DistinctIdentities(nodes)
    ensures DistinctIdentities(Unseen(nodes, seen))
  {
    if nodes != [] {
      UnseenDistinct(nodes[1..], seen);
      var rest := Unseen(nodes[1..], seen);
      forall j | 0 <= j < |rest| ensures rest[j].identity != nodes[0].identity {
        assert rest[j] in rest;
        assert rest[j] in nodes[1..];
      }
    }
  }

  lemma {:induction false} DescendLines(g: Graph, level: seq<HierarchyNode>, maxDepth: int, depth: int,
                                        seen: set<string>)
    requires WellFormed(g) && depth <= maxDepth && DistinctIdentities(level) && Identities(level) <= seen
    ensures var r := Descend(g, level, maxDepth, depth, seen); r.Walked? ==> LevelLines(r.lines, level, seen, r.seen)
    decreases maxDepth - depth, 1, |level|
  {
    if level != [] && Descend(g, level, maxDepth, depth, seen).Walked? {
      var head := [OutputLine(depth, level[0])];
      WalkLines(g, level[0].item, maxDepth, depth + 1, seen);
      var w := Walk(g, level[0].item, maxDepth, depth + 1, seen);
      HeadAndTailIds(level);
      DescendLines(g, level[1..], maxDepth, depth, w.seen);
      var d := Descend(g, level[1..], maxDepth, depth, w.seen);
      assert LineIds(head) == {level[0].identity} by { assert head[0] in head; }
      LineIdsAppend(head, w.lines);
      LineIdsAppend(head + w.lines, d.lines);
      DistinctAppend(head, w.lines);
      DistinctAppend(head + w.lines, d.lines);
    }
  }

  lemma HeadAndTailIds(level: seq<HierarchyNode>)
    requires level != [] && DistinctIdentities(level)
    ensures DistinctIdentities(level[1..])
    ensures Identities(level) == {level[0].identity} + Identities(level[1..])
    ensures level[0].identity !in Identities(level[1..])
  {
    assert level == [level[0]] + level[1..];
    assert forall n :: n in level <==> n == level[0] || n in level[1..];
  }

  // --- where the lines stand ---

  predicate IsCaller(g: Graph, item: Item, node: HierarchyNode) {
    CallersOf(g, item).Some? && node in CallersOf(g, item).value
  }

  /** The ids of the direct callers of an item; none when the request fails. */
  function CallerIds(g: Graph, item: Item): set<string> {
    match CallersOf(g, item)
    case None => {}
    case Some(nodes) => Identities(nodes)
  }

  lemma CallersDistinct(g: Graph, item: Item)
    requires WellFormed(g) && CallersOf(g, item).Some?
    ensures DistinctIdentities(CallersOf(g, item).value)
    ensures forall n :: n in CallersOf(g, item).value ==> IsNode(g, n)
  {
    assert g.callers(item).Some?;
  }

  /** Line j is the nearest line above line i that is one level up. */
  predicate IsParent(lines: seq<OutputLine>, j: int, i: int) {
    && 0 <= j < i < |lines|
    && lines[j].depth == lines[i].depth - 1
    && forall k :: j < k < i ==> lines[k].depth >= lines[i].depth
  }

  /** Line j is above line i in the tree. */
  predicate Encloses(lines: seq<OutputLine>, j: int, i: int) {
    && 0 <= j < i < |lines|
    && forall k :: j < k <= i ==> lines[k].depth > lines[j].depth
  }

  /**
   A forest of callers of one item: all lines lie between the two depths, the
   first is at the top, depth grows by at most one per line, and every line is a
   direct caller of its parent, or of the item when it is at the top.
   */
  ghost predicate CallerForest(g: Graph, item: Item, maxDepth: int, depth: int, lines: seq<OutputLine>) {
    && (forall i :: 0 <= i < |lines| ==> depth <= lines[i].depth <= maxDepth)
    && (lines != [] ==> lines[0].depth == depth)
    && (forall i :: 0 <= i < |lines| - 1 ==> lines[i + 1].depth <= lines[i].depth + 1)
    && (forall i :: 0 <= i < |lines| ==> HasParent(g, item, depth, lines, i))
  }

  ghost predicate HasParent(g: Graph, item: Item, depth: int, lines: seq<OutputLine>, i: int)
    requires 0 <= i < |lines|
  {
    if lines[i].depth == depth then IsCaller(g, item, lines[i].node)
    else exists j :: IsParent(lines, j, i) && IsCaller(g, lines[j].node.item, lines[i].node)
  }

  lemma ForestOfOne(g: Graph, item: Item, maxDepth: int, depth: int, line: OutputLine, below: seq<OutputLine>)
    requires line.depth == depth <= maxDepth && IsCaller(g, item, line.node)
    requires CallerForest(g, line.node.item, maxDepth, depth + 1, below)
    ensures CallerForest(g, item, maxDepth, depth, [line] + below)
  {
    var all := [line] + below;
    forall i | 0 <= i < |all| ensures HasParent(g, item, depth, all, i) {
      if i > 0 {
        var b := i - 1;
        assert HasParent(g, line.node.item, depth + 1, below, b);
        if below[b].depth == depth + 1 {
          assert IsParent(all, 0, i);
        } else {
          var j :| IsParent(below, j, b) && IsCaller(g, below[j].node.item, below[b].node);
          assert IsParent(all, j + 1, i);
        }
      }
    }
  }

  lemma ForestAppend(g: Graph, item: Item, maxDepth: int, depth: int, a: seq<OutputLine>, b: seq<OutputLine>)
    requires CallerForest(g, item, maxDepth, depth, a) && CallerForest(g, item, maxDepth, depth, b)
    ensures CallerForest(g, item, maxDepth, depth, a + b)
  {
    forall i | 0 <= i < |a + b| ensures HasParent(g, item, depth, a + b, i) {
      if i < |a| {
        ParentOnTheLeft(g, item, depth, a, b, i);
      } else {
        ParentOnTheRight(g, item, depth, a, b, i - |a|);
      }
    }
  }

  lemma ParentOnTheLeft(g: Graph, item: Item, depth: int, a: seq<OutputLine>, b: seq<OutputLine>, i: nat)
    requires i < |a| && HasParent(g, item, depth, a, i)
    ensures HasParent(g, item, depth, a + b, i)
  {
    if a[i].depth != depth {
      var j :| IsParent(a, j, i) && IsCaller(g, a[j].node.item, a[i].node);
      assert IsParent(a + b, j, i);
    }
  }

  lemma ParentOnTheRight(g: Graph, item: Item, depth: int, a: seq<OutputLine>, b: seq<OutputLine>, i: nat)
    requires i < |b| && HasParent(g, item, depth, b, i)
    ensures HasParent(g, item, depth, a + b, |a| + i)
  {
    if b[i].depth != depth {
      var j :| IsParent(b, j, i) && IsCaller(g, b[j].node.item, b[i].node);
      assert forall k :: 0 <= k < |b| ==> (a + b)[|a| + k] == b[k];
      assert forall k :: |a| + j < k < |a| + i ==> (a + b)[k] == b[k - |a|];
      assert IsParent(a + b, |a| + j, |a| + i);
    }
  }

  lemma {:induction false} WalkForest(g: Graph, item: Item, maxDepth: int, depth: int, seen: set<string>)
    requires depth <= maxDepth + 1
    ensures var r := Walk(g, item, maxDepth, depth, seen); r.Walked? ==> CallerForest(g, item, maxDepth, depth, r.lines)
    decreases maxDepth + 1 - depth, 0, 0
  {
    if depth <= maxDepth && CallersOf(g, item).Some? {
      var level := Unseen(CallersOf(g, item).value, seen);
      DescendForest(g, item, level, maxDepth, depth, seen + Identities(level));
    }
  }

  lemma {:induction false} DescendForest(g: Graph, item: Item, level: seq<HierarchyNode>, maxDepth: int,
                                         depth: int, seen: set<string>)
    requires depth <= maxDepth && forall n :: n in level ==> IsCaller(g, item, n)
    ensures var r := Descend(g, level, maxDepth, depth, seen);
            r.Walked? ==> CallerForest(g, item, maxDepth, depth, r.lines)
    decreases maxDepth - depth, 1, |level|
  {
    if level != [] && Descend(g, level, maxDepth, depth, seen).Walked? {
      var line := OutputLine(depth, level[0]);
      assert level[0] in level;
      WalkForest(g, level[0].item, maxDepth, depth + 1, seen);
      var w := Walk(g, level[0].item, maxDepth, depth + 1, seen);
      DescendForest(g, item, level[1..], maxDepth, depth, w.seen);
      var d := Descend(g, level[1..], maxDepth, depth, w.seen);
      ForestOfOne(g, item, maxDepth, depth, line, w.lines);
      ForestAppend(g, item, maxDepth, depth, [line] + w.lines, d.lines);
    }
  }

  // --- a direct caller of a line above never stands deeper than one level under it ---

  ghost predicate TopCallers(g: Graph, item: Item, depth: int, lines: seq<OutputLine>) {
    forall i :: 0 <= i < |lines| && lines[i].node.identity in CallerIds(g, item) ==> lines[i].depth == depth
  }

  ghost predicate NoDeepCallers(g: Graph, lines: seq<OutputLine>) {
    forall j, i :: Encloses(lines, j, i) && lines[i].node.identity in CallerIds(g, lines[j].node.item) ==>
      lines[i].depth == lines[j].depth + 1
  }

  lemma {:induction false} WalkNoDeepCallers(g: Graph, item: Item, maxDepth: int, depth: int, seen: set<string>)
    requires WellFormed(g) && depth <= maxDepth + 1
    ensures var r := Walk(g, item, maxDepth, depth, seen);
            r.Walked? ==> TopCallers(g, item, depth, r.lines) && NoDeepCallers(g, r.lines)
    decreases maxDepth + 1 - depth, 0, 0
  {
    if depth <= maxDepth && CallersOf(g, item).Some? {
      var level := Unseen(CallersOf(g, item).value, seen);
      LevelDistinct(g, item, seen);
      DescendNoDeepCallers(g, level, maxDepth, depth, seen + Identities(level), item);
    }
  }

  lemma {:induction false} DescendNoDeepCallers(g: Graph, level: seq<HierarchyNode>, maxDepth: int, depth: int,
                                                seen: set<string>, item: Item)
    requires WellFormed(g) && depth <= maxDepth && DistinctIdentities(level) && Identities(level) <= seen
    requires CallerIds(g, item) <= seen
    ensures var r := Descend(g, level, maxDepth, depth, seen);
            r.Walked? ==> TopCallers(g, item, depth, r.lines) && NoDeepCallers(g, r.lines)
    decreases maxDepth - depth, 1, |level|
  {
    var r := Descend(g, level, maxDepth, depth, seen);
    if level != [] && r.Walked? {
      var line := OutputLine(depth, level[0]);
      var w := Walk(g, level[0].item, maxDepth, depth + 1, seen);
      HeadAndTailIds(level);
      WalkLines(g, level[0].item, maxDepth, depth + 1, seen);
      WalkForest(g, level[0].item, maxDepth, depth + 1, seen);
      WalkNoDeepCallers(g, level[0].item, maxDepth, depth + 1, seen);
      DescendNoDeepCallers(g, level[1..], maxDepth, depth, w.seen, item);
      var d := Descend(g, level[1..], maxDepth, depth, w.seen);
      DescendTop(g, level[1..], maxDepth, depth, w.seen);
      NoDeepCallersJoin(g, line, w.lines, d.lines);
      TopCallersJoin(g, item, line, w.lines, d.lines);
    }
  }

  lemma TopCallersJoin(g: Graph, item: Item, line: OutputLine, below: seq<OutputLine>, rest: seq<OutputLine>)
    requires LineIds(below) !! CallerIds(g, item) && TopCallers(g, item, line.depth, rest)
    ensures TopCallers(g, item, line.depth, [line] + below + rest)
  {
    forall i | 0 <= i < |below| ensures below[i].node.identity !in CallerIds(g, item) {
      assert below[i] in below;
      assert below[i].node.identity in LineIds(below);
    }
  }

  lemma DescendTop(g: Graph, level: seq<HierarchyNode>, maxDepth: int, depth: int, seen: set<string>)
    requires depth <= maxDepth
    ensures var r := Descend(g, level, maxDepth, depth, seen);
            r.Walked? && r.lines != [] ==> r.lines[0].depth == depth
  {
  }

  lemma NoDeepCallersJoin(g: Graph, line: OutputLine, below: seq<OutputLine>, rest: seq<OutputLine>)
    requires NoDeepCallers(g, below) && NoDeepCallers(g, rest)
    requires TopCallers(g, line.node.item, line.depth + 1, below)
    requires forall i :: 0 <= i < |below| ==> below[i].depth > line.depth
    requires rest != [] ==> rest[0].depth == line.depth
    ensures NoDeepCallers(g, [line] + below + rest)
  {
    var all := [line] + below + rest;
    var n := 1 + |below|;
    assert forall k :: 0 <= k < |below| ==> all[k + 1] == below[k];
    assert forall k :: 0 <= k < |rest| ==> all[n + k] == rest[k];
    forall j, i | Encloses(all, j, i) && all[i].node.identity in CallerIds(g, all[j].node.item)
      ensures all[i].depth == all[j].depth + 1
    {
      if j >= n {
        assert Encloses(rest, j - n, i - n);
      } else {
        assert rest != [] ==> all[n].depth <= all[j].depth;
        assert i < n;
        if j > 0 {
          assert Encloses(below, j - 1, i - 1);
        }
      }
    }
  }

  // --- reachability ---

  /** The item a path ends at, from the item it starts at. */
  function End(item: Item, path: seq<HierarchyNode>): Item {
    if path == [] then item else path[|path| - 1].item
  }

  /** Each node of the path directly calls the one before it, and the first calls the item. */
  predicate IsPath(g: Graph, item: Item, path: seq<HierarchyNode>) {
    path == [] ||
    (IsPath(g, item, path[..|path| - 1]) && IsCaller(g, End(item, path[..|path| - 1]), path[|path| - 1]))
  }

  lemma {:induction false} PrependToPath(g: Graph, item: Item, node: HierarchyNode, path: seq<HierarchyNode>)
    requires IsCaller(g, item, node) && IsPath(g, node.item, path)
    ensures IsPath(g, item, [node] + path)
  {
    var longer := [node] + path;
    if path == [] {
      assert longer[..0] == [];
    } else {
      PrependToPath(g, item, node, path[..|path| - 1]);
      assert longer[..|longer| - 1] == [node] + path[..|path| - 1];
    }
  }

  predicate IsPathTo(g: Graph, item: Item, path: seq<HierarchyNode>, id: string) {
    path != [] && IsPath(g, item, path) && path[|path| - 1].identity == id
  }

  /** Some chain of n calls leads from the identity to the item. */
  ghost predicate ReachesIn(g: Graph, item: Item, id: string, n: nat) {
    exists path :: IsPathTo(g, item, path, id) && |path| == n
  }

  ghost predicate Reaches(g: Graph, item: Item, id: string) {
    exists n: nat :: ReachesIn(g, item, id, n)
  }

  lemma ReachesThrough(g: Graph, item: Item, node: HierarchyNode, id: string, n: nat)
    requires IsCaller(g, item, node) && ReachesIn(g, node.item, id, n)
    ensures ReachesIn(g, item, id, n + 1)
  {
    var path :| IsPathTo(g, node.item, path, id) && |path| == n;
    PrependToPath(g, item, node, path);
    assert IsPathTo(g, item, [node] + path, id);
  }

  lemma CallerReaches(g: Graph, item: Item, node: HierarchyNode)
    requires IsCaller(g, item, node)
    ensures ReachesIn(g, item, node.identity, 1)
  {
    assert [node][..0] == [];
    assert IsPathTo(g, item, [node], node.identity);
  }

  /** Along the parents, every line is reached in as many calls as it is deep. */
  lemma {:induction false} LinesReach(g: Graph, item: Item, maxDepth: int, lines: seq<OutputLine>, i: nat)
    returns (path: seq<HierarchyNode>)
    requires CallerForest(g, item, maxDepth, 1, lines) && i < |lines|
    ensures IsPathTo(g, item, path, lines[i].node.identity) && |path| == lines[i].depth
    ensures path[|path| - 1] == lines[i].node
    decreases i
  {
    assert HasParent(g, item, 1, lines, i);
    if lines[i].depth == 1 {
      path := [lines[i].node];
      assert path[..0] == [];
    } else {
      var j :| IsParent(lines, j, i) && IsCaller(g, lines[j].node.item, lines[i].node);
      var up := LinesReach(g, item, maxDepth, lines, j);
      path := up + [lines[i].node];
      assert path[..|path| - 1] == up;
    }
  }

  // --- completeness ---

  ghost predicate ReachedIn(g: Graph, item: Item, universe: set<string>) {
    forall id :: Reaches(g, item, id) ==> id in universe
  }

  lemma SubsetSize(a: set<string>, b: set<string>)
    requires a <= b
    ensures |a| <= |b|
  {
    if a != {} {
      var x :| x in a;
      SubsetSize(a - {x}, b - {x});
    }
  }

  /** A line and the lines it stands under are as many distinct identities as it is deep. */
  lemma {:induction false} DepthCounts(g: Graph, item: Item, maxDepth: int, lines: seq<OutputLine>,
                                       i: nat) returns (ids: set<string>)
    requires CallerForest(g, item, maxDepth, 1, lines) && DistinctLines(lines) && i < |lines|
    ensures ids <= LineIds(lines[..i + 1]) && |ids| == lines[i].depth
    decreases i
  {
    assert HasParent(g, item, 1, lines, i);
    assert lines[..i + 1][i] == lines[i] && lines[i] in lines[..i + 1];
    if lines[i].depth == 1 {
      ids := {lines[i].node.identity};
    } else {
      var j :| IsParent(lines, j, i) && IsCaller(g, lines[j].node.item, lines[i].node);
      var up := DepthCounts(g, item, maxDepth, lines, j);
      FirstLines(lines, j, i);
      ids := up + {lines[i].node.identity};
    }
  }

  lemma FirstLines(lines: seq<OutputLine>, j: nat, i: nat)
    requires DistinctLines(lines) && j < i < |lines|
    ensures LineIds(lines[..j + 1]) <= LineIds(lines[..i + 1])
    ensures lines[i].node.identity !in LineIds(lines[..j + 1])
  {
    assert lines[..i + 1][..j + 1] == lines[..j + 1];
    forall l | l in lines[..j + 1] ensures l in lines[..i + 1] && l.node.identity != lines[i].node.identity {
      var k :| 0 <= k < j + 1 && lines[k] == l;
      assert lines[..i + 1][k] == l;
    }
  }

  /** With room for every caller that reaches the root, no line stands at the bound. */
  lemma LinesAboveBound(g: Graph, root: Item, maxDepth: int, lines: seq<OutputLine>, callers: set<string>, i: nat)
    requires CallerForest(g, root, maxDepth, 1, lines) && DistinctLines(lines) && LineIds(lines) <= callers
             && i < |lines|
    ensures lines[i].depth <= |callers|
  {
    var ids := DepthCounts(g, root, maxDepth, lines, i);
    assert forall l :: l in lines[..i + 1] ==> l in lines;
    SubsetSize(ids, callers);
  }

  /** The callers of every line above the bound have been seen. */
  ghost predicate CallersSeenAbove(g: Graph, maxDepth: int, lines: seq<OutputLine>, seen: set<string>) {
    forall l :: l in lines && l.depth < maxDepth ==> CallerIds(g, l.node.item) <= seen
  }

  lemma {:induction false} WalkSeesAbove(g: Graph, item: Item, maxDepth: int, depth: int, seen: set<string>)
    requires WellFormed(g) && depth <= maxDepth + 1
    ensures var r := Walk(g, item, maxDepth, depth, seen);
            r.Walked? ==>
              CallersSeenAbove(g, maxDepth, r.lines, r.seen) && (depth <= maxDepth ==> CallerIds(g, item) <= r.seen)
    decreases maxDepth + 1 - depth, 0, 0
  {
    if depth <= maxDepth && CallersOf(g, item).Some? {
      var level := Unseen(CallersOf(g, item).value, seen);
      LevelDistinct(g, item, seen);
      DescendSeesAbove(g, level, maxDepth, depth, seen + Identities(level));
      DescendLines(g, level, maxDepth, depth, seen + Identities(level));
    }
  }

  lemma {:induction false} DescendSeesAbove(g: Graph, level: seq<HierarchyNode>, maxDepth: int, depth: int,
                                            seen: set<string>)
    requires WellFormed(g) && depth <= maxDepth && DistinctIdentities(level) && Identities(level) <= seen
    ensures var r := Descend(g, level, maxDepth, depth, seen);
            r.Walked? ==> CallersSeenAbove(g, maxDepth, r.lines, r.seen)
    decreases maxDepth - depth, 1, |level|
  {
    if level != [] && Descend(g, level, maxDepth, depth, seen).Walked? {
      HeadAndTailIds(level);
      WalkSeesAbove(g, level[0].item, maxDepth, depth + 1, seen);
      WalkLines(g, level[0].item, maxDepth, depth + 1, seen);
      var w := Walk(g, level[0].item, maxDepth, depth + 1, seen);
      DescendSeesAbove(g, level[1..], maxDepth, depth, w.seen);
      DescendLines(g, level[1..], maxDepth, depth, w.seen);
    }
  }

  /** The item is the root, or one a chain of calls leads from. */
  ghost predicate ReachedItem(g: Graph, root: Item, item: Item) {
    exists path :: IsPath(g, root, path) && End(root, path) == item
  }

  /** Reached items with one identity are one function to the server: they have the same callers. */
  ghost predicate Faithful(g: Graph, root: Item) {
    forall a: Item, b: Item :: ReachedItem(g, root, a) && ReachedItem(g, root, b) && SameIdentity(g, a, b) ==>
      CallersAgree(g, a, b)
  }

  predicate SameIdentity(g: Graph, a: Item, b: Item) {
    g.nodeFor(a).Known? && g.nodeFor(b).Known? && g.nodeFor(a).node.identity == g.nodeFor(b).node.identity
  }

  predicate CallersAgree(g: Graph, a: Item, b: Item) {
    (CallersOf(g, a).Some? <==> CallersOf(g, b).Some?) && CallerIds(g, a) == CallerIds(g, b)
  }

  /** The identity under which the walk starts: none when the root's own path is ignored. */
  function RootIdentity(g: Graph, root: Item): string {
    match g.nodeFor(root)
    case Known(node) => node.identity
    case _ => ""
  }

  function CallerWalk(g: Graph, root: Item, maxDepth: int): Walked
    requires maxDepth >= 0
  {
    Walk(g, root, maxDepth, 1, {RootIdentity(g, root)})
  }

  /** Soundness: no line twice, never the root, within the bound, each line under one it really calls. */
  lemma CallerTreeSound(g: Graph, root: Item, maxDepth: int)
    requires WellFormed(g) && maxDepth >= 0 && CallerWalk(g, root, maxDepth).Walked?
    ensures var lines := CallerWalk(g, root, maxDepth).lines;
            && DistinctLines(lines) && RootIdentity(g, root) !in LineIds(lines)
            && CallerForest(g, root, maxDepth, 1, lines)
            && TopCallers(g, root, 1, lines) && NoDeepCallers(g, lines)
            && forall id :: id in LineIds(lines) ==> Reaches(g, root, id)
  {
    var seen := {RootIdentity(g, root)};
    var lines := CallerWalk(g, root, maxDepth).lines;
    WalkLines(g, root, maxDepth, 1, seen);
    WalkForest(g, root, maxDepth, 1, seen);
    WalkNoDeepCallers(g, root, maxDepth, 1, seen);
    forall i | 0 <= i < |lines| ensures Reaches(g, root, lines[i].node.identity) {
      var path := LinesReach(g, root, maxDepth, lines, i);
      assert ReachesIn(g, root, lines[i].node.identity, |path|);
    }
  }

  /**
   Completeness: with a bound above the number of distinct reachable callers,
   and no failed request, the listed identities are exactly those that reach
   the root, without the root itself.
   */
  lemma CallerTreeComplete(g: Graph, root: Item, maxDepth: int, callers: set<string>)
    requires WellFormed(g) && Faithful(g, root) && ReachedIn(g, root, callers + {RootIdentity(g, root)})
    requires maxDepth > |callers| && CallerWalk(g, root, maxDepth).Walked?
    ensures forall id :: id in LineIds(CallerWalk(g, root, maxDepth).lines) <==>
              Reaches(g, root, id) && id != RootIdentity(g, root)
  {
    var id0 := RootIdentity(g, root);
    var r := CallerWalk(g, root, maxDepth);
    CallerTreeSound(g, root, maxDepth);
    WalkSeesAbove(g, root, maxDepth, 1, {id0});
    WalkLines(g, root, maxDepth, 1, {id0});
    forall i | 0 <= i < |r.lines| ensures r.lines[i].depth < maxDepth {
      LinesAboveBound(g, root, maxDepth, r.lines, callers, i);
    }
    forall l | l in r.lines ensures IsReachedNode(g, root, l.node) {
      LineIsNode(g, root, maxDepth, r.lines, l);
    }
    forall p: HierarchyNode | IsReachedNode(g, root, p) && p.identity in r.seen ensures CallerIds(g, p.item) <= r.seen {
      SeenNodeHasCallersSeen(g, root, r.lines, r.seen, p);
    }
    forall id | Reaches(g, root, id) && id != id0 ensures id in LineIds(r.lines) {
      var n: nat :| ReachesIn(g, root, id, n);
      var path :| IsPathTo(g, root, path, id) && |path| == n;
      PathIsSeen(g, root, r.seen, path);
    }
  }

  ghost predicate IsReachedNode(g: Graph, root: Item, node: HierarchyNode) {
    IsNode(g, node) && ReachedItem(g, root, node.item)
  }

  lemma LineIsNode(g: Graph, root: Item, maxDepth: int, lines: seq<OutputLine>, l: OutputLine)
    requires WellFormed(g) && CallerForest(g, root, maxDepth, 1, lines) && l in lines
    ensures IsReachedNode(g, root, l.node)
  {
    var i :| 0 <= i < |lines| && lines[i] == l;
    var path := LinesReach(g, root, maxDepth, lines, i);
    assert End(root, path) == l.node.item;
    assert HasParent(g, root, 1, lines, i);
    if lines[i].depth == 1 {
      CallersDistinct(g, root);
    } else {
      var j :| IsParent(lines, j, i) && IsCaller(g, lines[j].node.item, lines[i].node);
      CallersDistinct(g, lines[j].node.item);
    }
  }

  /** The callers of every node seen have been seen. */
  ghost predicate ClosedUnderCallers(g: Graph, root: Item, seen: set<string>) {
    forall p: HierarchyNode :: IsReachedNode(g, root, p) && p.identity in seen ==> CallerIds(g, p.item) <= seen
  }

  /** The last node of a path is a node of the graph, and reached. */
  lemma PathEndIsNode(g: Graph, root: Item, path: seq<HierarchyNode>)
    requires WellFormed(g) && IsPath(g, root, path) && path != []
    ensures IsReachedNode(g, root, path[|path| - 1])
    ensures path[|path| - 1].identity in CallerIds(g, End(root, path[..|path| - 1]))
  {
    CallersDistinct(g, End(root, path[..|path| - 1]));
    assert End(root, path) == path[|path| - 1].item;
  }

  lemma SameCallers(g: Graph, root: Item, a: Item, b: Item)
    requires Faithful(g, root) && ReachedItem(g, root, a) && ReachedItem(g, root, b) && SameIdentity(g, a, b)
    ensures CallerIds(g, a) == CallerIds(g, b)
  {
    assert CallersAgree(g, a, b);
  }

  lemma RootIsReached(g: Graph, root: Item)
    ensures ReachedItem(g, root, root)
  {
    assert IsPath(g, root, []) && End(root, []) == root;
  }

  lemma {:induction false} PathIsSeen(g: Graph, root: Item, seen: set<string>, path: seq<HierarchyNode>)
    requires WellFormed(g) && ClosedUnderCallers(g, root, seen) && CallerIds(g, root) <= seen
    requires IsPath(g, root, path) && path != []
    ensures path[|path| - 1].identity in seen
  {
    var init := path[..|path| - 1];
    PathEndIsNode(g, root, path);
    if init != [] {
      PathIsSeen(g, root, seen, init);
      PathEndIsNode(g, root, init);
    }
  }

  lemma SeenNodeHasCallersSeen(g: Graph, root: Item, lines: seq<OutputLine>, seen: set<string>, p: HierarchyNode)
    requires Faithful(g, root) && IsReachedNode(g, root, p) && p.identity in seen
    requires seen == {RootIdentity(g, root)} + LineIds(lines)
    requires forall l :: l in lines ==> IsReachedNode(g, root, l.node)
    requires CallerIds(g, root) <= seen && forall l :: l in lines ==> CallerIds(g, l.node.item) <= seen
    ensures CallerIds(g, p.item) <= seen
  {
    if p.identity == RootIdentity(g, root) {
      RootIsReached(g, root);
      SameCallers(g, root, p.item, root);
    } else {
      var l :| l in lines && l.node.identity == p.identity;
      SameCallers(g, root, p.item, l.node.item);
    }
  }

  /** FindCallersRaw, once the root item is known: the lines of the walk, or an error. */
  method FindCallers(ws: Workspace, incoming: Item -> Option<seq<Item>>, root: Item, maxDepth: int)
    returns (r: Option<seq<OutputLine>>)
    ensures maxDepth <= 0 || NodeFor(ws, root).BadURI? ==> r == None
    ensures maxDepth > 0 && !NodeFor(ws, root).BadURI? ==>
              match CallerWalk(ServerGraph(ws, incoming), root, maxDepth)
              case WalkFailed => r == None
              case Walked(_, lines) => r == Some(lines)
  {
    if maxDepth <= 0 {
      return None;
    }
    var identity := "";
    match NodeFor(ws, root) {
      case BadURI => return None;
      case Ignored =>
      case Known(node) => identity := node.identity;
    }
    var walk := new CallersWalk(ws, incoming, identity);
    assert walk.graph == ServerGraph(ws, incoming) && walk.seen == {RootIdentity(walk.graph, root)};
    var count := walk.WalkIncoming(root, maxDepth, 1);
    if count.Err? {
      return None;
    }
    ghost var whole := CallerWalk(walk.graph, root, maxDepth);
    assert whole.Walked? && walk.outputLines == whole.lines by {
      assert [] + whole.lines == whole.lines;
    }
    r := Some(walk.outputLines);
  }
}
