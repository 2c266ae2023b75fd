/**
 How close to the root the walk of module Callers lists a caller, and which
 callers a bounded walk misses: exact conditions, and the graphs on which a
 language server can show that they fail.
 */
module CallerDepth {
  import opened Wrappers
  import opened Text
  import opened Order
  import opened Callers
  import opened CallerTree

  /** No listed caller of a listed line stands more than one level deeper than it. */
  ghost predicate NoDeepEdge(g: Graph, lines: seq<OutputLine>) {
    forall i, j | 0 <= i < |lines| && 0 <= j < |lines| && lines[j].node.identity in CallerIds(g, lines[i].node.item) ::
      lines[j].depth <= lines[i].depth + 1
  }

  ghost predicate ListedWithin(lines: seq<OutputLine>, id: string, n: nat) {
    exists i :: 0 <= i < |lines| && lines[i].node.identity == id && lines[i].depth <= n
  }

  /** Whatever reaches the root within the bound is listed, and at no more than its distance. */
  ghost predicate NothingMissed(g: Graph, root: Item, maxDepth: int, lines: seq<OutputLine>) {
    forall id, n: nat :: n <= maxDepth && ReachesIn(g, root, id, n) && id != RootIdentity(g, root) ==>
      ListedWithin(lines, id, n)
  }

  // --- the condition on the tree ---

  /** What a path needs to know about the lines of a walk. */
  ghost predicate Tree(g: Graph, root: Item, maxDepth: int, lines: seq<OutputLine>) {
    && TopCallers(g, root, 1, lines)
    && (forall l :: l in lines ==> IsReachedNode(g, root, l.node))
    && var seen := {RootIdentity(g, root)} + LineIds(lines);
    && CallersSeenAbove(g, maxDepth, lines, seen)
    && (maxDepth > 0 ==> CallerIds(g, root) <= seen)
  }

  lemma WalkIsTree(g: Graph, root: Item, maxDepth: int)
    requires WellFormed(g) && maxDepth >= 0 && CallerWalk(g, root, maxDepth).Walked?
    ensures Tree(g, root, maxDepth, CallerWalk(g, root, maxDepth).lines)
  {
    var lines := CallerWalk(g, root, maxDepth).lines;
    CallerTreeSound(g, root, maxDepth);
    WalkSeesAbove(g, root, maxDepth, 1, {RootIdentity(g, root)});
    WalkLines(g, root, maxDepth, 1, {RootIdentity(g, root)});
    forall l | l in lines ensures IsReachedNode(g, root, l.node) {
      LineIsNode(g, root, maxDepth, lines, l);
    }
  }

  lemma TopCallerIsListed(g: Graph, root: Item, maxDepth: int, lines: seq<OutputLine>, id: string)
    requires maxDepth > 0 && Tree(g, root, maxDepth, lines)
    requires id in CallerIds(g, root) && id != RootIdentity(g, root)
    ensures ListedWithin(lines, id, 1)
  {
    assert id in LineIds(lines);
    var i :| 0 <= i < |lines| && lines[i].node.identity == id;
    assert lines[i].depth == 1;
  }

  /** A line above the bound has its callers listed, none of them more than one level down. */
  lemma NextIsListed(g: Graph, root: Item, maxDepth: int, lines: seq<OutputLine>, p: HierarchyNode, n: nat, id: string)
    requires Faithful(g, root) && Tree(g, root, maxDepth, lines) && NoDeepEdge(g, lines)
    requires IsReachedNode(g, root, p) && ListedWithin(lines, p.identity, n) && n < maxDepth
    requires id in CallerIds(g, p.item) && id != RootIdentity(g, root)
    ensures ListedWithin(lines, id, n + 1)
  {
    var j :| 0 <= j < |lines| && lines[j].node.identity == p.identity && lines[j].depth <= n;
    assert lines[j] in lines;
    SameCallers(g, root, p.item, lines[j].node.item);
    assert id in LineIds(lines);
    var i :| 0 <= i < |lines| && lines[i].node.identity == id;
    assert lines[i].depth <= lines[j].depth + 1;
  }

  /** By induction on the path, also when it passes the root again. */
  lemma {:induction false} PathIsListed(g: Graph, root: Item, maxDepth: int, lines: seq<OutputLine>,
                                        path: seq<HierarchyNode>)
    requires WellFormed(g) && Faithful(g, root) && Tree(g, root, maxDepth, lines) && NoDeepEdge(g, lines)
    requires path != [] && |path| <= maxDepth && IsPath(g, root, path)
    requires path[|path| - 1].identity != RootIdentity(g, root)
    ensures ListedWithin(lines, path[|path| - 1].identity, |path|)
  {
    var init, id := path[..|path| - 1], path[|path| - 1].identity;
    PathEndIsNode(g, root, path);
    if init == [] {
      TopCallerIsListed(g, root, maxDepth, lines, id);
    } else {
      var p := init[|init| - 1];
      PathEndIsNode(g, root, init);
      if p.identity == RootIdentity(g, root) {
        RootIsReached(g, root);
        SameCallers(g, root, p.item, root);
        TopCallerIsListed(g, root, maxDepth, lines, id);
      } else {
        PathIsListed(g, root, maxDepth, lines, init);
        NextIsListed(g, root, maxDepth, lines, p, |init|, id);
      }
    }
  }

  lemma OneCallFurther(g: Graph, root: Item, maxDepth: int, lines: seq<OutputLine>, i: nat,
                       id: string) returns (up: seq<HierarchyNode>, node: HierarchyNode)
    requires CallerForest(g, root, maxDepth, 1, lines) && i < |lines| && id in CallerIds(g, lines[i].node.item)
    ensures IsPathTo(g, root, up, lines[i].node.identity) && |up| == lines[i].depth
    ensures IsPathTo(g, root, up + [node], id)
  {
    up := LinesReach(g, root, maxDepth, lines, i);
    node :| node in CallersOf(g, lines[i].node.item).value && node.identity == id;
    assert (up + [node])[..|up|] == up;
  }

  /**
   A walk of any bound lists everything within the bound, at no more than its
   distance, exactly when no caller of a line was claimed further down by a
   branch walked earlier.
   */
  lemma NothingMissedIff(g: Graph, root: Item, maxDepth: int)
    requires WellFormed(g) && Faithful(g, root) && maxDepth >= 0 && CallerWalk(g, root, maxDepth).Walked?
    ensures var lines := CallerWalk(g, root, maxDepth).lines;
            NothingMissed(g, root, maxDepth, lines) <==> NoDeepEdge(g, lines)
  {
    var lines := CallerWalk(g, root, maxDepth).lines;
    CallerTreeSound(g, root, maxDepth);
    WalkIsTree(g, root, maxDepth);
    if NothingMissed(g, root, maxDepth, lines) {
      forall i, j | 0 <= i < |lines| && 0 <= j < |lines| && lines[j].node.identity in CallerIds(g, lines[i].node.item)
        ensures lines[j].depth <= lines[i].depth + 1
      {
        CloseEdge(g, root, maxDepth, lines, i, j);
      }
    }
    if NoDeepEdge(g, lines) {
      forall id, n: nat | n <= maxDepth && ReachesIn(g, root, id, n) && id != RootIdentity(g, root)
        ensures ListedWithin(lines, id, n)
      {
        var path :| IsPathTo(g, root, path, id) && |path| == n;
        PathIsListed(g, root, maxDepth, lines, path);
      }
    }
  }

  lemma CloseEdge(g: Graph, root: Item, maxDepth: int, lines: seq<OutputLine>, i: nat, j: nat)
    requires CallerForest(g, root, maxDepth, 1, lines) && DistinctLines(lines)
             && NothingMissed(g, root, maxDepth, lines)
    requires RootIdentity(g, root) !in LineIds(lines)
    requires i < |lines| && j < |lines| && lines[j].node.identity in CallerIds(g, lines[i].node.item)
    ensures lines[j].depth <= lines[i].depth + 1
  {
    var id := lines[j].node.identity;
    if lines[i].depth < maxDepth {
      var up, node := OneCallFurther(g, root, maxDepth, lines, i, id);
      assert ReachesIn(g, root, id, |up + [node]|);
      assert lines[j] in lines && id in LineIds(lines);
      assert ListedWithin(lines, id, lines[i].depth + 1);
    }
  }

  // --- a condition on the graph ---

  /** The rank where a path ends: nothing but the root has rank zero by itself. */
  function RankAtEnd(rank: string -> int, path: seq<HierarchyNode>): int {
    if path == [] then 0 else rank(path[|path| - 1].identity)
  }

  /** One rank for every identity: the root's is zero, and a caller's is one more than that of what it calls. */
  ghost predicate Ranked(g: Graph, root: Item, rank: string -> int) {
    && rank(RootIdentity(g, root)) == 0
    && forall path: seq<HierarchyNode> |
         IsPath(g, root, path) && path != [] && path[|path| - 1].identity != RootIdentity(g, root) ::
         RankAtEnd(rank, path) == RankAtEnd(rank, path[..|path| - 1]) + 1
  }

  /** Then every line stands at its rank. */
  lemma {:induction false} LineAtItsRank(g: Graph, root: Item, maxDepth: int, lines: seq<OutputLine>, i: nat,
                                         rank: string -> int)
    requires CallerForest(g, root, maxDepth, 1, lines) && RootIdentity(g, root) !in LineIds(lines)
    requires Ranked(g, root, rank) && i < |lines|
    ensures lines[i].depth == rank(lines[i].node.identity)
    decreases i
  {
    assert HasParent(g, root, 1, lines, i);
    assert lines[i] in lines && lines[i].node.identity in LineIds(lines);
    if lines[i].depth == 1 {
      var path := [lines[i].node];
      assert path[..0] == [] && IsPath(g, root, path);
      assert RankAtEnd(rank, path) == RankAtEnd(rank, path[..0]) + 1;
    } else {
      var j :| IsParent(lines, j, i) && IsCaller(g, lines[j].node.item, lines[i].node);
      LineAtItsRank(g, root, maxDepth, lines, j, rank);
      var up := LinesReach(g, root, maxDepth, lines, j);
      var path := up + [lines[i].node];
      assert path[..|path| - 1] == up && IsPath(g, root, path);
      assert RankAtEnd(rank, path) == RankAtEnd(rank, up) + 1;
    }
  }

  lemma RankedEdge(g: Graph, root: Item, maxDepth: int, lines: seq<OutputLine>, i: nat, j: nat, rank: string -> int)
    requires CallerForest(g, root, maxDepth, 1, lines) && RootIdentity(g, root) !in LineIds(lines)
    requires Ranked(g, root, rank) && i < |lines| && j < |lines|
    requires lines[j].node.identity in CallerIds(g, lines[i].node.item)
    ensures lines[j].depth == lines[i].depth + 1
  {
    LineAtItsRank(g, root, maxDepth, lines, i, rank);
    LineAtItsRank(g, root, maxDepth, lines, j, rank);
    var up, node := OneCallFurther(g, root, maxDepth, lines, i, lines[j].node.identity);
    assert lines[j] in lines && lines[j].node.identity in LineIds(lines);
    assert (up + [node])[..|up + [node]| - 1] == up;
    assert RankAtEnd(rank, up + [node]) == RankAtEnd(rank, up) + 1;
  }

  /** In a ranked call graph no walk misses anything within its bound, and every line stands at its distance. */
  lemma RankedMissesNothing(g: Graph, root: Item, maxDepth: int, rank: string -> int)
    requires WellFormed(g) && Faithful(g, root) && Ranked(g, root, rank)
    requires maxDepth >= 0 && CallerWalk(g, root, maxDepth).Walked?
    ensures var lines := CallerWalk(g, root, maxDepth).lines;
            && NothingMissed(g, root, maxDepth, lines)
            && forall i :: 0 <= i < |lines| ==> lines[i].depth == rank(lines[i].node.identity)
  {
    var lines := CallerWalk(g, root, maxDepth).lines;
    CallerTreeSound(g, root, maxDepth);
    forall i | 0 <= i < |lines| ensures lines[i].depth == rank(lines[i].node.identity) {
      LineAtItsRank(g, root, maxDepth, lines, i, rank);
    }
    forall i, j | 0 <= i < |lines| && 0 <= j < |lines| && lines[j].node.identity in CallerIds(g, lines[i].node.item)
      ensures lines[j].depth <= lines[i].depth + 1
    {
      RankedEdge(g, root, maxDepth, lines, i, j, rank);
    }
    NothingMissedIff(g, root, maxDepth);
  }

  // --- the two counterexamples ---

  predicate AllDiffer(r: string, a: string, b: string, c: string, x: string) {
    a != b && a != c && b != c && x !in {a, b, c} && r !in {a, b, c, x}
  }

  /** The call graph of the two counterexamples: a and b call root, c calls a, and x calls both b and c. */
  ghost predicate DeepBranchExample(g: Graph, root: Item, a: HierarchyNode, b: HierarchyNode, c: HierarchyNode,
                                    x: HierarchyNode) {
    && AllDiffer(RootIdentity(g, root), a.identity, b.identity, c.identity, x.identity)
    && CallersOf(g, root) == Some([a, b]) && CallersOf(g, a.item) == Some([c])
    && CallersOf(g, b.item) == Some([x]) && CallersOf(g, c.item) == Some([x])
  }

  lemma DeepBranchWalk(g: Graph, root: Item, maxDepth: int, a: HierarchyNode, b: HierarchyNode, c: HierarchyNode,
                       x: HierarchyNode)
    requires DeepBranchExample(g, root, a, b, c, x)
    requires maxDepth == 3 || (maxDepth > 3 && CallersOf(g, x.item) == Some([]))
    ensures var r := CallerWalk(g, root, maxDepth);
            && r.Walked?
            && r.lines == [OutputLine(1, a), OutputLine(2, c), OutputLine(3, x), OutputLine(1, b)]
  {
    var s0 := {RootIdentity(g, root)};
    var s1 := s0 + {a.identity, b.identity};
    var s3 := s1 + {c.identity} + {x.identity};
    var below := [OutputLine(2, c)] + [OutputLine(3, x)];
    DeepBranchBelowA(g, root, maxDepth, a, b, c, x, s1);
    assert forall n :: n in [x] ==> n.identity in s3;
    NothingNew(g, b.item, maxDepth, 2, s3);
    TwoNodeLevel(g, root, a, b, maxDepth, s0, s1, below);
    FourLines(OutputLine(1, a), OutputLine(2, c), OutputLine(3, x), OutputLine(1, b));
  }

  lemma FourLines(p: OutputLine, q: OutputLine, r: OutputLine, t: OutputLine)
    ensures [p] + ([q] + [r]) + [t] == [p, q, r, t]
  {
  }

  lemma DeepBranchBelowA(g: Graph, root: Item, maxDepth: int, a: HierarchyNode, b: HierarchyNode, c: HierarchyNode,
                         x: HierarchyNode, seen: set<string>)
    requires DeepBranchExample(g, root, a, b, c, x)
    requires maxDepth == 3 || (maxDepth > 3 && CallersOf(g, x.item) == Some([]))
    requires c.identity !in seen && x.identity !in seen
    ensures Walk(g, a.item, maxDepth, 2, seen)
            == Walked(seen + {c.identity} + {x.identity}, [OutputLine(2, c)] + [OutputLine(3, x)])
  {
    NothingNew(g, x.item, maxDepth, 4, seen + {c.identity} + {x.identity});
    OneNodeLevel(g, c.item, x, maxDepth, 3, seen + {c.identity}, []);
    assert [OutputLine(3, x)] + [] == [OutputLine(3, x)];
    OneNodeLevel(g, a.item, c, maxDepth, 2, seen, [OutputLine(3, x)]);
  }

  /** An item whose callers are all seen, or which is too deep, adds nothing. */
  lemma NothingNew(g: Graph, item: Item, maxDepth: int, depth: int, seen: set<string>)
    requires depth <= maxDepth + 1
    requires depth == maxDepth + 1
             || (CallersOf(g, item).Some? && forall n :: n in CallersOf(g, item).value ==> n.identity in seen)
    ensures Walk(g, item, maxDepth, depth, seen) == Walked(seen, [])
  {
    if depth <= maxDepth {
      var level := Unseen(CallersOf(g, item).value, seen);
      HeadIsMember(level);
      assert seen + Identities([]) == seen;
    }
  }

  lemma TwoNodeLevel(g: Graph, root: Item, a: HierarchyNode, b: HierarchyNode, maxDepth: int, seen: set<string>,
                     reserved: set<string>, below: seq<OutputLine>)
    requires 1 <= maxDepth && CallersOf(g, root) == Some([a, b])
    requires a.identity !in seen && b.identity !in seen && reserved == seen + {a.identity, b.identity}
    requires var w := Walk(g, a.item, maxDepth, 2, reserved);
             w.Walked? && w.lines == below && Walk(g, b.item, maxDepth, 2, w.seen) == Walked(w.seen, [])
    ensures var r := Walk(g, root, maxDepth, 1, seen);
            r.Walked? && r.lines == [OutputLine(1, a)] + below + [OutputLine(1, b)]
  {
    var w := Walk(g, a.item, maxDepth, 2, reserved);
    assert [a, b][1..] == [b] && [b][1..] == [];
    assert Unseen([b], seen) == [b] + Unseen([], seen);
    assert Unseen([a, b], seen) == [a] + Unseen([b], seen) == [a, b];
    assert seen + Identities([a, b]) == reserved;
    assert Descend(g, [], maxDepth, 1, w.seen) == Walked(w.seen, []);
    assert Descend(g, [b], maxDepth, 1, w.seen) == Walked(w.seen, [OutputLine(1, b)] + [] + []);
    assert [OutputLine(1, b)] + [] + [] == [OutputLine(1, b)];
  }

  /** An item with one new caller lists that caller and what is below it. */
  lemma OneNodeLevel(g: Graph, item: Item, node: HierarchyNode, maxDepth: int, depth: int, seen: set<string>,
                     below: seq<OutputLine>)
    requires depth <= maxDepth && CallersOf(g, item) == Some([node]) && node.identity !in seen
    requires var w := Walk(g, node.item, maxDepth, depth + 1, seen + {node.identity}); w.Walked? && w.lines == below
    ensures Walk(g, item, maxDepth, depth, seen)
            == Walked(Walk(g, node.item, maxDepth, depth + 1, seen + {node.identity}).seen,
                      [OutputLine(depth, node)] + below)
  {
    assert [node][1..] == [];
    assert Unseen([node], seen) == [node] + Unseen([], seen) == [node];
    assert seen + Identities([node]) == seen + {node.identity};
    var w := Walk(g, node.item, maxDepth, depth + 1, seen + {node.identity});
    assert Descend(g, [], maxDepth, depth, w.seen) == Walked(w.seen, []);
    assert [OutputLine(depth, node)] + below + [] == [OutputLine(depth, node)] + below;
  }

  /**
   The shallowest occurrence does not always win: the branch below a is walked
   first and lists x at depth 3, although b, at depth 1, is directly called by it.
   */
  lemma DeepBranchClaimsFirst(g: Graph, root: Item, maxDepth: int, a: HierarchyNode, b: HierarchyNode, c: HierarchyNode,
                              x: HierarchyNode)
    requires DeepBranchExample(g, root, a, b, c, x) && maxDepth > 3 && CallersOf(g, x.item) == Some([])
    ensures CallerWalk(g, root, maxDepth).Walked?
    ensures CallerWalk(g, root, maxDepth).lines
            == [OutputLine(1, a), OutputLine(2, c), OutputLine(3, x), OutputLine(1, b)]
    ensures ReachesIn(g, root, x.identity, 2)
  {
    DeepBranchWalk(g, root, maxDepth, a, b, c, x);
    assert x in [x] && b in [a, b];
    ReachesInTwo(g, root, b, x);
  }

  /** Nor is the tree complete up to its bound: y is three calls from the root and a walk of depth 3 misses it. */
  lemma BoundedTreeMissesCaller(g: Graph, root: Item, a: HierarchyNode, b: HierarchyNode, c: HierarchyNode,
                                x: HierarchyNode, y: HierarchyNode)
    requires DeepBranchExample(g, root, a, b, c, x) && CallersOf(g, x.item) == Some([y])
    requires y.identity !in {a.identity, b.identity, c.identity, x.identity}
    ensures CallerWalk(g, root, 3).Walked?
    ensures y.identity !in LineIds(CallerWalk(g, root, 3).lines) && ReachesIn(g, root, y.identity, 3)
  {
    DeepBranchWalk(g, root, 3, a, b, c, x);
    assert x in [x] && b in [a, b] && y in [y];
    ReachesInTwo(g, b.item, x, y);
    ReachesThrough(g, root, b, y.identity, 2);
  }

  lemma ReachesInTwo(g: Graph, root: Item, b: HierarchyNode, x: HierarchyNode)
    requires IsCaller(g, root, b) && IsCaller(g, b.item, x)
    ensures ReachesIn(g, root, x.identity, 2)
  {
    CallerReaches(g, b.item, x);
    ReachesThrough(g, root, b, x.identity, 1);
  }

  // --- the same on a language server ---

  /** A file with functions of one name, each on a line of its own. */
  const ONE_FILE: Workspace := Workspace(uri => Some(uri), path => false, path => path)

  function FunctionAt(line: int): Item {
    Item("f", line, 0, 0, 0, "f", "")
  }

  /** The lines of the functions of the two counterexamples. */
  datatype Places = Places(r: nat, a: nat, b: nat, c: nat, x: nat)

  predicate Apart(p: Places) {
    p.r < p.a < p.b < p.c < p.x
  }

  /** a and b call r, c calls a, x calls b and c, and the calls of x are given. */
  function CallsAt(p: Places, ofX: seq<Item>, line: int): seq<Item> {
    if line == p.r then [FunctionAt(p.a), FunctionAt(p.b)]
    else if line == p.a then [FunctionAt(p.c)]
    else if line == p.b || line == p.c then [FunctionAt(p.x)]
    else if line == p.x then ofX
    else []
  }

  function DeepBranchServer(p: Places, ofX: seq<Item>): Item -> Option<seq<Item>> {
    (item: Item) => Some(CallsAt(p, ofX, item.selectionLine))
  }

  /** The nodes of these functions: they belong to them, and no two share an identity. */
  ghost predicate NodesOf(node: nat -> HierarchyNode) {
    && (forall line: nat :: NodeFor(ONE_FILE, FunctionAt(line)) == Known(node(line)))
    && forall i: nat, j: nat :: i != j ==> node(i).identity != node(j).identity
  }

  /** The node of the function on each line. */
  const NODE_AT: nat -> HierarchyNode :=
    (line: nat) => HierarchyNode(FunctionAt(line), "f", "f", line + 1, 0, Identity("f", line, 0, "f"))

  lemma ServerNodes()
    ensures NodesOf(NODE_AT)
  {
    forall i: nat, j: nat | i != j ensures NODE_AT(i).identity != NODE_AT(j).identity {
      LinesDiffer(i, j);
    }
  }

  lemma LinesDiffer(i: nat, j: nat)
    requires i != j
    ensures Identity("f", i, 0, "f") != Identity("f", j, 0, "f")
  {
    LineInIdentity(i);
    LineInIdentity(j);
    if Identity("f", i, 0, "f") == Identity("f", j, 0, "f") {
      DecimalInjective(i, j);
    }
  }

  /** The line can be read off the identity: it stands between two colons. */
  lemma LineInIdentity(line: nat)
    ensures var rest := Identity("f", line, 0, "f")[2..]; Decimal(line) == rest[..IndexOf(rest, ':')]
  {
    var tail := Decimal(0) + ":" + "f";
    var rest := Decimal(line) + [':'] + tail;
    var id := Identity("f", line, 0, "f");
    assert id == "f" + ":" + Decimal(line) + ":" + Decimal(0) + ":" + "f";
    assert id == "f:" + rest;
    assert id[2..] == rest;
    IndexOfAppend(Decimal(line), ':', tail);
    assert rest[..|Decimal(line)|] == Decimal(line);
  }

  /** A single call from an item that is known gives its node. */
  lemma FirstOfOne(ws: Workspace, item: Item, node: HierarchyNode, seen: set<string>)
    requires NodeFor(ws, item) == Known(node) && node.identity !in seen
    ensures FirstPerIdentity(ws, [item], seen) == Some([node])
  {
    assert [item][1..] == [];
    assert [node] + [] == [node];
  }

  lemma OneIncoming(ws: Workspace, item: Item, node: HierarchyNode)
    requires NodeFor(ws, item) == Known(node)
    ensures IncomingNodesOf(ws, [item]) == Some([node])
  {
    FirstOfOne(ws, item, node, {});
    assert [node][1..] == [] && Sort([], NodeLe) == [];
  }

  lemma TwoIncoming(ws: Workspace, item: Item, node: HierarchyNode, item': Item, node': HierarchyNode)
    requires NodeFor(ws, item) == Known(node) && NodeFor(ws, item') == Known(node')
    requires node.identity != node'.identity && NodeLe(node, node')
    ensures IncomingNodesOf(ws, [item, item']) == Some([node, node'])
  {
    FirstOfOne(ws, item', node', {node.identity});
    assert [item, item'][1..] == [item'];
    assert {} + {node.identity} == {node.identity};
    assert [node] + [node'] == [node, node'];
    assert [node, node'][1..] == [node'] && [node'][1..] == [];
    assert Sort([node'], NodeLe) == [node'];
  }

  /** What the walk sees of the server: the calls as nodes. */
  ghost predicate Serves(g: Graph, p: Places, ofX: seq<Item>, node: nat -> HierarchyNode) {
    && RootIdentity(g, FunctionAt(p.r)) == node(p.r).identity
    && CallersOf(g, FunctionAt(p.r)) == Some([node(p.a), node(p.b)])
    && CallersOf(g, FunctionAt(p.a)) == Some([node(p.c)])
    && CallersOf(g, FunctionAt(p.b)) == Some([node(p.x)])
    && CallersOf(g, FunctionAt(p.c)) == Some([node(p.x)])
    && (ofX == [] ==> CallersOf(g, FunctionAt(p.x)) == Some([]))
    && forall y: nat :: ofX == [FunctionAt(y)] ==> CallersOf(g, FunctionAt(p.x)) == Some([node(y)])
  }

  lemma OneCallerAt(p: Places, ofX: seq<Item>, line: nat, caller: nat, node: nat -> HierarchyNode)
    requires NodesOf(node) && CallsAt(p, ofX, line) == [FunctionAt(caller)]
    ensures CallersOf(ServerGraph(ONE_FILE, DeepBranchServer(p, ofX)), FunctionAt(line)) == Some([node(caller)])
  {
    assert NodeFor(ONE_FILE, FunctionAt(caller)) == Known(node(caller));
    OneIncoming(ONE_FILE, FunctionAt(caller), node(caller));
  }

  lemma RootAt(p: Places, ofX: seq<Item>, node: nat -> HierarchyNode)
    requires NodesOf(node) && Apart(p)
    ensures var g := ServerGraph(ONE_FILE, DeepBranchServer(p, ofX));
            && CallersOf(g, FunctionAt(p.r)) == Some([node(p.a), node(p.b)])
            && RootIdentity(g, FunctionAt(p.r)) == node(p.r).identity
  {
    assert NodeFor(ONE_FILE, FunctionAt(p.r)) == Known(node(p.r));
    assert NodeFor(ONE_FILE, FunctionAt(p.a)) == Known(node(p.a))
           && NodeFor(ONE_FILE, FunctionAt(p.b)) == Known(node(p.b));
    assert node(p.a).identity != node(p.b).identity;
    TwoIncoming(ONE_FILE, FunctionAt(p.a), node(p.a), FunctionAt(p.b), node(p.b));
  }

  lemma NoIncoming(ws: Workspace)
    ensures IncomingNodesOf(ws, []) == Some([])
  {
    assert Sort([], NodeLe) == [];
  }

  lemma ServerServes(p: Places, ofX: seq<Item>, node: nat -> HierarchyNode)
    requires NodesOf(node) && Apart(p)
    ensures Serves(ServerGraph(ONE_FILE, DeepBranchServer(p, ofX)), p, ofX, node)
  {
    RootAt(p, ofX, node);
    OneCallerAt(p, ofX, p.a, p.c, node);
    OneCallerAt(p, ofX, p.b, p.x, node);
    OneCallerAt(p, ofX, p.c, p.x, node);
    NoIncoming(ONE_FILE);
    forall y: nat | ofX == [FunctionAt(y)]
      ensures CallersOf(ServerGraph(ONE_FILE, DeepBranchServer(p, ofX)), FunctionAt(p.x)) == Some([node(y)])
    {
      OneCallerAt(p, ofX, p.x, y, node);
    }
  }

  lemma ItemAt(node: nat -> HierarchyNode, line: nat)
    requires NodesOf(node)
    ensures node(line).item == FunctionAt(line)
  {
    assert NodeFor(ONE_FILE, FunctionAt(line)) == Known(node(line));
  }

  lemma ServerIsDeepBranch(g: Graph, p: Places, ofX: seq<Item>, node: nat -> HierarchyNode)
    requires Apart(p) && Serves(g, p, ofX, node) && NodesOf(node)
    ensures DeepBranchExample(g, FunctionAt(p.r), node(p.a), node(p.b), node(p.c), node(p.x))
    ensures node(p.x).item == FunctionAt(p.x)
  {
    ItemAt(node, p.a);
    ItemAt(node, p.b);
    ItemAt(node, p.c);
    ItemAt(node, p.x);
  }

  /** A server on which the shallowest occurrence does not win: x is listed at depth 3, two calls from the root. */
  lemma DeepBranchOnAServer(p: Places, maxDepth: int)
    requires Apart(p) && maxDepth > 3
    ensures var g := ServerGraph(ONE_FILE, DeepBranchServer(p, []));
            var r := CallerWalk(g, FunctionAt(p.r), maxDepth);
            && r.Walked? && r.lines == [OutputLine(1, NODE_AT(p.a)), OutputLine(2, NODE_AT(p.c)),
                                        OutputLine(3, NODE_AT(p.x)), OutputLine(1, NODE_AT(p.b))]
            && ReachesIn(g, FunctionAt(p.r), NODE_AT(p.x).identity, 2)
  {
    ServerNodes();
    ServerServes(p, [], NODE_AT);
    DeepBranchAt(ServerGraph(ONE_FILE, DeepBranchServer(p, [])), p, maxDepth, NODE_AT);
  }

  lemma DeepBranchAt(g: Graph, p: Places, maxDepth: int, node: nat -> HierarchyNode)
    requires Apart(p) && maxDepth > 3 && Serves(g, p, [], node) && NodesOf(node)
    ensures var r := CallerWalk(g, FunctionAt(p.r), maxDepth);
            && r.Walked? && r.lines == [OutputLine(1, node(p.a)), OutputLine(2, node(p.c)),
                                        OutputLine(3, node(p.x)), OutputLine(1, node(p.b))]
            && ReachesIn(g, FunctionAt(p.r), node(p.x).identity, 2)
  {
    ServerIsDeepBranch(g, p, [], node);
    DeepBranchClaimsFirst(g, FunctionAt(p.r), maxDepth, node(p.a), node(p.b), node(p.c), node(p.x));
  }

  /** A server on which a walk of depth 3 misses y, which is three calls from the root. */
  lemma BoundedWalkOnAServer(p: Places, y: nat)
    requires Apart(p) && p.x < y
    ensures var g := ServerGraph(ONE_FILE, DeepBranchServer(p, [FunctionAt(y)]));
            && CallerWalk(g, FunctionAt(p.r), 3).Walked?
            && NODE_AT(y).identity !in LineIds(CallerWalk(g, FunctionAt(p.r), 3).lines)
            && ReachesIn(g, FunctionAt(p.r), NODE_AT(y).identity, 3)
  {
    ServerNodes();
    ServerServes(p, [FunctionAt(y)], NODE_AT);
    BoundedWalkAt(ServerGraph(ONE_FILE, DeepBranchServer(p, [FunctionAt(y)])), p, y, NODE_AT);
  }

  lemma BoundedWalkAt(g: Graph, p: Places, y: nat, node: nat -> HierarchyNode)
    requires Apart(p) && p.x < y && Serves(g, p, [FunctionAt(y)], node) && NodesOf(node)
    ensures CallerWalk(g, FunctionAt(p.r), 3).Walked?
    ensures node(y).identity !in LineIds(CallerWalk(g, FunctionAt(p.r), 3).lines)
    ensures ReachesIn(g, FunctionAt(p.r), node(y).identity, 3)
  {
    ServerIsDeepBranch(g, p, [FunctionAt(y)], node);
    BoundedTreeMissesCaller(g, FunctionAt(p.r), node(p.a), node(p.b), node(p.c), node(p.x), node(y));
  }
}
