/**
 The caller tree (pkg/lsp/callers.go): a depth-bounded depth-first walk over
 incoming calls, in which every caller is listed once and all callers found at
 one call are reserved before any of them is followed.
 */
module Callers {
  import opened Wrappers
  import opened Sequences
  import opened Text
  import opened Order

  /** A call hierarchy item as the language server describes it. */
  datatype Item = Item(uri: string, selectionLine: int, selectionCharacter: int, rangeLine: int, rangeCharacter: int,
                       name: string, data: string)

  /** How the engine reads URIs and which paths it ignores. */
  datatype Workspace = Workspace(pathOf: string -> Option<string>, ignored: string -> bool, relative: string -> string)

  datatype HierarchyNode = HierarchyNode(item: Item, name: string, path: string, line: int, character: int,
                                         identity: string)

  datatype NodeResult = BadURI | Ignored | Known(node: HierarchyNode)

  function Position(item: Item): (int, int) {
    var line := if item.selectionLine < 0 then item.rangeLine else item.selectionLine;
    var character := if item.selectionLine < 0 then item.rangeCharacter else item.selectionCharacter;
    (if line < 0 then 0 else line, if character < 0 then 0 else character)
  }

  function Identity(path: string, line: int, character: int, name: string): (id: string)
    ensures id != ""
  {
    path + ":" + Decimal(line) + ":" + Decimal(character) + ":" + name
  }

  function NodeFor(ws: Workspace, item: Item): NodeResult {
    match ws.pathOf(item.uri)
    case None => BadURI
    case Some(path) =>
      if ws.ignored(path) then Ignored
      else
        var (line, character) := Position(item);
        var relative := ws.relative(path);
        Known(HierarchyNode(item, item.name, relative, line + 1, character,
                            Identity(relative, line, character, item.name)))
  }

  predicate NodeLe(a: HierarchyNode, b: HierarchyNode) {
    if a.path != b.path then StringLe(a.path, b.path)
    else if a.line != b.line then a.line < b.line
    else if a.character != b.character then a.character < b.character
    else StringLe(a.name, b.name)
  }

  // --- incomingNodes ---

  /** The first node of every identity not seen before; a bad URI spoils the list. */
  function FirstPerIdentity(ws: Workspace, calls: seq<Item>, seen: set<string>): Option<seq<HierarchyNode>> {
    if calls == [] then Some([])
    else
      match NodeFor(ws, calls[0])
      case BadURI => None
      case Ignored => FirstPerIdentity(ws, calls[1..], seen)
      case Known(node) =>
        if node.identity in seen then FirstPerIdentity(ws, calls[1..], seen)
        else
          match FirstPerIdentity(ws, calls[1..], seen + {node.identity})
          case None => None
          case Some(rest) => Some([node] + rest)
  }

  function IncomingNodesOf(ws: Workspace, calls: seq<Item>): Option<seq<HierarchyNode>> {
    match FirstPerIdentity(ws, calls, {})
    case None => None
    case Some(nodes) => Some(Sort(nodes, NodeLe))
  }

  function Prepended(nodes: seq<HierarchyNode>, rest: Option<seq<HierarchyNode>>): Option<seq<HierarchyNode>> {
    match rest
    case None => None
    case Some(more) => Some(nodes + more)
  }

  method IncomingNodes(ws: Workspace, incoming: seq<Item>) returns (r: Option<seq<HierarchyNode>>)
    ensures r == IncomingNodesOf(ws, incoming)
    ensures r.None? <==> SomeBadURI(ws, incoming)
    ensures r.Some? ==> IsListOf(ws, incoming, r.value)
  {
    var nodes := [];
    var seen := {};
    IncomingNodesExactly(ws, incoming);
    PrependedNothing(FirstPerIdentity(ws, incoming, {}));
    assert incoming[0..] == incoming;
    for i := 0 to |incoming|
      invariant FirstPerIdentity(ws, incoming, {}) == Prepended(nodes, FirstPerIdentity(ws, incoming[i..], seen))
    {
      FirstPerIdentityStep(ws, incoming, i, seen, nodes);
      match NodeFor(ws, incoming[i]) {
        case BadURI => return None;
        case Ignored =>
        case Known(node) =>
          if node.identity !in seen {
            seen := seen + {node.identity};
            nodes := nodes + [node];
          }
      }
    }
    assert nodes + [] == nodes;
    r := Some(Sort(nodes, NodeLe));
  }

  lemma PrependedNothing(rest: Option<seq<HierarchyNode>>)
    ensures Prepended([], rest) == rest
  {
    if rest.Some? {
      assert [] + rest.value == rest.value;
    }
  }

  lemma FirstPerIdentityStep(ws: Workspace, calls: seq<Item>, i: nat, seen: set<string>, nodes: seq<HierarchyNode>)
    requires i < |calls|
    ensures Prepended(nodes, FirstPerIdentity(ws, calls[i..], seen)) ==
            match NodeFor(ws, calls[i])
            case BadURI => None
            case Ignored => Prepended(nodes, FirstPerIdentity(ws, calls[i + 1..], seen))
            case Known(node) =>
              if node.identity in seen then Prepended(nodes, FirstPerIdentity(ws, calls[i + 1..], seen))
              else Prepended(nodes + [node], FirstPerIdentity(ws, calls[i + 1..], seen + {node.identity}))
  {
    assert calls[i..][1..] == calls[i + 1..] && calls[i..][0] == calls[i];
    if NodeFor(ws, calls[i]).Known? && NodeFor(ws, calls[i]).node.identity !in seen {
      var node := NodeFor(ws, calls[i]).node;
      var rest := FirstPerIdentity(ws, calls[i + 1..], seen + {node.identity});
      if rest.Some? {
        ConcatAssociates(nodes, [node], rest.value);
      }
    }
  }

  ghost predicate DistinctIdentities(nodes: seq<HierarchyNode>) {
    forall i, j :: 0 <= i < j < |nodes| ==> nodes[i].identity != nodes[j].identity
  }

  function Identities(nodes: seq<HierarchyNode>): (ids: set<string>) {
    set n | n in nodes :: n.identity
  }

  lemma {:induction false} FirstPerIdentityNodes(ws: Workspace, calls: seq<Item>, seen: set<string>)
    ensures match FirstPerIdentity(ws, calls, seen)
            case None => true
            case Some(nodes) =>
              && DistinctIdentities(nodes)
              && (forall n :: n in nodes ==> NodeFor(ws, n.item) == Known(n) && n.identity !in seen && n.identity != "")
  {
    if calls != [] {
      match NodeFor(ws, calls[0]) {
        case BadURI =>
        case Ignored => FirstPerIdentityNodes(ws, calls[1..], seen);
        case Known(node) =>
          FirstPerIdentityNodes(ws, calls[1..], seen);
          FirstPerIdentityNodes(ws, calls[1..], seen + {node.identity});
      }
    }
  }

  lemma SortKeepsDistinctIdentities(nodes: seq<HierarchyNode>)
    requires DistinctIdentities(nodes)
    ensures DistinctIdentities(Sort(nodes, NodeLe))
  {
    var sorted := Sort(nodes, NodeLe);
    SortMembers(nodes, NodeLe);
    assert NoDuplicates(nodes);
    SortNoDuplicates(nodes, NodeLe);
    forall i, j | 0 <= i < j < |sorted| ensures sorted[i].identity != sorted[j].identity {
      assert sorted[i] in sorted && sorted[j] in sorted;
      var a :| 0 <= a < |nodes| && nodes[a] == sorted[i];
      var b :| 0 <= b < |nodes| && nodes[b] == sorted[j];
    }
  }

  // --- one answer of the server ---

  predicate IsKnown(ws: Workspace, item: Item, id: string) {
    NodeFor(ws, item).Known? && NodeFor(ws, item).node.identity == id
  }

  /** The node is that of the i-th item, and no item before it has this identity. */
  ghost predicate IsFirstOf(ws: Workspace, calls: seq<Item>, node: HierarchyNode, i: int) {
    && 0 <= i < |calls| && NodeFor(ws, calls[i]) == Known(node)
    && forall j :: 0 <= j < i ==> !IsKnown(ws, calls[j], node.identity)
  }

  ghost predicate SomeBadURI(ws: Workspace, calls: seq<Item>) {
    exists i :: 0 <= i < |calls| && NodeFor(ws, calls[i]).BadURI?
  }

  /** What FirstPerIdentity makes of a list of calls, said of the calls alone. */
  ghost predicate KeepsFirsts(ws: Workspace, calls: seq<Item>, seen: set<string>, nodes: seq<HierarchyNode>) {
    && (forall i :: 0 <= i < |calls| && NodeFor(ws, calls[i]).Known? && NodeFor(ws, calls[i]).node.identity !in seen ==>
          NodeFor(ws, calls[i]).node.identity in Identities(nodes))
    && (forall n :: n in nodes ==> n.identity !in seen && exists i :: IsFirstOf(ws, calls, n, i))
  }

  lemma {:induction false} FirstsAreKept(ws: Workspace, calls: seq<Item>, seen: set<string>)
    ensures FirstPerIdentity(ws, calls, seen).None? <==> SomeBadURI(ws, calls)
    ensures FirstPerIdentity(ws, calls, seen).Some? ==>
              KeepsFirsts(ws, calls, seen, FirstPerIdentity(ws, calls, seen).value)
  {
    if calls != [] {
      assert calls == [calls[0]] + calls[1..];
      BadInTail(ws, calls);
      match NodeFor(ws, calls[0]) {
        case BadURI =>
        case Ignored =>
          FirstsAreKept(ws, calls[1..], seen);
          if FirstPerIdentity(ws, calls[1..], seen).Some? {
            KeptPast(ws, calls, seen, FirstPerIdentity(ws, calls[1..], seen).value);
          }
        case Known(node) =>
          if node.identity in seen {
            FirstsAreKept(ws, calls[1..], seen);
            if FirstPerIdentity(ws, calls[1..], seen).Some? {
              KeptPast(ws, calls, seen, FirstPerIdentity(ws, calls[1..], seen).value);
            }
          } else {
            FirstsAreKept(ws, calls[1..], seen + {node.identity});
            if FirstPerIdentity(ws, calls[1..], seen + {node.identity}).Some? {
              KeptFirst(ws, calls, seen, node, FirstPerIdentity(ws, calls[1..], seen + {node.identity}).value);
            }
          }
      }
    }
  }

  lemma BadInTail(ws: Workspace, calls: seq<Item>)
    requires calls != []
    ensures SomeBadURI(ws, calls) <==> NodeFor(ws, calls[0]).BadURI? || SomeBadURI(ws, calls[1..])
  {
    if SomeBadURI(ws, calls) {
      var i :| 0 <= i < |calls| && NodeFor(ws, calls[i]).BadURI?;
      assert i > 0 ==> calls[1..][i - 1] == calls[i];
    }
    if SomeBadURI(ws, calls[1..]) {
      var i :| 0 <= i < |calls[1..]| && NodeFor(ws, calls[1..][i]).BadURI?;
      assert calls[1..][i] == calls[i + 1];
    }
  }

  /** The first call adds no node: it is ignored, or its identity was seen before. */
  lemma KeptPast(ws: Workspace, calls: seq<Item>, seen: set<string>, nodes: seq<HierarchyNode>)
    requires calls != [] && KeepsFirsts(ws, calls[1..], seen, nodes)
    requires NodeFor(ws, calls[0]).Known? ==> NodeFor(ws, calls[0]).node.identity in seen
    ensures KeepsFirsts(ws, calls, seen, nodes)
  {
    forall i | 0 <= i < |calls| && NodeFor(ws, calls[i]).Known? && NodeFor(ws, calls[i]).node.identity !in seen
      ensures NodeFor(ws, calls[i]).node.identity in Identities(nodes)
    {
      assert calls[1..][i - 1] == calls[i];
    }
    forall n | n in nodes ensures exists i :: IsFirstOf(ws, calls, n, i) {
      var i :| IsFirstOf(ws, calls[1..], n, i);
      FirstMovesOn(ws, calls, n, i);
    }
  }

  /** The first call adds its node. */
  lemma KeptFirst(ws: Workspace, calls: seq<Item>, seen: set<string>, node: HierarchyNode, rest: seq<HierarchyNode>)
    requires calls != [] && NodeFor(ws, calls[0]) == Known(node) && node.identity !in seen
    requires KeepsFirsts(ws, calls[1..], seen + {node.identity}, rest)
    ensures KeepsFirsts(ws, calls, seen, [node] + rest)
  {
    var nodes := [node] + rest;
    assert node in nodes && forall n :: n in rest ==> n in nodes;
    forall i | 0 <= i < |calls| && NodeFor(ws, calls[i]).Known? && NodeFor(ws, calls[i]).node.identity !in seen
      ensures NodeFor(ws, calls[i]).node.identity in Identities(nodes)
    {
      if NodeFor(ws, calls[i]).node.identity != node.identity {
        assert calls[1..][i - 1] == calls[i];
      }
    }
    forall n | n in nodes ensures n.identity !in seen && exists i :: IsFirstOf(ws, calls, n, i) {
      if n == node {
        assert IsFirstOf(ws, calls, n, 0);
      } else {
        var i :| IsFirstOf(ws, calls[1..], n, i);
        FirstMovesOn(ws, calls, n, i);
      }
    }
  }

  lemma FirstMovesOn(ws: Workspace, calls: seq<Item>, node: HierarchyNode, i: int)
    requires calls != [] && IsFirstOf(ws, calls[1..], node, i) && !IsKnown(ws, calls[0], node.identity)
    ensures IsFirstOf(ws, calls, node, i + 1)
  {
    forall j | 0 <= j < i + 1 ensures !IsKnown(ws, calls[j], node.identity) {
      if j > 0 {
        assert calls[1..][j - 1] == calls[j];
      }
    }
  }

  lemma NodeLeTotalPreorder()
    ensures TotalPreorder(NodeLe)
  {
    StringLeTotalOrder();
    forall a, b, c | NodeLe(a, b) && NodeLe(b, c) ensures NodeLe(a, c) {
      assert StringLe(a.path, b.path) && StringLe(b.path, c.path);
    }
  }

  /** Earlier in the output: by path, then line, then character, then name. */
  predicate ListedBefore(a: HierarchyNode, b: HierarchyNode) {
    || (a.path != b.path && StringLe(a.path, b.path))
    || (a.path == b.path && a.line < b.line)
    || (a.path == b.path && a.line == b.line && a.character < b.character)
    || (a.path == b.path && a.line == b.line && a.character == b.character && StringLe(a.name, b.name))
  }

  /** Every caller that is not ignored, as the first item there is for it, once, and in order. */
  ghost predicate IsListOf(ws: Workspace, calls: seq<Item>, nodes: seq<HierarchyNode>) {
    && (forall i :: 0 <= i < |calls| && NodeFor(ws, calls[i]).Known? ==>
          NodeFor(ws, calls[i]).node.identity in Identities(nodes))
    && (forall n :: n in nodes ==> exists i :: IsFirstOf(ws, calls, n, i))
    && DistinctIdentities(nodes)
    && (forall i, j :: 0 <= i < j < |nodes| ==> ListedBefore(nodes[i], nodes[j]))
  }

  /**
   One answer of the server: it fails exactly on a URI that cannot be read, and
   else every caller it reports and that is not ignored is in the list.
   */
  lemma IncomingNodesExactly(ws: Workspace, calls: seq<Item>)
    ensures IncomingNodesOf(ws, calls).None? <==> SomeBadURI(ws, calls)
    ensures IncomingNodesOf(ws, calls).Some? ==> IsListOf(ws, calls, IncomingNodesOf(ws, calls).value)
  {
    FirstsAreKept(ws, calls, {});
    FirstPerIdentityNodes(ws, calls, {});
    if FirstPerIdentity(ws, calls, {}).Some? {
      var first := FirstPerIdentity(ws, calls, {}).value;
      var nodes := Sort(first, NodeLe);
      SortMembers(first, NodeLe);
      SortKeepsDistinctIdentities(first);
      NodeLeTotalPreorder();
      SortSorted(first, NodeLe);
      assert Identities(nodes) == Identities(first);
      forall i, j | 0 <= i < j < |nodes| ensures ListedBefore(nodes[i], nodes[j]) {
        assert NodeLe(nodes[i], nodes[j]);
      }
    }
  }

  // --- the walk ---

  /** What the walk sees of the server: the node of an item, and its callers; None is a failed request. */
  datatype Graph = Graph(nodeFor: Item -> NodeResult, callers: Item -> Option<seq<HierarchyNode>>)

  function CallersOf(g: Graph, item: Item): Option<seq<HierarchyNode>> {
    g.callers(item)
  }

  /** The callers of one item have distinct identities, and each is the node of its own item. */
  ghost predicate WellFormed(g: Graph) {
    forall item :: g.callers(item).Some? ==>
      && DistinctIdentities(g.callers(item).value)
      && forall n :: n in g.callers(item).value ==> IsNode(g, n)
  }

  predicate IsNode(g: Graph, n: HierarchyNode) {
    g.nodeFor(n.item) == Known(n) && n.identity != ""
  }

  /** The graph a language server shows, request by request. */
  function ServerCallers(ws: Workspace, incoming: Item -> Option<seq<Item>>, item: Item): Option<seq<HierarchyNode>> {
    match incoming(item)
    case None => None
    case Some(calls) => IncomingNodesOf(ws, calls)
  }

  function ServerGraph(ws: Workspace, incoming: Item -> Option<seq<Item>>): Graph {
    Graph(item => NodeFor(ws, item), item => ServerCallers(ws, incoming, item))
  }

  lemma ServerGraphWellFormed(ws: Workspace, incoming: Item -> Option<seq<Item>>)
    ensures WellFormed(ServerGraph(ws, incoming))
  {
    var g := ServerGraph(ws, incoming);
    forall item | g.callers(item).Some?
      ensures DistinctIdentities(g.callers(item).value) && forall n :: n in g.callers(item).value ==> IsNode(g, n)
    {
      var first := FirstPerIdentity(ws, incoming(item).value, {}).value;
      FirstPerIdentityNodes(ws, incoming(item).value, {});
      SortMembers(first, NodeLe);
      SortKeepsDistinctIdentities(first);
    }
  }

  datatype OutputLine = OutputLine(depth: int, node: HierarchyNode)

  datatype Walked = Walked(seen: set<string>, lines: seq<OutputLine>) | WalkFailed

  /** The nodes of a level whose identity is new. */
  function Unseen(nodes: seq<HierarchyNode>, seen: set<string>): (r: seq<HierarchyNode>)
    ensures forall n :: n in r <==> n in nodes && n.identity !in seen
  {
    if nodes == [] then []
    else if nodes[0].identity in seen then
      assert nodes == [nodes[0]] + nodes[1..];
      Unseen(nodes[1..], seen)
    else
      assert nodes == [nodes[0]] + nodes[1..];
      [nodes[0]] + Unseen(nodes[1..], seen)
  }

  lemma UnseenStep(nodes: seq<HierarchyNode>, i: nat, seen: set<string>, level: seq<HierarchyNode>)
    requires i < |nodes|
    ensures level + Unseen(nodes[i..], seen) ==
            if nodes[i].identity in seen then level + Unseen(nodes[i + 1..], seen)
              else level + [nodes[i]] + Unseen(nodes[i + 1..], seen)
  {
    assert nodes[i..][1..] == nodes[i + 1..];
  }

  function Walk(g: Graph, item: Item, maxDepth: int, depth: int, seen: set<string>): Walked
    requires depth <= maxDepth + 1
    decreases maxDepth + 1 - depth, 0, 0
  {
    if depth > maxDepth then Walked(seen, [])
    else
      match CallersOf(g, item)
      case None => WalkFailed
      case Some(nodes) =>
        var level := Unseen(nodes, seen);
        Descend(g, level, maxDepth, depth, seen + Identities(level))
  }

  function Descend(g: Graph, level: seq<HierarchyNode>, maxDepth: int, depth: int, seen: set<string>): Walked
    requires depth <= maxDepth
    decreases maxDepth - depth, 1, |level|
  {
    if level == [] then Walked(seen, [])
    else
      match Walk(g, level[0].item, maxDepth, depth + 1, seen)
      case WalkFailed => WalkFailed
      case Walked(seen1, below) =>
        match Descend(g, level[1..], maxDepth, depth, seen1)
        case WalkFailed => WalkFailed
        case Walked(seen2, rest) => Walked(seen2, [OutputLine(depth, level[0])] + below + rest)
  }

  class CallersWalk {
    const ws: Workspace
    const incoming: Item -> Option<seq<Item>>
    ghost const graph: Graph := ServerGraph(ws, incoming)
    var ancestors: set<string>
    var seen: set<string>
    var outputLines: seq<OutputLine>

    constructor (ws: Workspace, incoming: Item -> Option<seq<Item>>, root: string)
      ensures this.ws == ws && this.incoming == incoming
      ensures ancestors == {root} && seen == {root} && outputLines == []
    {
      this.ws := ws;
      this.incoming := incoming;
      ancestors, seen, outputLines := {root}, {root}, [];
    }

    /** Reserves the new callers of one level. */
    method Reserve(nodes: seq<HierarchyNode>) returns (levelNodes: seq<HierarchyNode>)
      requires ancestors <= seen && DistinctIdentities(nodes)
      modifies this`seen
      ensures levelNodes == Unseen(nodes, old(seen))
      ensures seen == old(seen) + Identities(levelNodes)
    {
      levelNodes := [];
      for i := 0 to |nodes|
        invariant levelNodes + Unseen(nodes[i..], old(seen)) == Unseen(nodes, old(seen))
        invariant seen == old(seen) + Identities(levelNodes)
        invariant forall n :: n in levelNodes ==> n in nodes[..i]
      {
        var node := nodes[i];
        UnseenStep(nodes, i, old(seen), levelNodes);
        if node.identity in ancestors {
          continue;
        }
        if node.identity in seen {
          continue;
        }
        seen := seen + {node.identity};
        levelNodes := levelNodes + [node];
      }
    }

    method WalkIncoming(item: Item, maxDepth: int, depth: int) returns (r: Result<nat, ()>)
      requires ancestors <= seen && depth <= maxDepth + 1
      modifies this
      ensures ancestors == old(ancestors) && old(seen) <= seen
      ensures Reports(Walk(graph, item, maxDepth, depth, old(seen)), old(outputLines), r, seen, outputLines)
      decreases maxDepth + 1 - depth, 0
    {
      if depth > maxDepth {
        return Ok(0);
      }
      var calls := incoming(item);
      if calls.None? {
        return Err(());
      }
      var nodes := IncomingNodes(ws, calls.value);
      if nodes.None? {
        return Err(());
      }
      assert DistinctIdentities(nodes.value) by {
        ServerGraphWellFormed(ws, incoming);
        assert graph.callers(item) == nodes;
      }
      var levelNodes := Reserve(nodes.value);
      r := FollowLevel(levelNodes, maxDepth, depth, ancestors);
    }

    /** Lists the nodes of one level, each followed by its own callers. */
    method FollowLevel(levelNodes: seq<HierarchyNode>, maxDepth: int, depth: int, ghost above: set<string>)
      returns (r: Result<nat, ()>)
      requires ancestors == above <= seen && depth <= maxDepth
      requires forall n :: n in levelNodes ==> n.identity in seen && n.identity !in above
      modifies this
      ensures ancestors == above && old(seen) <= seen
      ensures Reports(Descend(graph, levelNodes, maxDepth, depth, old(seen)), old(outputLines), r, seen, outputLines)
      decreases maxDepth - depth, 2
    {
      var count: nat := 0;
      ghost var whole := Descend(graph, levelNodes, maxDepth, depth, old(seen));
      ghost var listed := [];
      ResumesAtStart(whole);
      assert levelNodes[0..] == levelNodes && old(outputLines) + [] == old(outputLines);
      for i := 0 to |levelNodes|
        invariant ancestors == above && old(seen) <= seen
        invariant outputLines == old(outputLines) + listed && count == |listed|
        invariant Resumes(whole, listed, Descend(graph, levelNodes[i..], maxDepth, depth, seen))
      {
        DescendStep(graph, whole, levelNodes, i, maxDepth, depth, seen, listed);
        ghost var below := Walk(graph, levelNodes[i].item, maxDepth, depth + 1, seen);
        var nodeCount := FollowNode(levelNodes[i], maxDepth, depth, above);
        if nodeCount.Err? {
          return Err(());
        }
        count := count + nodeCount.value;
        ghost var added := [OutputLine(depth, levelNodes[i])] + below.lines;
        ConcatAssociates(old(outputLines), listed, added);
        listed := listed + added;
      }
      assert listed + [] == listed;
      r := Ok(count);
    }

    method FollowNode(node: HierarchyNode, maxDepth: int, depth: int,
                      ghost above: set<string>) returns (r: Result<nat, ()>)
      requires ancestors == above <= seen && depth <= maxDepth
      requires node.identity in seen && node.identity !in above
      modifies this
      ensures ancestors == above && old(seen) <= seen
      ensures match Walk(graph, node.item, maxDepth, depth + 1, old(seen))
              case WalkFailed => r.Err?
              case Walked(seen', below) =>
                && r == Ok(1 + |below|) && seen == seen'
                && outputLines == old(outputLines) + ([OutputLine(depth, node)] + below)
      decreases maxDepth - depth, 1
    {
      outputLines := outputLines + [OutputLine(depth, node)];
      assert [OutputLine(depth, node)] + [] == [OutputLine(depth, node)];
      if depth >= maxDepth {
        return Ok(1);
      }
      ancestors := ancestors + {node.identity};
      ghost var below := Walk(graph, node.item, maxDepth, depth + 1, seen);
      var childCount := WalkIncoming(node.item, maxDepth, depth + 1);
      ancestors := ancestors - {node.identity};
      if childCount.Err? {
        return Err(());
      }
      ConcatAssociates(old(outputLines), [OutputLine(depth, node)], below.lines);
      r := Ok(1 + childCount.value);
    }
  }

  /** What a call reports and leaves behind, when the walk it stands for comes to this. */
  ghost predicate Reports(walked: Walked, before: seq<OutputLine>, r: Result<nat, ()>, seen: set<string>,
                          lines: seq<OutputLine>) {
    match walked
    case WalkFailed => r.Err?
    case Walked(seen', listed) => r == Ok(|listed|) && seen == seen' && lines == before + listed
  }

  /** The whole walk is what is listed so far, then the rest. */
  ghost predicate Resumes(whole: Walked, listed: seq<OutputLine>, rest: Walked) {
    match rest
    case WalkFailed => whole.WalkFailed?
    case Walked(seen, lines) => whole == Walked(seen, listed + lines)
  }

  lemma ResumesAtStart(whole: Walked)
    ensures Resumes(whole, [], whole)
  {
    if whole.Walked? {
      assert [] + whole.lines == whole.lines;
    }
  }

  lemma DescendStep(g: Graph, whole: Walked, level: seq<HierarchyNode>, i: nat,
                    maxDepth: int, depth: int, seen: set<string>, listed: seq<OutputLine>)
    requires depth <= maxDepth && i < |level|
    requires Resumes(whole, listed, Descend(g, level[i..], maxDepth, depth, seen))
    ensures match Walk(g, level[i].item, maxDepth, depth + 1, seen)
            case WalkFailed => whole.WalkFailed?
            case Walked(seen1, below) =>
              Resumes(whole, listed + ([OutputLine(depth, level[i])] + below),
                      Descend(g, level[i + 1..], maxDepth, depth, seen1))
  {
    assert level[i..][0] == level[i] && level[i..][1..] == level[i + 1..];
    match Walk(g, level[i].item, maxDepth, depth + 1, seen) {
      case WalkFailed =>
      case Walked(seen1, below) =>
        match Descend(g, level[i + 1..], maxDepth, depth, seen1) {
          case WalkFailed =>
          case Walked(_, more) =>
            ConcatAssociates(listed, [OutputLine(depth, level[i])] + below, more);
        }
    }
  }
}
