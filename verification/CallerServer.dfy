/**
 The caller tree against what the language server answers (pkg/lsp/callers.go:
 355-527): it lists exactly the functions that reach the root by those answers.
 */
module CallerServer {
  import opened Wrappers
  import opened Sequences
  import opened Text
  import opened Callers
  import opened CallerTree

  // --- the functions that reach the root, by the server's answers ---

  type Answers = Item -> Option<seq<Item>>

  /** The server reports this item as a caller of that one, and its file is not ignored. */
  predicate Reported(ws: Workspace, incoming: Answers, item: Item, caller: Item) {
    incoming(item).Some? && caller in incoming(item).value && NodeFor(ws, caller).Known?
  }

  function LastItem(root: Item, chain: seq<Item>): Item {
    if chain == [] then root else chain[|chain| - 1]
  }

  /** Each item was reported as a caller of the one before it, and the first as a caller of the root. */
  predicate IsChain(ws: Workspace, incoming: Answers, root: Item, chain: seq<Item>) {
    chain == [] ||
    (IsChain(ws, incoming, root, chain[..|chain| - 1])
     && Reported(ws, incoming, LastItem(root, chain[..|chain| - 1]), chain[|chain| - 1]))
  }

  ghost predicate Leads(ws: Workspace, incoming: Answers, root: Item, item: Item) {
    exists chain :: IsChain(ws, incoming, root, chain) && LastItem(root, chain) == item
  }

  predicate EndsAt(ws: Workspace, incoming: Answers, root: Item, chain: seq<Item>, id: string) {
    chain != [] && IsChain(ws, incoming, root, chain) && IsKnown(ws, chain[|chain| - 1], id)
  }

  /** Some chain of reported calls leads from a function of this identity to the root. */
  ghost predicate Calls(ws: Workspace, incoming: Answers, root: Item, id: string) {
    exists chain :: EndsAt(ws, incoming, root, chain, id)
  }

  /** Every request along the chains is answered, with readable URIs. */
  ghost predicate AllAnswered(ws: Workspace, incoming: Answers, root: Item) {
    forall item :: Leads(ws, incoming, root, item) ==>
      incoming(item).Some? && !SomeBadURI(ws, incoming(item).value)
  }

  /** The server reports a caller of this identity. */
  predicate ReportsId(ws: Workspace, incoming: Answers, item: Item, id: string) {
    incoming(item).Some? && exists caller :: caller in incoming(item).value && IsKnown(ws, caller, id)
  }

  predicate SameReports(ws: Workspace, incoming: Answers, a: Item, b: Item, id: string) {
    ReportsId(ws, incoming, a, id) <==> ReportsId(ws, incoming, b, id)
  }

  /** Items of one identity are one function to the server: the same callers are reported for them. */
  ghost predicate OneFunctionEach(ws: Workspace, incoming: Answers, root: Item) {
    forall a, b, id ::
      Leads(ws, incoming, root, a) && Leads(ws, incoming, root, b) && NodeFor(ws, a).Known?
        && NodeFor(ws, b).Known? && NodeFor(ws, a).node.identity == NodeFor(ws, b).node.identity ==>
        SameReports(ws, incoming, a, b, id)
  }

  lemma ChainGrows(ws: Workspace, incoming: Answers, root: Item, chain: seq<Item>, caller: Item)
    requires IsChain(ws, incoming, root, chain) && Reported(ws, incoming, LastItem(root, chain), caller)
    ensures IsChain(ws, incoming, root, chain + [caller])
  {
    assert (chain + [caller])[..|chain|] == chain;
  }

  lemma NodeKeepsItem(ws: Workspace, item: Item)
    ensures NodeFor(ws, item).Known? ==> NodeFor(ws, item).node.item == item
  {
  }

  /** A caller in the graph was reported by the server. */
  lemma CallerIsReported(ws: Workspace, incoming: Answers, item: Item, node: HierarchyNode)
    requires IsCaller(ServerGraph(ws, incoming), item, node)
    ensures Reported(ws, incoming, item, node.item) && NodeFor(ws, node.item) == Known(node)
  {
    var calls := incoming(item).value;
    IncomingNodesExactly(ws, calls);
    var i :| IsFirstOf(ws, calls, node, i);
    NodeKeepsItem(ws, calls[i]);
  }

  /** What was reported is in the graph, under its identity. */
  lemma ReportedIsCaller(ws: Workspace, incoming: Answers, item: Item, id: string)
    requires incoming(item).Some? && !SomeBadURI(ws, incoming(item).value)
    ensures CallersOf(ServerGraph(ws, incoming), item).Some?
    ensures ReportsId(ws, incoming, item, id) <==> id in CallerIds(ServerGraph(ws, incoming), item)
  {
    var calls := incoming(item).value;
    IncomingNodesExactly(ws, calls);
    var nodes := CallersOf(ServerGraph(ws, incoming), item).value;
    if ReportsId(ws, incoming, item, id) {
      var caller :| caller in calls && IsKnown(ws, caller, id);
      var i :| 0 <= i < |calls| && calls[i] == caller;
      assert NodeFor(ws, calls[i]).node.identity in Identities(nodes);
    }
    if id in Identities(nodes) {
      var n :| n in nodes && n.identity == id;
      var i :| IsFirstOf(ws, calls, n, i);
      assert calls[i] in calls && IsKnown(ws, calls[i], id);
    }
  }

  function ItemsOf(path: seq<HierarchyNode>): (chain: seq<Item>)
    ensures |chain| == |path|
  {
    if path == [] then [] else ItemsOf(path[..|path| - 1]) + [path[|path| - 1].item]
  }

  lemma {:induction false} PathIsChain(ws: Workspace, incoming: Answers, root: Item, path: seq<HierarchyNode>)
    requires IsPath(ServerGraph(ws, incoming), root, path)
    ensures IsChain(ws, incoming, root, ItemsOf(path)) && LastItem(root, ItemsOf(path)) == End(root, path)
    ensures path != [] ==> NodeFor(ws, End(root, path)) == Known(path[|path| - 1])
  {
    if path != [] {
      var init, last := path[..|path| - 1], path[|path| - 1];
      PathIsChain(ws, incoming, root, init);
      CallerIsReported(ws, incoming, End(root, init), last);
      ChainGrows(ws, incoming, root, ItemsOf(init), last.item);
    }
  }

  lemma ReachedIsLedTo(ws: Workspace, incoming: Answers, root: Item, item: Item)
    requires ReachedItem(ServerGraph(ws, incoming), root, item)
    ensures Leads(ws, incoming, root, item)
  {
    var path :| IsPath(ServerGraph(ws, incoming), root, path) && End(root, path) == item;
    PathIsChain(ws, incoming, root, path);
  }

  /** A chain has a path beside it that ends at the same identity. */
  lemma {:induction false} ChainHasPath(ws: Workspace, incoming: Answers, root: Item, chain: seq<Item>)
    returns (path: seq<HierarchyNode>)
    requires IsChain(ws, incoming, root, chain)
    requires AllAnswered(ws, incoming, root) && OneFunctionEach(ws, incoming, root)
    ensures IsPath(ServerGraph(ws, incoming), root, path) && |path| == |chain|
    ensures chain != [] ==> IsKnown(ws, chain[|chain| - 1], path[|path| - 1].identity)
  {
    if chain == [] {
      path := [];
    } else {
      var init, last := chain[..|chain| - 1], chain[|chain| - 1];
      var up := ChainHasPath(ws, incoming, root, init);
      var node := CallerBeside(ws, incoming, root, init, up, last);
      path := up + [node];
      assert path[..|up|] == up;
    }
  }

  /** One call further: what calls the end of the chain calls the end of the path. */
  lemma CallerBeside(ws: Workspace, incoming: Answers, root: Item, chain: seq<Item>, path: seq<HierarchyNode>,
                     caller: Item) returns (node: HierarchyNode)
    requires IsChain(ws, incoming, root, chain) && Reported(ws, incoming, LastItem(root, chain), caller)
    requires AllAnswered(ws, incoming, root) && OneFunctionEach(ws, incoming, root)
    requires IsPath(ServerGraph(ws, incoming), root, path) && |path| == |chain|
    requires chain != [] ==> IsKnown(ws, chain[|chain| - 1], path[|path| - 1].identity)
    ensures IsCaller(ServerGraph(ws, incoming), End(root, path), node) && IsKnown(ws, caller, node.identity)
  {
    var g, from := ServerGraph(ws, incoming), End(root, path);
    var id := NodeFor(ws, caller).node.identity;
    PathIsChain(ws, incoming, root, path);
    assert Leads(ws, incoming, root, LastItem(root, chain)) && Leads(ws, incoming, root, from);
    assert ReportsId(ws, incoming, LastItem(root, chain), id) by { assert IsKnown(ws, caller, id); }
    assert SameReports(ws, incoming, LastItem(root, chain), from, id);
    ReportedIsCaller(ws, incoming, from, id);
    node :| node in CallersOf(g, from).value && node.identity == id;
  }

  /** What reaches the root in the graph is what calls it by the server's answers. */
  lemma ReachesIffCalls(ws: Workspace, incoming: Answers, root: Item, id: string)
    requires AllAnswered(ws, incoming, root) && OneFunctionEach(ws, incoming, root)
    ensures Reaches(ServerGraph(ws, incoming), root, id) <==> Calls(ws, incoming, root, id)
  {
    var g := ServerGraph(ws, incoming);
    if Reaches(g, root, id) {
      var n: nat :| ReachesIn(g, root, id, n);
      var path :| IsPathTo(g, root, path, id) && |path| == n;
      PathIsChain(ws, incoming, root, path);
      assert EndsAt(ws, incoming, root, ItemsOf(path), id);
    }
    if Calls(ws, incoming, root, id) {
      var chain :| EndsAt(ws, incoming, root, chain, id);
      var path := ChainHasPath(ws, incoming, root, chain);
      assert IsPathTo(g, root, path, id) && ReachesIn(g, root, id, |path|);
    }
  }

  lemma ServerIsFaithful(ws: Workspace, incoming: Answers, root: Item)
    requires AllAnswered(ws, incoming, root) && OneFunctionEach(ws, incoming, root)
    ensures Faithful(ServerGraph(ws, incoming), root)
  {
    var g := ServerGraph(ws, incoming);
    forall a: Item, b: Item | ReachedItem(g, root, a) && ReachedItem(g, root, b) && SameIdentity(g, a, b)
      ensures CallersAgree(g, a, b)
    {
      ReachedIsLedTo(ws, incoming, root, a);
      ReachedIsLedTo(ws, incoming, root, b);
      forall id ensures id in CallerIds(g, a) <==> id in CallerIds(g, b) {
        ReportedIsCaller(ws, incoming, a, id);
        ReportedIsCaller(ws, incoming, b, id);
        assert SameReports(ws, incoming, a, b, id);
      }
      ReportedIsCaller(ws, incoming, a, "");
      ReportedIsCaller(ws, incoming, b, "");
    }
  }

  // --- the walk comes to an end when every request is answered ---

  ghost predicate NeverFails(g: Graph, root: Item) {
    forall item :: ReachedItem(g, root, item) ==> CallersOf(g, item).Some?
  }

  lemma CallerIsReached(g: Graph, root: Item, item: Item, node: HierarchyNode)
    requires ReachedItem(g, root, item) && IsCaller(g, item, node)
    ensures ReachedItem(g, root, node.item)
  {
    var path :| IsPath(g, root, path) && End(root, path) == item;
    var longer := path + [node];
    assert longer[..|path|] == path;
    assert IsPath(g, root, longer) && End(root, longer) == node.item;
  }

  lemma {:induction false} WalkSucceeds(g: Graph, root: Item, item: Item, maxDepth: int, depth: int, seen: set<string>)
    requires NeverFails(g, root) && ReachedItem(g, root, item) && depth <= maxDepth + 1
    ensures Walk(g, item, maxDepth, depth, seen).Walked?
    decreases maxDepth + 1 - depth, 0, 0
  {
    if depth <= maxDepth {
      var nodes := CallersOf(g, item).value;
      var level := Unseen(nodes, seen);
      forall n | n in level ensures ReachedItem(g, root, n.item) {
        CallerIsReached(g, root, item, n);
      }
      DescendSucceeds(g, root, level, maxDepth, depth, seen + Identities(level));
    }
  }

  lemma {:induction false} DescendSucceeds(g: Graph, root: Item, level: seq<HierarchyNode>, maxDepth: int, depth: int,
                                           seen: set<string>)
    requires NeverFails(g, root) && depth <= maxDepth && forall n :: n in level ==> ReachedItem(g, root, n.item)
    ensures Descend(g, level, maxDepth, depth, seen).Walked?
    decreases maxDepth - depth, 1, |level|
  {
    if level != [] {
      assert level[0] in level;
      WalkSucceeds(g, root, level[0].item, maxDepth, depth + 1, seen);
      DescendSucceeds(g, root, level[1..], maxDepth, depth, Walk(g, level[0].item, maxDepth, depth + 1, seen).seen);
    }
  }

  lemma ServerNeverFails(ws: Workspace, incoming: Answers, root: Item)
    requires AllAnswered(ws, incoming, root)
    ensures NeverFails(ServerGraph(ws, incoming), root)
  {
    forall item | ReachedItem(ServerGraph(ws, incoming), root, item)
      ensures CallersOf(ServerGraph(ws, incoming), item).Some?
    {
      ReachedIsLedTo(ws, incoming, root, item);
      ReportedIsCaller(ws, incoming, item, "");
    }
  }

  /**
   When every request along the calls is answered, and items of one identity are
   one function to the server, a walk with a bound above the number of functions
   that reach the root lists exactly those, by the server's own answers, without
   the root itself.
   */
  lemma ListsExactlyTheCallers(ws: Workspace, incoming: Answers, root: Item, maxDepth: int, callers: set<string>)
    requires AllAnswered(ws, incoming, root) && OneFunctionEach(ws, incoming, root)
    requires forall id :: Calls(ws, incoming, root, id) ==>
               id in callers || IsKnown(ws, root, id)
    requires maxDepth > |callers|
    ensures var walked := CallerWalk(ServerGraph(ws, incoming), root, maxDepth);
            && walked.Walked?
            && forall id :: id in LineIds(walked.lines) <==>
                 Calls(ws, incoming, root, id) && !IsKnown(ws, root, id)
  {
    var g := ServerGraph(ws, incoming);
    ServerGraphWellFormed(ws, incoming);
    ServerIsFaithful(ws, incoming, root);
    ServerNeverFails(ws, incoming, root);
    RootIsReached(g, root);
    WalkSucceeds(g, root, root, maxDepth, 1, {RootIdentity(g, root)});
    forall id ensures Reaches(g, root, id) <==> Calls(ws, incoming, root, id) {
      ReachesIffCalls(ws, incoming, root, id);
    }
    forall id | Calls(ws, incoming, root, id) ensures id == RootIdentity(g, root) <==> IsKnown(ws, root, id) {
      CalledHasIdentity(ws, incoming, root, id);
    }
    CallerTreeComplete(g, root, maxDepth, callers);
  }

  lemma CalledHasIdentity(ws: Workspace, incoming: Answers, root: Item, id: string)
    requires Calls(ws, incoming, root, id)
    ensures id != ""
  {
    var chain :| EndsAt(ws, incoming, root, chain, id);
  }

  // --- what nodes and identities tell ---

  /** The line and the character at which an item is selected, or else begins; none before the first. */
  predicate StandsAt(item: Item, line: int, character: int) {
    if item.selectionLine >= 0 then
      line == item.selectionLine && character == if item.selectionCharacter >= 0 then item.selectionCharacter else 0
    else
      && line == (if item.rangeLine >= 0 then item.rangeLine else 0)
      && character == if item.rangeCharacter >= 0 then item.rangeCharacter else 0
  }

  /** A node shows its item: the relative path, the name, and the place, with lines counted from one. */
  lemma NodeShowsItem(ws: Workspace, item: Item)
    ensures NodeFor(ws, item).BadURI? <==> ws.pathOf(item.uri).None?
    ensures NodeFor(ws, item).Ignored? <==> ws.pathOf(item.uri).Some? && ws.ignored(ws.pathOf(item.uri).value)
    ensures NodeFor(ws, item).Known? ==>
              var n := NodeFor(ws, item).node;
              && n.item == item && n.name == item.name && n.path == ws.relative(ws.pathOf(item.uri).value)
              && StandsAt(item, n.line - 1, n.character)
              && n.identity == Identity(n.path, n.line - 1, n.character, n.name)
  {
  }


  lemma Regrouped(p: string, l: string, c: string, name: string)
    ensures p + ":" + l + ":" + c + ":" + name == p + ":" + (l + ":" + (c + ":" + name))
  {
    var before := p + ":" + l + ":";
    ConcatAssociates(p + ":", l, ":");
    ConcatAssociates(p + ":", l + ":", c + ":" + name);
    ConcatAssociates(before, c, ":");
    ConcatAssociates(before, c + ":", name);
  }

  lemma IdentityReads(path: string, line: int, character: int, name: string)
    ensures Identity(path, line, character, name)
            == path + ":" + (Decimal(line) + ":" + (Decimal(character) + ":" + name))
  {
    Regrouped(path, Decimal(line), Decimal(character), name);
  }

  /** With colon-free paths, two functions have one identity exactly when they stand at one place under one name. */
  lemma IdentityTellsIff(path: string, line: int, character: int, name: string,
                         path': string, line': int, character': int, name': string)
    requires ':' !in path && ':' !in path'
    ensures Identity(path, line, character, name) == Identity(path', line', character', name') <==>
              path == path' && line == line' && character == character' && name == name'
  {
    IdentityReads(path, line, character, name);
    IdentityReads(path', line', character', name');
    if Identity(path, line, character, name) == Identity(path', line', character', name') {
      var c, c' := Decimal(character) + ":" + name, Decimal(character') + ":" + name';
      SameAtFirst(path, ':', Decimal(line) + ":" + c, path', Decimal(line') + ":" + c');
      SameAtFirst(Decimal(line), ':', c, Decimal(line'), c');
      SameAtFirst(Decimal(character), ':', name, Decimal(character'), name');
      DecimalInjective(line, line');
      DecimalInjective(character, character');
    }
  }

  /** With a colon in a path, two functions at different places can have one identity. */
  lemma ColonInPathConfuses()
    ensures Identity("a", 1, 2, "b:1:2:c") == Identity("a:1:2:b", 1, 2, "c")
  {
    var between := ":" + Decimal(1) + ":" + Decimal(2) + ":";
    assert Decimal(1) == "1" && Decimal(2) == "2";
    assert Identity("a", 1, 2, "b:1:2:c") == "a:1:2:b:1:2:c";
    assert Identity("a:1:2:b", 1, 2, "c") == "a:1:2:b:1:2:c";
  }
}
