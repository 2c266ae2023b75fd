/**
 Grouping of reference lines (pkg/lsp/formatter.go): sort, drop lines whose
 printed key was seen before, drop imports, and group what is left by path.
 */
module References {
  import opened Text
  import opened Order

  datatype ReferenceLine = ReferenceLine(path: string, line: int, snippet: string)

  datatype ReferenceGroup = ReferenceGroup(path: string, refs: seq<ReferenceLine>)

  predicate RefLe(a: ReferenceLine, b: ReferenceLine) {
    if a.path != b.path then StringLe(a.path, b.path)
    else if a.line != b.line then a.line < b.line
    else StringLe(a.snippet, b.snippet)
  }

  lemma RefLeTotalOrder()
    ensures TotalOrder(RefLe)
  {
    StringLeTotalOrder();
  }

  /** The key two lines must share for the later one to be dropped. */
  function Key(r: ReferenceLine): string {
    r.path + ":" + Decimal(r.line) + ":" + r.snippet
  }

  predicate IsImportReference(snippet: string) {
    "import " <= TrimSpace(snippet)
  }

  // --- dedupeAndSortReferences ---

  /** The lines of s whose key is new, given the keys seen before. */
  function FirstPerKey(s: seq<ReferenceLine>, seen: set<string>): (out: seq<ReferenceLine>) {
    if s == [] then []
    else if Key(s[0]) in seen then FirstPerKey(s[1..], seen)
    else [s[0]] + FirstPerKey(s[1..], seen + {Key(s[0])})
  }

  function Deduped(references: seq<ReferenceLine>): seq<ReferenceLine> {
    FirstPerKey(Sort(references, RefLe), {})
  }

  method DedupeAndSortReferences(references: seq<ReferenceLine>) returns (out: seq<ReferenceLine>)
    ensures out == Deduped(references)
  {
    if |references| == 0 {
      return [];
    }
    var sorted := Sort(references, RefLe);
    out := [];
    var seen := {};
    for i := 0 to |sorted|
      invariant out + FirstPerKey(sorted[i..], seen) == Deduped(references)
    {
      var key := Key(sorted[i]);
      FirstPerKeyStep(sorted, i, seen, out);
      if key in seen {
        continue;
      }
      seen := seen + {key};
      out := out + [sorted[i]];
    }
  }

  lemma FirstPerKeyStep(s: seq<ReferenceLine>, i: nat, seen: set<string>, out: seq<ReferenceLine>)
    requires i < |s|
    ensures out + FirstPerKey(s[i..], seen) ==
            if Key(s[i]) in seen then out + FirstPerKey(s[i + 1..], seen)
            else out + [s[i]] + FirstPerKey(s[i + 1..], seen + {Key(s[i])})
  {
    assert s[i..][1..] == s[i + 1..];
  }

  lemma {:induction false} FirstPerKeyMembers(s: seq<ReferenceLine>, seen: set<string>, r: ReferenceLine)
    requires TotalOrder(RefLe) && Sorted(s, RefLe)
    ensures r in FirstPerKey(s, seen) <==>
            r in s && Key(r) !in seen && forall q :: q in s && Key(q) == Key(r) ==> RefLe(r, q)
  {
    if s != [] {
      var h, t := s[0], s[1..];
      FirstPerKeyMembers(t, seen, r);
      FirstPerKeyMembers(t, seen + {Key(h)}, r);
      HeadIsLeast(s);
    }
  }

  lemma HeadIsLeast(s: seq<ReferenceLine>)
    requires s != [] && TotalOrder(RefLe) && Sorted(s, RefLe)
    ensures forall q :: q in s <==> q == s[0] || q in s[1..]
    ensures forall q :: q in s ==> RefLe(s[0], q)
  {
    assert s == [s[0]] + s[1..];
    assert RefLe(s[0], s[0]);
  }

  lemma {:induction false} FirstPerKeySorted(s: seq<ReferenceLine>, seen: set<string>)
    requires TotalOrder(RefLe) && Sorted(s, RefLe)
    ensures Sorted(FirstPerKey(s, seen), RefLe) && NoDuplicates(FirstPerKey(s, seen))
  {
    if s != [] {
      var h, t := s[0], s[1..];
      assert s == [h] + t;
      FirstPerKeySorted(t, seen);
      var seen' := seen + {Key(h)};
      FirstPerKeySorted(t, seen');
      var rest := FirstPerKey(t, seen');
      forall y | y in rest ensures RefLe(h, y) && y != h {
        FirstPerKeyMembers(t, seen', y);
      }
      PrependSorted(h, rest, RefLe);
    }
  }

  /** What is kept: of all given lines with one key, exactly the least. */
  lemma DedupedKeepsLeastPerKey(references: seq<ReferenceLine>, r: ReferenceLine)
    ensures r in Deduped(references) <==>
            r in references && forall q :: q in references && Key(q) == Key(r) ==> RefLe(r, q)
  {
    RefLeTotalOrder();
    SortSorted(references, RefLe);
    SortMembers(references, RefLe);
    FirstPerKeyMembers(Sort(references, RefLe), {}, r);
  }

  lemma DedupedInOrder(references: seq<ReferenceLine>)
    ensures Sorted(Deduped(references), RefLe) && NoDuplicates(Deduped(references))
  {
    RefLeTotalOrder();
    SortSorted(references, RefLe);
    FirstPerKeySorted(Sort(references, RefLe), {});
  }

  // --- when two different lines share a key ---

  /** The printed form of a, read up to its line number, is part of b's path, and the rest agrees too. */
  predicate Shadows(a: ReferenceLine, b: ReferenceLine) {
    var head := a.path + ":" + Decimal(a.line);
    && head <= b.path
    && ":" + a.snippet == b.path[|head|..] + ":" + Decimal(b.line) + ":" + b.snippet
  }

  lemma ShadowsSharesKey(a: ReferenceLine, b: ReferenceLine)
    requires Shadows(a, b)
    ensures Key(a) == Key(b) && a != b && !RefLe(b, a)
  {
    var head := a.path + ":" + Decimal(a.line);
    assert b.path == head + b.path[|head|..];
    assert Key(a) == head + (":" + a.snippet);
    assert Key(b) == head + (b.path[|head|..] + ":" + Decimal(b.line) + ":" + b.snippet);
    StringLePrefix(a.path, b.path);
    StringLeTotal(a.path, b.path);
  }

  lemma {:induction false} StringLePrefix(a: string, b: string)
    requires a <= b
    ensures StringLe(a, b)
  {
    if a != "" {
      StringLePrefix(a[1..], b[1..]);
    }
  }

  lemma SharedKeyShorterPathShadows(a: ReferenceLine, b: ReferenceLine)
    requires Key(a) == Key(b) && |a.path| < |b.path|
    ensures Shadows(a, b)
  {
    var digits, tail := Decimal(a.line), ":" + Decimal(b.line) + ":" + b.snippet;
    var p := a.path + ":";
    var head := p + digits;
    KeyReadings(a);
    KeyReadings(b);
    TwoReadings(p, digits + ":" + a.snippet, b.path, tail);
    ColonAfter(digits, a.snippet, b.path[|p|..], tail);
    TwoReadings(head, ":" + a.snippet, b.path, tail);
    Regrouped(b.path[|head|..], Decimal(b.line), b.snippet);
  }

  /** A key is read in three ways: cut after the path, after the colon, or after the line number. */
  lemma KeyReadings(r: ReferenceLine)
    ensures Key(r) == r.path + (":" + Decimal(r.line) + ":" + r.snippet)
    ensures Key(r) == (r.path + ":") + (Decimal(r.line) + ":" + r.snippet)
    ensures Key(r) == (r.path + ":" + Decimal(r.line)) + (":" + r.snippet)
  {
  }

  lemma Regrouped(x: string, digits: string, snippet: string)
    ensures x + (":" + digits + ":" + snippet) == x + ":" + digits + ":" + snippet
  {
  }

  /** Digits have no colon in them, so the first colon of a reading is not within them. */
  lemma ColonAfter(digits: string, snippet: string, rest: string, tail: string)
    requires digits + ":" + snippet == rest + tail && ':' !in digits && tail != "" && tail[0] == ':'
    ensures |digits| <= |rest|
  {
    var s := rest + tail;
    assert s[|rest|] == ':';
    assert forall k :: 0 <= k < |digits| ==> s[k] == digits[k] && digits[k] in digits;
  }

  lemma SamePathKeyInjective(a: ReferenceLine, b: ReferenceLine)
    requires Key(a) == Key(b) && |a.path| == |b.path|
    ensures a == b
  {
    KeyReadings(a);
    KeyReadings(b);
    SameHalves(a.path + ":", Decimal(a.line) + ":" + a.snippet, b.path + ":", Decimal(b.line) + ":" + b.snippet);
    SameHalves(a.path, ":", b.path, ":");
    IndexOfAppend(Decimal(a.line), ':', a.snippet);
    IndexOfAppend(Decimal(b.line), ':', b.snippet);
    CutAtColon(Decimal(a.line), a.snippet);
    CutAtColon(Decimal(b.line), b.snippet);
    SameHalves(Decimal(a.line), ":" + a.snippet, Decimal(b.line), ":" + b.snippet);
    DecimalInjective(a.line, b.line);
    SameHalves(":", a.snippet, ":", b.snippet);
  }

  lemma CutAtColon(digits: string, snippet: string)
    ensures digits + ":" + snippet == digits + (":" + snippet)
  {
  }

  lemma SameHalves(x: string, y: string, x': string, y': string)
    requires x + y == x' + y' && |x| == |x'|
    ensures x == x' && y == y'
  {
    assert x == (x + y)[..|x|] && y == (x + y)[|x|..];
    assert x' == (x' + y')[..|x|] && y' == (x' + y')[|x|..];
  }

  /** The printed key confuses exactly the pairs in which one line shadows the other. */
  lemma KeyCollisions(a: ReferenceLine, b: ReferenceLine)
    ensures Key(a) == Key(b) && a != b <==> Shadows(a, b) || Shadows(b, a)
  {
    if Shadows(a, b) { ShadowsSharesKey(a, b); }
    if Shadows(b, a) { ShadowsSharesKey(b, a); }
    if Key(a) == Key(b) && a != b {
      if |a.path| < |b.path| {
        SharedKeyShorterPathShadows(a, b);
      } else if |b.path| < |a.path| {
        SharedKeyShorterPathShadows(b, a);
      } else {
        SamePathKeyInjective(a, b);
      }
    }
  }

  lemma ColonFreePathsAreNeverShadowed(a: ReferenceLine, b: ReferenceLine)
    requires ':' !in b.path
    ensures !Shadows(a, b)
  {
    var head := a.path + ":" + Decimal(a.line);
    assert head[|a.path|] == ':';
    PrefixCharacters(head, b.path, ':');
  }

  // --- compactReferences ---

  function WithoutImports(s: seq<ReferenceLine>): (out: seq<ReferenceLine>) {
    if s == [] then []
    else if IsImportReference(s[0].snippet) then WithoutImports(s[1..])
    else [s[0]] + WithoutImports(s[1..])
  }

  /** The lines the output shows, in order. */
  function Listed(references: seq<ReferenceLine>): seq<ReferenceLine> {
    WithoutImports(Deduped(references))
  }

  function Flatten(groups: seq<ReferenceGroup>): seq<ReferenceLine> {
    if groups == [] then [] else Flatten(groups[..|groups| - 1]) + groups[|groups| - 1].refs
  }

  predicate PathLt(a: string, b: string) {
    StringLe(a, b) && a != b
  }

  ghost predicate IsGrouping(groups: seq<ReferenceGroup>, refs: seq<ReferenceLine>) {
    && Flatten(groups) == refs
    && (forall g, k :: 0 <= g < |groups| && 0 <= k < |groups[g].refs| ==> groups[g].refs[k].path == groups[g].path)
    && (forall g :: 0 <= g < |groups| ==> groups[g].refs != [])
    && (forall g, h :: 0 <= g < h < |groups| ==> PathLt(groups[g].path, groups[h].path))
  }

  function SumOfSizes(groups: seq<ReferenceGroup>): nat {
    if groups == [] then 0 else SumOfSizes(groups[..|groups| - 1]) + |groups[|groups| - 1].refs|
  }

  lemma {:induction false} FlattenSize(groups: seq<ReferenceGroup>)
    ensures |Flatten(groups)| == SumOfSizes(groups)
  {
    if groups != [] {
      FlattenSize(groups[..|groups| - 1]);
    }
  }

  /** The groups end with a path no later than any path still to come. */
  ghost predicate EndsBefore(groups: seq<ReferenceGroup>, s: seq<ReferenceLine>, i: nat) {
    groups != [] ==> forall k :: i <= k < |s| ==> StringLe(groups[|groups| - 1].path, s[k].path)
  }

  function AddReference(groups: seq<ReferenceGroup>, ref: ReferenceLine): (r: seq<ReferenceGroup>) {
    if groups == [] || groups[|groups| - 1].path != ref.path then
      groups + [ReferenceGroup(ref.path, [ref])]
    else
      var last := groups[|groups| - 1];
      groups[|groups| - 1 := last.(refs := last.refs + [ref])]
  }

  /** By line number, and by snippet within a line. */
  ghost predicate LinesAscend(refs: seq<ReferenceLine>) {
    forall j, k :: 0 <= j < k < |refs| ==>
      refs[j].line < refs[k].line || (refs[j].line == refs[k].line && StringLe(refs[j].snippet, refs[k].snippet))
  }

  lemma OnePathAscends(refs: seq<ReferenceLine>, path: string)
    requires Sorted(refs, RefLe) && forall k :: 0 <= k < |refs| ==> refs[k].path == path
    ensures LinesAscend(refs)
  {
    forall j, k | 0 <= j < k < |refs|
      ensures refs[j].line < refs[k].line
              || (refs[j].line == refs[k].line && StringLe(refs[j].snippet, refs[k].snippet))
    {
      assert RefLe(refs[j], refs[k]);
    }
  }

  lemma SortedParts(a: seq<ReferenceLine>, b: seq<ReferenceLine>)
    requires Sorted(a + b, RefLe)
    ensures Sorted(a, RefLe) && Sorted(b, RefLe)
  {
    forall i, j | 0 <= i < j < |a| ensures RefLe(a[i], a[j]) {
      assert (a + b)[i] == a[i] && (a + b)[j] == a[j];
    }
    forall i, j | 0 <= i < j < |b| ensures RefLe(b[i], b[j]) {
      assert (a + b)[|a| + i] == b[i] && (a + b)[|a| + j] == b[j];
    }
  }

  /** Within each group the lines ascend. */
  lemma {:induction false} GroupsAscend(groups: seq<ReferenceGroup>)
    requires Sorted(Flatten(groups), RefLe)
    requires forall g, k :: 0 <= g < |groups| && 0 <= k < |groups[g].refs| ==> groups[g].refs[k].path == groups[g].path
    ensures forall g :: 0 <= g < |groups| ==> LinesAscend(groups[g].refs)
  {
    if groups != [] {
      var init, last := groups[..|groups| - 1], groups[|groups| - 1];
      SortedParts(Flatten(init), last.refs);
      GroupsAscend(init);
      OnePathAscends(last.refs, last.path);
    }
  }

  method CompactReferences(references: seq<ReferenceLine>)
    returns (groups: seq<ReferenceGroup>, total: nat)
    ensures IsGrouping(groups, Listed(references))
    ensures total == |Listed(references)| == SumOfSizes(groups)
    ensures forall g :: 0 <= g < |groups| ==> LinesAscend(groups[g].refs)
  {
    var sorted := DedupeAndSortReferences(references);
    groups := [];
    total := 0;
    ghost var listed := [];
    DedupedPathsAscend(references);
    RemainAtStart(sorted);
    for i := 0 to |sorted|
      invariant IsGrouping(groups, listed) && EndsBefore(groups, sorted, i)
      invariant Remain(Listed(references), listed, sorted, i)
      invariant total == |listed|
    {
      var ref := sorted[i];
      RemainStep(Listed(references), listed, sorted, i);
      if IsImportReference(ref.snippet) {
        continue;
      }
      total := total + 1;
      ExtendGrouping(groups, listed, sorted, i);
      listed := listed + [ref];
      groups := AddReference(groups, ref);
    }
    RemainAtEnd(Listed(references), listed, sorted);
    FlattenSize(groups);
    ListedInOrder(references);
    GroupsAscend(groups);
  }

  /** The whole is what is listed so far, then what is to come from line i on. */
  ghost predicate Remain(whole: seq<ReferenceLine>, listed: seq<ReferenceLine>, s: seq<ReferenceLine>, i: nat) {
    i <= |s| && whole == listed + WithoutImports(s[i..])
  }

  lemma RemainAtStart(s: seq<ReferenceLine>)
    ensures Remain(WithoutImports(s), [], s, 0)
  {
    assert s[0..] == s;
  }

  lemma RemainAtEnd(whole: seq<ReferenceLine>, listed: seq<ReferenceLine>, s: seq<ReferenceLine>)
    requires Remain(whole, listed, s, |s|)
    ensures whole == listed
  {
    assert s[|s|..] == [];
  }

  lemma RemainStep(whole: seq<ReferenceLine>, listed: seq<ReferenceLine>, s: seq<ReferenceLine>, i: nat)
    requires i < |s| && Remain(whole, listed, s, i)
    ensures Remain(whole, if IsImportReference(s[i].snippet) then listed else listed + [s[i]], s, i + 1)
  {
    assert s[i..][1..] == s[i + 1..];
  }

  ghost predicate PathsAscend(s: seq<ReferenceLine>) {
    forall i, j :: 0 <= i < j < |s| ==> StringLe(s[i].path, s[j].path)
  }

  /** Adding the next line in order keeps a grouping, whichever way it is added. */
  lemma ExtendGrouping(groups: seq<ReferenceGroup>, refs: seq<ReferenceLine>, s: seq<ReferenceLine>, i: nat)
    requires i < |s| && PathsAscend(s)
    requires IsGrouping(groups, refs) && EndsBefore(groups, s, i)
    ensures IsGrouping(AddReference(groups, s[i]), refs + [s[i]])
    ensures EndsBefore(AddReference(groups, s[i]), s, i + 1)
  {
    var ref := s[i];
    var after := AddReference(groups, ref);
    if groups == [] || groups[|groups| - 1].path != ref.path {
      assert after[..|after| - 1] == groups;
      forall g | 0 <= g < |groups| ensures PathLt(groups[g].path, ref.path) {
        PathLtBeforeLast(groups, refs, g, ref.path);
      }
    } else {
      assert after[..|after| - 1] == groups[..|groups| - 1];
    }
  }

  lemma PathLtBeforeLast(groups: seq<ReferenceGroup>, refs: seq<ReferenceLine>, g: nat, path: string)
    requires g < |groups| && IsGrouping(groups, refs) && PathLt(groups[|groups| - 1].path, path)
    ensures PathLt(groups[g].path, path)
  {
    var last := groups[|groups| - 1].path;
    if g < |groups| - 1 {
      assert PathLt(groups[g].path, last);
      StringLeTransitive(groups[g].path, last, path);
      StringLeTotal(last, path);
    }
  }

  lemma DedupedPathsAscend(references: seq<ReferenceLine>)
    ensures PathsAscend(Deduped(references))
  {
    var s := Deduped(references);
    DedupedInOrder(references);
    forall i, j | 0 <= i < j < |s| ensures StringLe(s[i].path, s[j].path) {
      assert RefLe(s[i], s[j]);
      StringLeTotal(s[i].path, s[j].path);
    }
  }

  lemma {:induction false} WithoutImportsMembers(s: seq<ReferenceLine>, r: ReferenceLine)
    ensures r in WithoutImports(s) <==> r in s && !IsImportReference(r.snippet)
  {
    if s != [] {
      assert s == [s[0]] + s[1..];
      WithoutImportsMembers(s[1..], r);
    }
  }

  lemma {:induction false} WithoutImportsSorted(s: seq<ReferenceLine>)
    requires Sorted(s, RefLe) && NoDuplicates(s)
    ensures Sorted(WithoutImports(s), RefLe) && NoDuplicates(WithoutImports(s))
  {
    if s != [] {
      assert s == [s[0]] + s[1..];
      TailSorted(s, RefLe);
      WithoutImportsSorted(s[1..]);
      var rest := WithoutImports(s[1..]);
      forall y | y in rest ensures y in s[1..] {
        WithoutImportsMembers(s[1..], y);
      }
      PrependSorted(s[0], rest, RefLe);
    }
  }

  /** A line is shown exactly when it is given, is not an import, and no given line shadows it. */
  lemma ListedExactly(references: seq<ReferenceLine>, r: ReferenceLine)
    ensures r in Listed(references) <==>
            && r in references && !IsImportReference(r.snippet)
            && forall q :: q in references ==> !Shadows(q, r)
  {
    DedupedKeepsLeastPerKey(references, r);
    WithoutImportsMembers(Deduped(references), r);
    RefLeTotalOrder();
    forall q | q in references && r in references
      ensures (Key(q) == Key(r) ==> RefLe(r, q)) <==> !Shadows(q, r)
    {
      KeyCollisions(q, r);
      if Shadows(q, r) { ShadowsSharesKey(q, r); }
      if Shadows(r, q) { ShadowsSharesKey(r, q); }
      assert RefLe(r, q) || RefLe(q, r);
    }
  }

  /** The shown lines come in order and no line comes twice. */
  lemma ListedInOrder(references: seq<ReferenceLine>)
    ensures Sorted(Listed(references), RefLe) && NoDuplicates(Listed(references))
  {
    DedupedInOrder(references);
    WithoutImportsSorted(Deduped(references));
  }

  /** Nothing is lost, for any input, exactly when no shown candidate is shadowed by another given line. */
  lemma GroupingIsLossless(references: seq<ReferenceLine>)
    ensures (forall r :: r in references && !IsImportReference(r.snippet) ==> r in Listed(references)) <==>
            (forall q, r :: q in references && r in references && !IsImportReference(r.snippet) ==> !Shadows(q, r))
  {
    forall r ensures r in Listed(references) <==>
                     && r in references && !IsImportReference(r.snippet)
                     && forall q :: q in references ==> !Shadows(q, r)
    {
      ListedExactly(references, r);
    }
  }

  /** With colon-free paths, the shown lines are exactly the distinct lines that are not imports. */
  lemma ColonFreeGroupingIsLossless(references: seq<ReferenceLine>, r: ReferenceLine)
    requires forall q :: q in references ==> ':' !in q.path
    ensures r in Listed(references) <==> r in references && !IsImportReference(r.snippet)
  {
    ListedExactly(references, r);
    if r in references {
      forall q | q in references ensures !Shadows(q, r) {
        ColonFreePathsAreNeverShadowed(q, r);
      }
    }
  }

  /** A colon in a path can make a line disappear: both of these print as a:1:2:x. */
  lemma ColonInPathLosesALine(a: ReferenceLine, b: ReferenceLine)
    requires a == ReferenceLine("a", 1, "2:x") && b == ReferenceLine("a:1", 2, "x")
    ensures a in Listed([a, b]) && b !in Listed([a, b])
  {
    ColonExampleShadows(a, b);
    assert a in [a, b] && b in [a, b];
    ListedExactly([a, b], a);
    ListedExactly([a, b], b);
    forall q ensures !Shadows(q, a) {
      ColonFreePathsAreNeverShadowed(q, a);
    }
  }

  lemma ColonExampleShadows(a: ReferenceLine, b: ReferenceLine)
    requires a == ReferenceLine("a", 1, "2:x") && b == ReferenceLine("a:1", 2, "x")
    ensures Shadows(a, b) && !IsImportReference(a.snippet) && ':' !in a.path
  {
    assert Decimal(1) == "1" && Decimal(2) == "2";
    var head := a.path + ":" + Decimal(a.line);
    assert head == "a:1" && b.path[|head|..] == "";
    TrimSpaceOfTrimmed(a.snippet);
  }

  lemma {:induction false} GroupingUnique(g: seq<ReferenceGroup>, h: seq<ReferenceGroup>, refs: seq<ReferenceLine>)
    requires IsGrouping(g, refs) && IsGrouping(h, refs)
    ensures g == h
    decreases |g|
  {
    if refs == [] {
      NoLinesNoGroups(g);
      NoLinesNoGroups(h);
    } else {
      var lg, lh := g[|g| - 1], h[|h| - 1];
      LastGroupTakesTheWholeRun(g, refs);
      LastGroupTakesTheWholeRun(h, refs);
      var n := |refs| - |lg.refs|;
      var m := |refs| - |lh.refs|;
      assert n < |refs| && m < |refs| && lg.path == lh.path;
      assert refs[n].path == lg.path && refs[m].path == lh.path;
      assert n == m;
      DropLastGroup(g, refs);
      DropLastGroup(h, refs);
      GroupingUnique(g[..|g| - 1], h[..|h| - 1], refs[..n]);
      assert g == g[..|g| - 1] + [lg] && h == h[..|h| - 1] + [lh];
    }
  }

  lemma NoLinesNoGroups(g: seq<ReferenceGroup>)
    requires IsGrouping(g, [])
    ensures g == []
  {
  }

  lemma DropLastGroup(g: seq<ReferenceGroup>, refs: seq<ReferenceLine>)
    requires IsGrouping(g, refs) && g != []
    ensures |g[|g| - 1].refs| <= |refs|
    ensures IsGrouping(g[..|g| - 1], refs[..|refs| - |g[|g| - 1].refs|])
  {
    var init := g[..|g| - 1];
    assert refs == Flatten(init) + g[|g| - 1].refs;
    assert Flatten(init) == refs[..|refs| - |g[|g| - 1].refs|];
  }

  lemma LastGroupTakesTheWholeRun(g: seq<ReferenceGroup>, refs: seq<ReferenceLine>)
    requires IsGrouping(g, refs) && refs != []
    ensures g != []
    ensures var l := g[|g| - 1]; var n := |refs| - |l.refs|;
            && 0 <= n < |refs| && refs[n..] == l.refs && l.path == refs[|refs| - 1].path
            && (forall k :: 0 <= k < n ==> refs[k].path != l.path)
            && (forall k :: n <= k < |refs| ==> refs[k].path == l.path)
  {
    var l := g[|g| - 1];
    var init := g[..|g| - 1];
    var n := |Flatten(init)|;
    assert refs == Flatten(init) + l.refs;
    forall k | 0 <= k < n ensures refs[k].path != l.path {
      var i := FlattenSource(init, k);
    }
    assert forall k :: n <= k < |refs| ==> refs[k] == l.refs[k - n];
  }

  lemma {:induction false} FlattenSource(groups: seq<ReferenceGroup>, k: nat) returns (g: nat)
    requires k < |Flatten(groups)|
    requires forall g, k :: 0 <= g < |groups| && 0 <= k < |groups[g].refs| ==> groups[g].refs[k].path == groups[g].path
    ensures g < |groups| && Flatten(groups)[k].path == groups[g].path
  {
    var init := groups[..|groups| - 1];
    if k < |Flatten(init)| {
      g := FlattenSource(init, k);
    } else {
      g := |groups| - 1;
      assert Flatten(groups)[k] == groups[g].refs[k - |Flatten(init)|];
    }
  }

  /** The order and the multiplicity of the given lines never show in the output. */
  lemma OutputDependsOnlyOnTheLinesGiven(
      a: seq<ReferenceLine>, b: seq<ReferenceLine>, g: seq<ReferenceGroup>, h: seq<ReferenceGroup>)
    requires forall r :: r in a <==> r in b
    requires IsGrouping(g, Listed(a)) && IsGrouping(h, Listed(b))
    ensures g == h
  {
    RefLeTotalOrder();
    forall r ensures r in Listed(a) <==> r in Listed(b) {
      ListedExactly(a, r);
      ListedExactly(b, r);
    }
    ListedInOrder(a);
    ListedInOrder(b);
    SortedUnique(Listed(a), Listed(b), RefLe);
    GroupingUnique(g, h, Listed(a));
  }
}
