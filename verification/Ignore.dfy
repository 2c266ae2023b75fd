/**
 The ignore rules (pkg/ignore/matcher.go): which lines become patterns, the
 string their fingerprint hashes, and which paths a pattern list matches. The
 shell globs of path.Match are a parameter.
 */
module Ignore {
  import opened Wrappers
  import opened Text
  import opened Order

  /** path.Match: whether the pattern is well formed and matches the name. */
  type Glob = (string, string) -> bool

  // --- which patterns a matcher holds ---

  function NormalizePattern(rawPattern: string): Option<string> {
    var trimmed := TrimSpace(rawPattern);
    if trimmed == "" || "#" <= trimmed || "!" <= trimmed then None
    else
      var pattern := TrimPrefix(TrimSuffix(trimmed, "/"), "./");
      if pattern == "" || pattern == "/" then None else Some(pattern)
  }

  function NormalizedFrom(raw: seq<string>, seen: set<string>): (r: seq<string>) {
    if raw == [] then []
    else
      match NormalizePattern(raw[0])
      case None => NormalizedFrom(raw[1..], seen)
      case Some(p) =>
        if p in seen then NormalizedFrom(raw[1..], seen)
        else [p] + NormalizedFrom(raw[1..], seen + {p})
  }

  method NormalizePatterns(patterns: seq<string>) returns (normalized: seq<string>)
    ensures normalized == NormalizedFrom(patterns, {})
  {
    var seen := {};
    normalized := [];
    for i := 0 to |patterns|
      invariant normalized + NormalizedFrom(patterns[i..], seen) == NormalizedFrom(patterns, {})
    {
      assert patterns[i..][1..] == patterns[i + 1..];
      var pattern := NormalizePattern(patterns[i]);
      if pattern.None? {
        continue;
      }
      if pattern.value in seen {
        continue;
      }
      seen := seen + {pattern.value};
      normalized := normalized + [pattern.value];
    }
  }

  predicate Yields(raw: seq<string>, k: int, p: string) {
    0 <= k < |raw| && NormalizePattern(raw[k]) == Some(p)
  }

  ghost predicate SomeYields(raw: seq<string>, p: string) {
    exists k :: Yields(raw, k, p)
  }

  lemma SomeYieldsStep(raw: seq<string>, p: string)
    requires raw != []
    ensures SomeYields(raw, p) <==> NormalizePattern(raw[0]) == Some(p) || SomeYields(raw[1..], p)
  {
    if NormalizePattern(raw[0]) == Some(p) {
      assert Yields(raw, 0, p);
    }
    if k :| Yields(raw[1..], k, p) {
      assert Yields(raw, k + 1, p);
    }
    if k :| Yields(raw, k, p) && k > 0 {
      assert Yields(raw[1..], k - 1, p);
    }
  }

  lemma {:induction false} NormalizedMembers(raw: seq<string>, seen: set<string>, p: string)
    ensures p in NormalizedFrom(raw, seen) <==> p !in seen && SomeYields(raw, p)
  {
    if raw != [] {
      var h := NormalizePattern(raw[0]);
      NormalizedMembers(raw[1..], if h.Some? && h.value !in seen then seen + {h.value} else seen, p);
      SomeYieldsStep(raw, p);
    }
  }

  lemma {:induction false} NormalizedOnce(raw: seq<string>, seen: set<string>)
    ensures NoDuplicates(NormalizedFrom(raw, seen))
  {
    if raw != [] {
      var h := NormalizePattern(raw[0]);
      var seen' := if h.Some? && h.value !in seen then seen + {h.value} else seen;
      NormalizedOnce(raw[1..], seen');
      if h.Some? {
        NormalizedMembers(raw[1..], seen', h.value);
      }
    }
  }

  lemma NormalizedExactly(raw: seq<string>, seen: set<string>)
    ensures forall p :: p in NormalizedFrom(raw, seen) <==> p !in seen && SomeYields(raw, p)
    ensures NoDuplicates(NormalizedFrom(raw, seen))
    ensures forall p :: p in NormalizedFrom(raw, seen) ==> p != ""
  {
    forall p ensures p in NormalizedFrom(raw, seen) <==> p !in seen && SomeYields(raw, p) {
      NormalizedMembers(raw, seen, p);
    }
    NormalizedOnce(raw, seen);
  }

  // --- the fingerprint ---

  /** What fingerprintForPatterns hashes. */
  function PreImage(patterns: seq<string>): string {
    Join(Sort(patterns, StringLe), "\0")
  }

  ghost predicate NulFree(patterns: seq<string>) {
    forall p :: p in patterns ==> '\0' !in p
  }

  /** A pattern list as a matcher holds it. */
  ghost predicate IsNormalized(patterns: seq<string>) {
    NoDuplicates(patterns) && forall p :: p in patterns ==> p != ""
  }

  lemma SplitOfPreImage(patterns: seq<string>)
    requires NulFree(patterns) && patterns != []
    ensures Split(PreImage(patterns), '\0') == Sort(patterns, StringLe)
  {
    var sorted := Sort(patterns, StringLe);
    SortMembers(patterns, StringLe);
    forall k | 0 <= k < |sorted| ensures '\0' !in sorted[k] {
      assert sorted[k] in sorted;
    }
    SplitOfJoin(sorted, '\0');
    assert "\0" == ['\0'];
  }

  lemma PreImageEmpty(patterns: seq<string>)
    requires forall p :: p in patterns ==> p != ""
    ensures PreImage(patterns) == "" <==> patterns == []
  {
    var sorted := Sort(patterns, StringLe);
    SortMembers(patterns, StringLe);
    if patterns != [] {
      assert sorted[0] in sorted;
      assert |sorted| > 1 ==> PreImage(patterns) == sorted[0] + "\0" + Join(sorted[1..], "\0");
    }
  }

  /** The hashed string is the same exactly when the pattern sets are. */
  lemma FingerprintCanonical(a: seq<string>, b: seq<string>)
    requires IsNormalized(a) && IsNormalized(b) && NulFree(a) && NulFree(b)
    ensures PreImage(a) == PreImage(b) <==> forall p :: p in a <==> p in b
  {
    StringLeTotalOrder();
    SortSorted(a, StringLe);
    SortSorted(b, StringLe);
    SortMembers(a, StringLe);
    SortMembers(b, StringLe);
    if forall p :: p in a <==> p in b {
      SortNoDuplicates(a, StringLe);
      SortNoDuplicates(b, StringLe);
      SortedUnique(Sort(a, StringLe), Sort(b, StringLe), StringLe);
    }
    if PreImage(a) == PreImage(b) {
      PreImageEmpty(a);
      PreImageEmpty(b);
      if a != [] && b != [] {
        SplitOfPreImage(a);
        SplitOfPreImage(b);
      }
    }
  }

  /** The parts of all patterns between NULs, in the order in which they are hashed. */
  function Fields(patterns: seq<string>): seq<string> {
    if patterns == [] then [] else Split(patterns[0], '\0') + Fields(patterns[1..])
  }

  lemma {:induction false} SplitOfJoined(parts: seq<string>)
    requires parts != []
    ensures Split(Join(parts, "\0"), '\0') == Fields(parts)
  {
    if |parts| == 1 {
      assert Fields(parts) == Split(parts[0], '\0') + [];
    } else {
      SplitOfJoined(parts[1..]);
      JoinHead(parts);
      SplitAppend(parts[0], '\0', Join(parts[1..], "\0"));
    }
  }

  lemma JoinHead(parts: seq<string>)
    requires |parts| > 1
    ensures Join(parts, "\0") == parts[0] + ['\0'] + Join(parts[1..], "\0")
  {
    assert "\0" == ['\0'];
  }

  lemma JoinedIff(a: seq<string>, b: seq<string>)
    requires a != [] && b != []
    ensures Join(a, "\0") == Join(b, "\0") <==> Fields(a) == Fields(b)
  {
    SplitOfJoined(a);
    SplitOfJoined(b);
    JoinOfSplit(Join(a, "\0"), '\0');
    JoinOfSplit(Join(b, "\0"), '\0');
  }

  /** Whatever the patterns contain, two matchers hash the same string exactly when their NUL-separated fields agree. */
  lemma SamePreImageIff(a: seq<string>, b: seq<string>)
    requires IsNormalized(a) && IsNormalized(b)
    ensures PreImage(a) == PreImage(b) <==> Fields(Sort(a, StringLe)) == Fields(Sort(b, StringLe))
  {
    PreImageEmpty(a);
    PreImageEmpty(b);
    if a != [] && b != [] {
      JoinedIff(Sort(a, StringLe), Sort(b, StringLe));
    }
  }

  /** A NUL inside a pattern can make two different rule sets hash the same string. */
  lemma NulInPatternCollides()
    ensures PreImage(["a", "b"]) == PreImage(["a\0b"])
  {
    assert Sort(["b"], StringLe) == ["b"];
    assert ["a", "b"][1..] == ["b"];
    assert Sort(["a", "b"], StringLe) == ["a", "b"];
    assert Sort(["a\0b"], StringLe) == ["a\0b"];
    assert Join(["a", "b"], "\0") == "a" + "\0" + Join(["b"], "\0");
  }

  // --- matching ---

  function StripTrailingSlashes(p: string): string {
    if p != "" && p[|p| - 1] == '/' then StripTrailingSlashes(p[..|p| - 1]) else p
  }

  function AfterLastSlash(p: string): string {
    if p == "" || p[|p| - 1] == '/' then "" else AfterLastSlash(p[..|p| - 1]) + [p[|p| - 1]]
  }

  /** path.Base. */
  function Base(p: string): string {
    if p == "" then "."
    else
      var last := AfterLastSlash(StripTrailingSlashes(p));
      if last == "" then "/" else last
  }

  predicate Contains(s: string, t: string) {
    exists i :: 0 <= i <= |s| && t <= s[i..]
  }

  predicate HasMeta(pattern: string) {
    '*' in pattern || '?' in pattern || '[' in pattern || ']' in pattern
  }

  /** Whether one pattern matches a non-empty path. */
  predicate MatchesPattern(glob: Glob, relPath: string, rawPattern: string) {
    var anchored := "/" <= rawPattern;
    var pattern := TrimPrefix(rawPattern, "/");
    var segments := Split(relPath, '/');
    if pattern == "" then false
    else if Base(relPath) == pattern then true
    else if HasMeta(pattern) then
      || glob(pattern, Base(relPath))
      || glob(pattern, relPath)
      || (!anchored && exists i :: 0 <= i < |segments| && glob(pattern, Join(segments[i..], "/")))
    else if '/' in pattern then
      || relPath == pattern
      || pattern + "/" <= relPath
      || (!anchored && (Contains(relPath, "/" + pattern + "/") || HasSuffix(relPath, "/" + pattern)))
    else pattern in segments
  }

  predicate MatchesAny(glob: Glob, relPath: string, patterns: seq<string>) {
    var rel := TrimPrefix(relPath, "./");
    rel != "" && rel != "." && exists k :: 0 <= k < |patterns| && MatchesPattern(glob, rel, patterns[k])
  }

  method Matches(glob: Glob, relPath: string, patterns: seq<string>) returns (matched: bool)
    ensures matched == MatchesAny(glob, relPath, patterns)
  {
    var rel := TrimPrefix(relPath, "./");
    if rel == "" || rel == "." {
      return false;
    }
    var name := Base(rel);
    var segments := Split(rel, '/');
    for k := 0 to |patterns|
      invariant forall j :: 0 <= j < k ==> !MatchesPattern(glob, rel, patterns[j])
    {
      var anchored := "/" <= patterns[k];
      var pattern := TrimPrefix(patterns[k], "/");
      if pattern == "" {
        continue;
      }
      if name == pattern {
        return true;
      }
      if HasMeta(pattern) {
        if glob(pattern, name) || glob(pattern, rel) {
          return true;
        }
        if !anchored {
          for i := 0 to |segments|
            invariant forall j :: 0 <= j < i ==> !glob(pattern, Join(segments[j..], "/"))
          {
            if glob(pattern, Join(segments[i..], "/")) {
              return true;
            }
          }
        }
        continue;
      }
      if '/' in pattern {
        if rel == pattern || pattern + "/" <= rel {
          return true;
        }
        if !anchored && (Contains(rel, "/" + pattern + "/") || HasSuffix(rel, "/" + pattern)) {
          return true;
        }
        continue;
      }
      for i := 0 to |segments|
        invariant pattern !in segments[..i]
      {
        if segments[i] == pattern {
          return true;
        }
      }
      assert segments[..|segments|] == segments;
    }
    matched := false;
  }

  /** The order of the patterns and repeated patterns do not matter, so equal fingerprints decide every path alike. */
  lemma SameFingerprintSameVerdict(a: seq<string>, b: seq<string>, glob: Glob, relPath: string)
    requires IsNormalized(a) && IsNormalized(b) && NulFree(a) && NulFree(b)
    requires PreImage(a) == PreImage(b)
    ensures MatchesAny(glob, relPath, a) <==> MatchesAny(glob, relPath, b)
  {
    FingerprintCanonical(a, b);
    SameMembersSameVerdict(a, b, glob, relPath);
    SameMembersSameVerdict(b, a, glob, relPath);
  }

  lemma SameMembersSameVerdict(a: seq<string>, b: seq<string>, glob: Glob, relPath: string)
    requires forall p :: p in a ==> p in b
    ensures MatchesAny(glob, relPath, a) ==> MatchesAny(glob, relPath, b)
  {
    var rel := TrimPrefix(relPath, "./");
    if MatchesAny(glob, relPath, a) {
      var k :| 0 <= k < |a| && MatchesPattern(glob, rel, a[k]);
      assert a[k] in a;
      var j :| 0 <= j < |b| && b[j] == a[k];
    }
  }

  // --- a match without globs reaches everything below ---

  predicate PlainPattern(rawPattern: string) {
    !HasMeta(TrimPrefix(rawPattern, "/"))
  }

  lemma {:induction false} AfterLastSlashIsSegment(p: string)
    ensures AfterLastSlash(p) in Split(p, '/') && '/' !in AfterLastSlash(p)
    ensures p != "" && p[|p| - 1] != '/' ==> AfterLastSlash(p) != ""
  {
    var last := AfterLastSlash(p);
    AfterLastSlashTail(p);
    if |last| == |p| {
      assert p == last;
      assert IndexOf(p, '/') == |p|;
    } else {
      var n := |p| - |last|;
      assert p == p[..n - 1] + ['/'] + last;
      SplitAppend(p[..n - 1], '/', last);
      assert IndexOf(last, '/') == |last|;
    }
  }

  lemma {:induction false} AfterLastSlashTail(p: string)
    ensures var last := AfterLastSlash(p);
            && |last| <= |p| && last == p[|p| - |last|..] && '/' !in last
            && (|last| < |p| ==> p[|p| - |last| - 1] == '/')
  {
    if p != "" && p[|p| - 1] != '/' {
      AfterLastSlashTail(p[..|p| - 1]);
    }
  }

  lemma {:induction false} StripTrailingSlashesSegments(p: string, segment: string)
    requires segment in Split(StripTrailingSlashes(p), '/')
    ensures segment in Split(p, '/')
  {
    if p != "" && p[|p| - 1] == '/' {
      var q := p[..|p| - 1];
      StripTrailingSlashesSegments(q, segment);
      assert p == q + ['/'] + "";
      SplitAppend(q, '/', "");
    }
  }

  lemma {:induction false} StripTrailingSlashesShape(p: string)
    ensures var t := StripTrailingSlashes(p); t == "" || t[|t| - 1] != '/'
    ensures StripTrailingSlashes(p) == "" && p != "" ==> p[0] == '/'
  {
    if p != "" && p[|p| - 1] == '/' {
      StripTrailingSlashesShape(p[..|p| - 1]);
    }
  }

  lemma BaseIsSegment(p: string)
    requires p != ""
    ensures Base(p) in Split(p, '/') || (Base(p) == "/" && p[0] == '/')
    ensures Base(p) == "/" || '/' !in Base(p)
  {
    var t := StripTrailingSlashes(p);
    StripTrailingSlashesShape(p);
    AfterLastSlashIsSegment(t);
    if t != "" {
      StripTrailingSlashesSegments(p, AfterLastSlash(t));
    }
  }

  lemma PlainMatchReachesBelow(glob: Glob, relPath: string, rawPattern: string, below: string)
    requires PlainPattern(rawPattern) && relPath != "" && MatchesPattern(glob, relPath, rawPattern)
    ensures MatchesPattern(glob, relPath + "/" + below, rawPattern)
  {
    var pattern := TrimPrefix(rawPattern, "/");
    var deeper := relPath + "/" + below;
    assert deeper == relPath + ['/'] + below;
    SplitAppend(relPath, '/', below);
    BaseIsSegment(relPath);
    if '/' in pattern {
      if Base(relPath) == pattern {
        assert pattern == "/" && pattern + "/" <= deeper by {
          SlashPathPrefix(relPath, below);
        }
      } else {
        SlashPatternReachesBelow(relPath, pattern, below, "/" <= rawPattern);
      }
    }
  }

  lemma SlashPathPrefix(relPath: string, below: string)
    requires relPath != "" && Base(relPath) == "/"
    ensures "//" <= relPath + "/" + below
  {
    var deeper := relPath + "/" + below;
    StripTrailingSlashesShape(relPath);
    AfterLastSlashIsSegment(StripTrailingSlashes(relPath));
    assert StripTrailingSlashes(relPath) == "";
    AllSlashes(relPath);
    assert deeper[0] == '/' && deeper[1] == '/';
  }

  lemma {:induction false} AllSlashes(p: string)
    requires StripTrailingSlashes(p) == ""
    ensures forall k :: 0 <= k < |p| ==> p[k] == '/'
  {
    if p != "" {
      AllSlashes(p[..|p| - 1]);
    }
  }

  lemma SlashPatternReachesBelow(relPath: string, pattern: string, below: string, anchored: bool)
    requires
      || relPath == pattern
      || pattern + "/" <= relPath
      || (!anchored && (Contains(relPath, "/" + pattern + "/") || HasSuffix(relPath, "/" + pattern)))
    ensures var deeper := relPath + "/" + below;
      || pattern + "/" <= deeper
      || (!anchored && Contains(deeper, "/" + pattern + "/"))
  {
    var deeper := relPath + "/" + below;
    var infix := "/" + pattern + "/";
    if relPath == pattern {
      assert deeper == (pattern + "/") + below;
    } else if pattern + "/" <= relPath {
      assert deeper[..|pattern| + 1] == relPath[..|pattern| + 1];
    } else if Contains(relPath, infix) {
      var i :| 0 <= i <= |relPath| && infix <= relPath[i..];
      assert deeper[i..] == relPath[i..] + ("/" + below);
    } else {
      var i := |relPath| - |pattern| - 1;
      assert deeper[i..] == relPath[i..] + ("/" + below);
      assert deeper[i..] == infix + below;
    }
  }

  /** For patterns without glob characters, what lies below an ignored path is ignored. */
  lemma IgnoredReachesBelow(glob: Glob, relPath: string, patterns: seq<string>, below: string)
    requires forall p :: p in patterns ==> PlainPattern(p)
    requires MatchesAny(glob, relPath, patterns)
    ensures MatchesAny(glob, relPath + "/" + below, patterns)
  {
    var rel := TrimPrefix(relPath, "./");
    var deeper := relPath + "/" + below;
    var k :| 0 <= k < |patterns| && MatchesPattern(glob, rel, patterns[k]);
    assert patterns[k] in patterns;
    PlainMatchReachesBelow(glob, rel, patterns[k], below);
    TrimDotSlash(relPath, below);
  }

  lemma TrimDotSlash(relPath: string, below: string)
    requires relPath != "" && relPath != "."
    ensures TrimPrefix(relPath + "/" + below, "./") == TrimPrefix(relPath, "./") + "/" + below
  {
    var deeper := relPath + "/" + below;
    assert deeper == relPath + ("/" + below);
    if "./" <= relPath {
      assert deeper[2..] == relPath[2..] + ("/" + below);
    } else {
      assert deeper[0] == relPath[0];
      assert |relPath| > 1 ==> deeper[1] == relPath[1];
    }
  }
}
