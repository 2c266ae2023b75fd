/**
 What the ignore rules mean (pkg/ignore/matcher.go:189-249) for a path given as
 its names, one below the other: which runs of names a pattern has to spell.
 */
module IgnorePaths {
  import opened Wrappers
  import opened Sequences
  import opened Text
  import opened Ignore

  /** The names of the entries from the root down to one of them. */
  ghost predicate AreNames(names: seq<string>) {
    names != [] && forall k :: 0 <= k < |names| ==> names[k] != "" && '/' !in names[k]
  }

  function Spelled(names: seq<string>): string {
    Join(names, "/")
  }

  lemma SpelledSplits(names: seq<string>)
    requires AreNames(names)
    ensures Split(Spelled(names), '/') == names && Spelled(names) != ""
  {
    SplitOfJoin(names, '/');
    assert "/" == ['/'];
  }

  lemma SpelledInTwo(names: seq<string>, j: nat)
    requires 0 < j < |names|
    ensures Spelled(names) == Spelled(names[..j]) + "/" + Spelled(names[j..])
  {
    assert names == names[..j] + names[j..];
    JoinAppend(names[..j], names[j..], "/");
  }

  /** A slash in a path stands between two of its names. */
  lemma CutAtSlash(names: seq<string>, a: string, b: string) returns (j: nat)
    requires AreNames(names) && Spelled(names) == a + "/" + b
    ensures 0 < j < |names| && a == Spelled(names[..j]) && b == Spelled(names[j..])
  {
    SpelledSplits(names);
    SplitAppend(a, '/', b);
    JoinOfSplit(a, '/');
    JoinOfSplit(b, '/');
    assert "/" == ['/'];
    j := |Split(a, '/')|;
    assert names[..j] == Split(a, '/') && names[j..] == Split(b, '/');
  }

  // --- the last name ---

  lemma {:induction false} AfterSlashIs(a: string, last: string)
    requires (a == "" || a[|a| - 1] == '/') && '/' !in last
    ensures AfterLastSlash(a + last) == last
  {
    if last == "" {
      assert a + last == a;
    } else {
      AfterSlashIs(a, last[..|last| - 1]);
      WithoutLast(a, last);
    }
  }

  lemma WithoutLast(a: string, b: string)
    requires b != ""
    ensures var s := a + b;
            s[..|s| - 1] == a + b[..|b| - 1] && s[|s| - 1] == b[|b| - 1] && b == b[..|b| - 1] + [b[|b| - 1]]
  {
  }

  lemma BaseIsLast(names: seq<string>)
    requires AreNames(names)
    ensures Base(Spelled(names)) == names[|names| - 1]
  {
    var n, p := |names| - 1, Spelled(names);
    var a := if n == 0 then "" else Spelled(names[..n]) + "/";
    if n > 0 {
      SpelledInTwo(names, n);
      assert names[n..] == [names[n]];
    }
    assert p == a + names[n];
    AfterSlashIs(a, names[n]);
    assert p[|p| - 1] == names[n][|names[n]| - 1];
  }

  // --- runs of names ---

  /** The names from i to j spell this. */
  predicate SpellsRun(names: seq<string>, i: int, j: int, s: string) {
    0 <= i < j <= |names| && Spelled(names[i..j]) == s
  }

  /** Some run of names spells the pattern, and starts at the root if it has to. */
  ghost predicate SpellsSome(names: seq<string>, s: string, fromRoot: bool) {
    exists i, j :: SpellsRun(names, i, j, s) && (fromRoot ==> i == 0)
  }

  /** The slash rule as it is coded. */
  predicate SlashRule(path: string, pattern: string, anchored: bool) {
    || path == pattern
    || pattern + "/" <= path
    || (!anchored && (Contains(path, "/" + pattern + "/") || HasSuffix(path, "/" + pattern)))
  }

  lemma SlashRuleSpells(names: seq<string>, pattern: string, anchored: bool)
    requires AreNames(names) && SlashRule(Spelled(names), pattern, anchored)
    ensures SpellsSome(names, pattern, anchored)
  {
    var path := Spelled(names);
    if path == pattern {
      assert names[0..|names|] == names;
      assert SpellsRun(names, 0, |names|, pattern);
    } else if pattern + "/" <= path {
      assert path == pattern + "/" + path[|pattern| + 1..];
      var j := CutAtSlash(names, pattern, path[|pattern| + 1..]);
      assert names[0..j] == names[..j] && SpellsRun(names, 0, j, pattern);
    } else if Contains(path, "/" + pattern + "/") {
      var k :| 0 <= k <= |path| && "/" + pattern + "/" <= path[k..];
      InfixSpells(names, pattern, k);
    } else {
      var k := |path| - |pattern| - 1;
      assert path == path[..k] + "/" + pattern;
      var i := CutAtSlash(names, path[..k], pattern);
      assert names[i..|names|] == names[i..] && SpellsRun(names, i, |names|, pattern);
    }
  }

  lemma InfixSpells(names: seq<string>, pattern: string, k: nat)
    requires AreNames(names) && k <= |Spelled(names)| && "/" + pattern + "/" <= Spelled(names)[k..]
    ensures SpellsSome(names, pattern, false)
  {
    var path := Spelled(names);
    var rest := path[k..][|pattern| + 2..];
    assert path[k..] == "/" + (pattern + "/" + rest);
    assert path == path[..k] + "/" + (pattern + "/" + rest);
    var i := CutAtSlash(names, path[..k], pattern + "/" + rest);
    var j := CutAtSlash(names[i..], pattern, rest);
    assert names[i..][..j] == names[i..i + j];
    assert SpellsRun(names, i, i + j, pattern);
  }

  lemma SpellsSlashRule(names: seq<string>, pattern: string, anchored: bool)
    requires AreNames(names) && SpellsSome(names, pattern, anchored)
    ensures SlashRule(Spelled(names), pattern, anchored)
  {
    var i, j :| SpellsRun(names, i, j, pattern) && (anchored ==> i == 0);
    var path := Spelled(names);
    if i == 0 {
      assert names[0..j] == names[..j];
      if j == |names| {
        assert names[..j] == names;
      } else {
        SpelledInTwo(names, j);
        assert path == (pattern + "/") + Spelled(names[j..]);
      }
    } else {
      SpelledInTwo(names, i);
      RunInside(names, i, j, pattern);
    }
  }

  lemma RunInside(names: seq<string>, i: nat, j: nat, pattern: string)
    requires 0 < i && SpellsRun(names, i, j, pattern)
    ensures var path := Spelled(names); Contains(path, "/" + pattern + "/") || HasSuffix(path, "/" + pattern)
  {
    var before, tail := Spelled(names[..i]), names[i..];
    SpelledInTwo(names, i);
    assert tail[..j - i] == names[i..j];
    if j == |names| {
      assert tail == names[i..j];
      assert Spelled(names)[|before|..] == "/" + pattern;
    } else {
      SpelledInTwo(tail, j - i);
      assert Spelled(names)[|before|..] == "/" + Spelled(tail);
      assert "/" + pattern + "/" <= Spelled(names)[|before|..];
    }
  }

  /** What a pattern matches, said of the names of the path. */
  ghost predicate Rule(glob: Glob, names: seq<string>, rawPattern: string)
    requires AreNames(names)
  {
    var anchored := "/" <= rawPattern;
    var pattern := TrimPrefix(rawPattern, "/");
    var last := names[|names| - 1];
    && pattern != ""
    && (|| last == pattern
        || if HasMeta(pattern) then
             glob(pattern, last)
             || exists i :: 0 <= i < |names| && (anchored ==> i == 0) && glob(pattern, Spelled(names[i..]))
           else if '/' in pattern then SpellsSome(names, pattern, anchored)
           else pattern in names)
  }

  /**
   A pattern matches a path exactly when it is its last name; or, without glob
   characters, is any of its names, or with slashes spells a run of them, from
   the root if it starts with a slash; or, as a glob, matches the last name or
   what is left of the path from some name on, from the root if it starts with a
   slash.
   */
  lemma MatchesIff(glob: Glob, names: seq<string>, rawPattern: string)
    requires AreNames(names)
    ensures MatchesPattern(glob, Spelled(names), rawPattern) <==> Rule(glob, names, rawPattern)
  {
    var pattern, anchored := TrimPrefix(rawPattern, "/"), "/" <= rawPattern;
    SpelledSplits(names);
    BaseIsLast(names);
    if HasMeta(pattern) {
      assert names[0..] == names;
    } else if '/' in pattern {
      if SlashRule(Spelled(names), pattern, anchored) {
        SlashRuleSpells(names, pattern, anchored);
      }
      if SpellsSome(names, pattern, anchored) {
        SpellsSlashRule(names, pattern, anchored);
      }
    }
  }
}
