/**
 Environment overrides (pkg/lsp/daemon_state.go:133-190): NAME=value entries,
 trimmed, the last one of each name kept, sorted by name.
 */
module EnvOverrides {
  import opened Wrappers
  import opened Text
  import opened Order

  /** What stands before the first '=', when there is one: strings.Cut. */
  function NameBefore(entry: string): Option<string> {
    var i := IndexOf(entry, '=');
    if i < |entry| then Some(entry[..i]) else None
  }

  /** The name under which an entry is kept, if it is kept. */
  function EntryName(entry: string): Option<string> {
    match NameBefore(TrimSpace(entry))
    case None => None
    case Some(before) => if TrimSpace(before) == "" then None else Some(TrimSpace(before))
  }

  /** The entry as it is kept. With a space before the '=' the name comes to stand there twice. */
  function Kept(entry: string, name: string): string {
    name + "=" + TrimPrefix(TrimSpace(entry), name + "=")
  }

  /**
   How entries are read: the name of an entry, the form in which it is kept under
   it, and what stands before its '='.
   */
  datatype Reading = Reading(nameOf: string -> Option<string>, keep: (string, string) -> string,
                             cut: string -> Option<string>)

  const OVERRIDES: Reading := Reading(EntryName, Kept, NameBefore)

  function ByName(env: seq<string>, how: Reading): map<string, string> {
    if env == [] then map[]
    else
      var before, last := ByName(env[..|env| - 1], how), env[|env| - 1];
      match how.nameOf(last)
      case None => before
      case Some(name) => before[name := how.keep(last, name)]
  }

  ghost function SeqOf(names: set<string>): seq<string> {
    if names == {} then []
    else
      var n :| n in names;
      [n] + SeqOf(names - {n})
  }

  lemma {:induction false} SeqOfLists(names: set<string>)
    ensures NoDuplicates(SeqOf(names)) && forall n :: n in SeqOf(names) <==> n in names
  {
    if names != {} {
      var n := SeqOf(names)[0];
      assert SeqOf(names) == [n] + SeqOf(names - {n});
      SeqOfLists(names - {n});
    }
  }

  /** The names in order: a sorted arrangement is unique, so it does not matter from which one sorting starts. */
  ghost function SortedNames(names: set<string>): seq<string> {
    Sort(SeqOf(names), StringLe)
  }

  lemma SortedNamesOf(names: set<string>, listed: seq<string>)
    requires NoDuplicates(listed) && forall n :: n in listed <==> n in names
    ensures Sort(listed, StringLe) == SortedNames(names)
  {
    SeqOfLists(names);
    StringLeTotalOrder();
    SortSorted(listed, StringLe);
    SortSorted(SeqOf(names), StringLe);
    SortMembers(listed, StringLe);
    SortMembers(SeqOf(names), StringLe);
    SortNoDuplicates(listed, StringLe);
    SortNoDuplicates(SeqOf(names), StringLe);
    SortedUnique(Sort(listed, StringLe), SortedNames(names), StringLe);
  }

  lemma SortedNamesList(names: set<string>)
    ensures Sorted(SortedNames(names), StringLe) && NoDuplicates(SortedNames(names))
    ensures forall n :: n in SortedNames(names) <==> n in names
  {
    SeqOfLists(names);
    StringLeTotalOrder();
    SortSorted(SeqOf(names), StringLe);
    SortMembers(SeqOf(names), StringLe);
    SortNoDuplicates(SeqOf(names), StringLe);
  }

  function Values(m: map<string, string>, names: seq<string>): (r: seq<string>)
    requires forall n :: n in names ==> n in m
    ensures |r| == |names| && forall i :: 0 <= i < |r| ==> r[i] == m[names[i]]
  {
    seq(|names|, i requires 0 <= i < |names| => m[names[i]])
  }

  ghost function NormalizedBy(env: seq<string>, how: Reading): seq<string> {
    SortedNamesList(ByName(env, how).Keys);
    Values(ByName(env, how), SortedNames(ByName(env, how).Keys))
  }

  ghost function Normalized(env: seq<string>): seq<string> {
    NormalizedBy(env, OVERRIDES)
  }

  /** Puts an entry under its name, in place of an earlier one. */
  method KeepEntry(byName: map<string, string>, rawEntry: string) returns (r: map<string, string>)
    ensures r == match EntryName(rawEntry) case None => byName case Some(name) => byName[name := Kept(rawEntry, name)]
  {
    var entry := TrimSpace(rawEntry);
    var cut := NameBefore(entry);
    if cut.None? {
      return byName;
    }
    var name := TrimSpace(cut.value);
    if name == "" {
      return byName;
    }
    r := byName[name := name + "=" + TrimPrefix(entry, name + "=")];
  }

  lemma ByNameStep(env: seq<string>, i: nat, how: Reading)
    requires i < |env|
    ensures ByName(env[..i + 1], how) ==
            match how.nameOf(env[i])
            case None => ByName(env[..i], how)
            case Some(name) => ByName(env[..i], how)[name := how.keep(env[i], name)]
  {
    assert env[..i + 1][..i] == env[..i];
  }

  method SortedKeys(byName: map<string, string>) returns (names: seq<string>)
    ensures names == SortedNames(byName.Keys)
  {
    var left := byName.Keys;
    names := [];
    while left != {}
      invariant left <= byName.Keys && NoDuplicates(names)
      invariant forall n :: n in names <==> n in byName.Keys - left
      decreases left
    {
      var name :| name in left;
      assert forall i :: 0 <= i < |names| ==> names[i] in names;
      left := left - {name};
      names := names + [name];
    }
    SortedNamesOf(byName.Keys, names);
    names := Sort(names, StringLe);
  }

  method NormalizeEnvOverrides(env: seq<string>) returns (normalized: seq<string>)
    ensures normalized == Normalized(env)
  {
    var byName: map<string, string> := map[];
    for i := 0 to |env|
      invariant byName == ByName(env[..i], OVERRIDES)
    {
      ByNameStep(env, i, OVERRIDES);
      byName := KeepEntry(byName, env[i]);
    }
    assert env[..|env|] == env;
    var names := SortedKeys(byName);
    SortedNamesList(byName.Keys);
    normalized := ListValues(byName, names);
  }

  method ListValues(byName: map<string, string>, names: seq<string>) returns (normalized: seq<string>)
    requires forall n :: n in names ==> n in byName
    ensures normalized == Values(byName, names)
  {
    normalized := [];
    for i := 0 to |names|
      invariant normalized == Values(byName, names)[..i]
    {
      normalized := normalized + [byName[names[i]]];
    }
  }

  // --- what normalisation keeps ---

  lemma TrimSpaceCharacters(s: string, c: char)
    ensures c !in s ==> c !in TrimSpace(s)
  {
    TrimLeftDrops(s);
    TrimRightDrops(TrimLeft(s));
  }

  /** A kept entry is read back as it is, under the same name. */
  lemma KeptIsFixed(entry: string, name: string)
    requires EntryName(entry) == Some(name)
    ensures TrimSpace(Kept(entry, name)) == Kept(entry, name) && NameBefore(Kept(entry, name)) == Some(name)
    ensures EntryName(Kept(entry, name)) == Some(name) && Kept(Kept(entry, name), name) == Kept(entry, name)
  {
    var e := TrimSpace(entry);
    var before := NameBefore(e).value;
    var rest := TrimPrefix(e, name + "=");
    var kept := Kept(entry, name);
    TrimSpaceTrims(entry);
    TrimSpaceTrims(before);
    TrimSpaceCharacters(before, '=');
    assert kept == name + ['='] + rest;
    IndexOfAppend(name, '=', rest);
    assert kept[..|name|] == name && kept[0] == name[0];
    assert rest != "" ==> kept[|kept| - 1] == rest[|rest| - 1] == e[|e| - 1];
    assert rest == "" ==> kept[|kept| - 1] == '=';
    TrimSpaceOfTrimmed(kept);
    TrimSpaceOfTrimmed(name);
    assert name + "=" <= kept && kept[|name + "="|..] == rest;
  }

  /** What an entry reads as: the part before its first '=' and the rest. */
  lemma ReadEntry(entry: string)
    requires NameBefore(entry).Some?
    ensures var before := NameBefore(entry).value;
            '=' !in before && |before| < |entry| && entry == before + "=" + entry[|before| + 1..]
  {
    assert entry[IndexOf(entry, '=')..IndexOf(entry, '=') + 1] == "=";
  }

  /** An entry is kept as it stands, trimmed, exactly when its name stands right before the '='. */
  lemma KeptAsGivenIff(entry: string, name: string)
    requires EntryName(entry) == Some(name)
    ensures Kept(entry, name) == TrimSpace(entry) <==> NameBefore(TrimSpace(entry)) == Some(name)
  {
    var e := TrimSpace(entry);
    KeptIsFixed(entry, name);
    ReadEntry(e);
    if NameBefore(e) == Some(name) {
      assert name + "=" <= e && e[|name + "="|..] == e[|name| + 1..];
    }
  }

  /** Otherwise its name comes to stand there twice. */
  lemma SpacedEntryIsDoubled(entry: string, name: string)
    requires EntryName(entry) == Some(name) && NameBefore(TrimSpace(entry)) != Some(name)
    ensures Kept(entry, name) == name + "=" + TrimSpace(entry)
  {
    KeptAsGivenIff(entry, name);
    PrefixAndRest(TrimSpace(entry), name + "=");
  }

  lemma PrefixAndRest(s: string, p: string)
    ensures p <= s ==> p + TrimPrefix(s, p) == s
    ensures !(p <= s) ==> TrimPrefix(s, p) == s
  {
  }

  lemma SpacedNameIsDoubled()
    ensures EntryName("FOO =bar") == Some("FOO") && Kept("FOO =bar", "FOO") == "FOO=FOO =bar"
  {
    TrimSpaceOfTrimmed("FOO =bar");
    SpacedNameIsFoo();
    assert "FOO =bar"[3] != "FOO="[3];
  }

  lemma SpacedNameIsFoo()
    ensures NameBefore("FOO =bar") == Some("FOO ") && TrimSpace("FOO ") == "FOO"
  {
    assert "FOO =bar" == "FOO " + ['='] + "bar";
    IndexOfAppend("FOO ", '=', "bar");
    assert "FOO =bar"[..4] == "FOO ";
    TrimmedFoo();
  }

  lemma TrimmedFoo()
    ensures TrimSpace("FOO ") == "FOO"
  {
    assert "FOO "[..3] == "FOO";
    assert TrimRight("FOO ") == TrimRight("FOO");
  }

  /** The entry at i is the last one of its name. */
  ghost predicate LastOfName(env: seq<string>, i: int, name: string, how: Reading) {
    && 0 <= i < |env| && how.nameOf(env[i]) == Some(name)
    && forall j :: i < j < |env| ==> how.nameOf(env[j]) != Some(name)
  }

  lemma {:induction false} ByNameExactly(env: seq<string>, name: string, how: Reading)
    ensures name in ByName(env, how) <==> exists i :: LastOfName(env, i, name, how)
    ensures forall i :: LastOfName(env, i, name, how) ==>
            name in ByName(env, how) && ByName(env, how)[name] == how.keep(env[i], name)
  {
    if env != [] {
      var before, last := env[..|env| - 1], env[|env| - 1];
      ByNameExactly(before, name, how);
      if how.nameOf(last) == Some(name) {
        assert LastOfName(env, |env| - 1, name, how);
      } else {
        forall i ensures LastOfName(before, i, name, how) <==> LastOfName(env, i, name, how) {
        }
      }
    }
  }

  lemma NormalizedByExactly(env: seq<string>, how: Reading, x: string)
    ensures x in NormalizedBy(env, how) <==>
            exists i, name :: LastOfName(env, i, name, how) && x == how.keep(env[i], name)
  {
    var m := ByName(env, how);
    var names := SortedNames(m.Keys);
    SortedNamesList(m.Keys);
    if x in NormalizedBy(env, how) {
      var k :| 0 <= k < |names| && NormalizedBy(env, how)[k] == x;
      ByNameExactly(env, names[k], how);
      assert names[k] in names;
      var i :| LastOfName(env, i, names[k], how);
    }
    if i, name :| LastOfName(env, i, name, how) && x == how.keep(env[i], name) {
      ByNameExactly(env, name, how);
      assert name in names;
      var k :| 0 <= k < |names| && names[k] == name;
      assert NormalizedBy(env, how)[k] == x;
    }
  }

  /** Exactly the last entry of every name is kept. */
  lemma NormalizedExactly(env: seq<string>, x: string)
    ensures x in Normalized(env) <==> exists i, name :: LastOfName(env, i, name, OVERRIDES) && x == Kept(env[i], name)
  {
    NormalizedByExactly(env, OVERRIDES, x);
  }

  /** Every entry is the one kept under its name. */
  ghost predicate FixedMap(m: map<string, string>, how: Reading) {
    forall n :: n in m ==> how.nameOf(m[n]) == Some(n) && how.keep(m[n], n) == m[n] && how.cut(m[n]) == Some(n)
  }

  /** What is kept is read back as it is. */
  ghost predicate Stable(how: Reading) {
    forall entry, name :: how.nameOf(entry) == Some(name) ==>
      && how.nameOf(how.keep(entry, name)) == Some(name)
         && how.keep(how.keep(entry, name), name) == how.keep(entry, name)
      && how.cut(how.keep(entry, name)) == Some(name)
  }

  lemma OverridesAreStable()
    ensures Stable(OVERRIDES)
  {
    forall entry, name | OVERRIDES.nameOf(entry) == Some(name)
      ensures OVERRIDES.nameOf(OVERRIDES.keep(entry, name)) == Some(name)
      ensures OVERRIDES.keep(OVERRIDES.keep(entry, name), name) == OVERRIDES.keep(entry, name)
      ensures OVERRIDES.cut(OVERRIDES.keep(entry, name)) == Some(name)
    {
      KeptIsFixed(entry, name);
    }
  }

  lemma {:induction false} ByNameIsFixed(env: seq<string>, how: Reading)
    requires Stable(how)
    ensures FixedMap(ByName(env, how), how)
  {
    if env != [] {
      ByNameIsFixed(env[..|env| - 1], how);
    }
  }

  lemma {:induction false} ByNameOfValues(m: map<string, string>, names: seq<string>, how: Reading)
    requires FixedMap(m, how) && forall n :: n in names ==> n in m
    ensures ByName(Values(m, names), how) == map n | n in names :: m[n]
  {
    if names != [] {
      var init, last := names[..|names| - 1], names[|names| - 1];
      assert last in names;
      ByNameOfValues(m, init, how);
      assert Values(m, names)[..|names| - 1] == Values(m, init);
      assert names == init + [last];
    }
  }

  lemma NormalizedNames(env: seq<string>, how: Reading)
    requires Stable(how)
    ensures ByName(NormalizedBy(env, how), how) == ByName(env, how)
  {
    var m := ByName(env, how);
    var names := SortedNames(m.Keys);
    SortedNamesList(m.Keys);
    ByNameIsFixed(env, how);
    ByNameOfValues(m, names, how);
    assert (map n | n in names :: m[n]) == m;
  }

  /** Entry i stands under a name, and entry j under a later one. */
  predicate NamesAscend(a: string, b: string, cut: string -> Option<string>) {
    cut(a).Some? && cut(b).Some? && StringLe(cut(a).value, cut(b).value) && cut(a) != cut(b)
  }

  lemma NormalizedByInOrder(env: seq<string>, how: Reading, i: nat, j: nat)
    requires Stable(how) && i < j < |NormalizedBy(env, how)|
    ensures NamesAscend(NormalizedBy(env, how)[i], NormalizedBy(env, how)[j], how.cut)
  {
    var names := SortedNames(ByName(env, how).Keys);
    SortedNamesList(ByName(env, how).Keys);
    ByNameIsFixed(env, how);
    assert names[i] in names && names[j] in names;
  }

  /** The entries are in the order of their names, each name once. */
  lemma NormalizedInOrder(env: seq<string>, i: nat, j: nat)
    requires i < j < |Normalized(env)|
    ensures NamesAscend(Normalized(env)[i], Normalized(env)[j], NameBefore)
  {
    OverridesAreStable();
    NormalizedByInOrder(env, OVERRIDES, i, j);
  }

  /** Normalising twice is normalising once: what was written is what is read back. */
  lemma NormalizedIsFixed(env: seq<string>)
    ensures Normalized(Normalized(env)) == Normalized(env)
  {
    OverridesAreStable();
    NormalizedNames(env, OVERRIDES);
  }

  // --- merging ---

  /** What stands before the '=' of these entries. */
  function CutNames(entries: seq<string>, cut: string -> Option<string>): set<string> {
    if entries == [] then {}
    else
      var init, name := CutNames(entries[..|entries| - 1], cut), cut(entries[|entries| - 1]);
      if name.Some? then init + {name.value} else init
  }

  predicate Overridden(entry: string, names: set<string>, cut: string -> Option<string>) {
    cut(entry).Some? && cut(entry).value in names
  }

  function Others(base: seq<string>, names: set<string>, cut: string -> Option<string>): seq<string> {
    if base == [] then []
    else
      var init, last := base[..|base| - 1], base[|base| - 1];
      if Overridden(last, names, cut) then Others(init, names, cut) else Others(init, names, cut) + [last]
  }

  ghost function Merged(base: seq<string>, overrides: seq<string>): seq<string> {
    Others(base, ByName(overrides, OVERRIDES).Keys, NameBefore) + Normalized(overrides)
  }

  lemma {:induction false} CutNamesOfValues(m: map<string, string>, names: seq<string>, how: Reading)
    requires FixedMap(m, how) && forall n :: n in names ==> n in m
    ensures forall n :: n in CutNames(Values(m, names), how.cut) <==> n in names
  {
    if names != [] {
      var init, last := names[..|names| - 1], names[|names| - 1];
      assert last in names;
      CutNamesOfValues(m, init, how);
      assert Values(m, names)[..|names| - 1] == Values(m, init);
      assert names == init + [last];
    }
  }

  /** The names in front of the '=' of normalised entries are the names they are kept under. */
  lemma NamesOfNormalized(env: seq<string>, how: Reading)
    requires Stable(how)
    ensures CutNames(NormalizedBy(env, how), how.cut) == ByName(env, how).Keys
  {
    SortedNamesList(ByName(env, how).Keys);
    ByNameIsFixed(env, how);
    CutNamesOfValues(ByName(env, how), SortedNames(ByName(env, how).Keys), how);
  }

  lemma OthersStep(base: seq<string>, i: nat, names: set<string>, cut: string -> Option<string>)
    requires i < |base|
    ensures Others(base[..i + 1], names, cut) ==
            Others(base[..i], names, cut) + if Overridden(base[i], names, cut) then [] else [base[i]]
    ensures CutNames(base[..i + 1], cut) == CutNames(base[..i], cut) + if cut(base[i]).Some? then {cut(base[i]).value}
            else {}
  {
    assert base[..i + 1][..i] == base[..i];
  }

  lemma {:induction false} OthersOfNone(base: seq<string>, cut: string -> Option<string>)
    ensures Others(base, {}, cut) == base
  {
    if base != [] {
      OthersOfNone(base[..|base| - 1], cut);
    }
  }

  method NamesOf(entries: seq<string>) returns (names: set<string>)
    ensures names == CutNames(entries, NameBefore)
  {
    var cut := NameBefore;
    names := {};
    for i := 0 to |entries|
      invariant names == CutNames(entries[..i], cut)
    {
      OthersStep(entries, i, {}, cut);
      var name := cut(entries[i]);
      if name.Some? {
        names := names + {name.value};
      }
    }
    assert entries[..|entries|] == entries;
  }

  method WithoutNames(base: seq<string>, names: set<string>) returns (kept: seq<string>)
    ensures kept == Others(base, names, NameBefore)
  {
    var cut := NameBefore;
    kept := [];
    for i := 0 to |base|
      invariant kept == Others(base[..i], names, cut)
    {
      OthersStep(base, i, names, cut);
      var name := cut(base[i]);
      if name.Some? && name.value in names {
        continue;
      }
      kept := kept + [base[i]];
    }
    assert base[..|base|] == base;
  }

  method MergeEnvOverrides(base: seq<string>, overrides: seq<string>) returns (merged: seq<string>)
    ensures merged == Merged(base, overrides)
  {
    var normalizedOverrides := NormalizeEnvOverrides(overrides);
    OverridesAreStable();
    NamesOfNormalized(overrides, OVERRIDES);
    if |normalizedOverrides| == 0 {
      OthersOfNone(base, NameBefore);
      return base;
    }
    var overrideNames := NamesOf(normalizedOverrides);
    merged := WithoutNames(base, overrideNames);
    merged := merged + normalizedOverrides;
  }

  lemma {:induction false} OthersAppend(a: seq<string>, b: seq<string>, names: set<string>,
                                        cut: string -> Option<string>)
    ensures Others(a + b, names, cut) == Others(a, names, cut) + Others(b, names, cut)
  {
    if b == [] {
      assert a + b == a;
    } else {
      OthersAppend(a, b[..|b| - 1], names, cut);
      assert (a + b)[..|a + b| - 1] == a + b[..|b| - 1];
    }
  }

  lemma {:induction false} OthersTwice(base: seq<string>, names: set<string>, cut: string -> Option<string>)
    ensures Others(Others(base, names, cut), names, cut) == Others(base, names, cut)
    ensures forall x :: x in Others(base, names, cut) <==> x in base && !Overridden(x, names, cut)
  {
    if base != [] {
      var init, last := base[..|base| - 1], base[|base| - 1];
      OthersTwice(init, names, cut);
      if !Overridden(last, names, cut) {
        assert (Others(init, names, cut) + [last])[..|Others(init, names, cut)|] == Others(init, names, cut);
      }
      assert base == init + [last];
    }
  }

  lemma {:induction false} NothingLeft(m: map<string, string>, names: seq<string>, how: Reading)
    requires FixedMap(m, how) && forall n :: n in names ==> n in m
    ensures Others(Values(m, names), m.Keys, how.cut) == []
  {
    if names != [] {
      var init, last := names[..|names| - 1], names[|names| - 1];
      assert last in names;
      NothingLeft(m, init, how);
      assert Values(m, names)[..|names| - 1] == Values(m, init);
    }
  }

  /**
   Merging: the overrides are all there, of the rest exactly what no override
   names, and merging the same overrides once more changes nothing.
   */
  lemma MergedExactly(base: seq<string>, overrides: seq<string>)
    ensures forall x :: x in Merged(base, overrides) <==>
              x in Normalized(overrides) || (x in base && !Overridden(x, ByName(overrides, OVERRIDES).Keys, NameBefore))
    ensures Merged(Merged(base, overrides), overrides) == Merged(base, overrides)
  {
    var m, cut := ByName(overrides, OVERRIDES), NameBefore;
    var others, n := Others(base, m.Keys, cut), Normalized(overrides);
    OthersTwice(base, m.Keys, cut);
    OverridesAreStable();
    ByNameIsFixed(overrides, OVERRIDES);
    SortedNamesList(m.Keys);
    NothingLeft(m, SortedNames(m.Keys), OVERRIDES);
    OthersAppend(others, n, m.Keys, cut);
    assert others + [] == others;
  }
}
