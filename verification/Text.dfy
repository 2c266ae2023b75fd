/**
 The string operations the Go sources call (packages strings, strconv and fmt),
 with the laws about them that the proofs need. A string is a sequence of code
 points; where the source works on bytes, every code point stands for one byte.
 */
module Text {
  import opened Wrappers
  import opened Sequences

  /** White space as strings.TrimSpace sees it. */
  predicate IsSpace(c: char) {
    || '\t' <= c <= '\r'
    || c == ' ' || c == '\U{85}' || c == '\U{A0}' || c == '\U{1680}'
    || '\U{2000}' <= c <= '\U{200A}'
    || c == '\U{2028}' || c == '\U{2029}' || c == '\U{202F}' || c == '\U{205F}' || c == '\U{3000}'
  }

  predicate Blank(s: string) {
    forall i :: 0 <= i < |s| ==> IsSpace(s[i])
  }

  predicate Trimmed(s: string) {
    s == "" || (!IsSpace(s[0]) && !IsSpace(s[|s| - 1]))
  }

  function TrimLeft(s: string): string {
    if s != "" && IsSpace(s[0]) then TrimLeft(s[1..]) else s
  }

  function TrimRight(s: string): string {
    if s != "" && IsSpace(s[|s| - 1]) then TrimRight(s[..|s| - 1]) else s
  }

  function TrimSpace(s: string): string {
    TrimRight(TrimLeft(s))
  }

  lemma {:induction false} TrimLeftDrops(s: string)
    ensures var r := TrimLeft(s);
            && |r| <= |s| && r == s[|s| - |r|..] && Blank(s[..|s| - |r|])
            && (r == "" || !IsSpace(r[0]))
  {
    if s != "" && IsSpace(s[0]) {
      TrimLeftDrops(s[1..]);
      var n := |s| - |TrimLeft(s)|;
      assert s[n..] == s[1..][n - 1..];
      assert s[..n] == [s[0]] + s[1..][..n - 1];
    }
  }

  lemma {:induction false} TrimRightDrops(s: string)
    ensures var r := TrimRight(s);
            && r <= s && Blank(s[|r|..])
            && (r == "" || !IsSpace(r[|r| - 1]))
  {
    if s != "" && IsSpace(s[|s| - 1]) {
      TrimRightDrops(s[..|s| - 1]);
      var n := |TrimRight(s)|;
      assert s[n..] == s[..|s| - 1][n..] + [s[|s| - 1]];
    }
  }

  lemma TrimSpaceTrims(s: string)
    ensures Trimmed(TrimSpace(s)) && |TrimSpace(s)| <= |s|
  {
    TrimLeftDrops(s);
    TrimRightDrops(TrimLeft(s));
  }

  lemma TrimSpaceOfTrimmed(s: string)
    requires Trimmed(s)
    ensures TrimSpace(s) == s
  {
  }

  lemma TrimSpaceEmptyIffBlank(s: string)
    ensures TrimSpace(s) == "" <==> Blank(s)
  {
    var l := TrimLeft(s);
    TrimLeftDrops(s);
    TrimRightDrops(l);
    if TrimSpace(s) == "" {
      assert l[|TrimRight(l)|..] == l;
      assert s[..|s| - |l|] == s;
    } else {
      assert l != "" && l[0] == s[|s| - |l|];
    }
  }

  lemma PrefixCharacters(p: string, s: string, c: char)
    ensures p <= s && c in p ==> c in s
  {
  }

  /** Two readings of one string as head and tail: the shorter head is a prefix of the longer. */
  lemma TwoReadings(p: string, x: string, q: string, z: string)
    requires p + x == q + z && |p| <= |q|
    ensures p <= q && x == q[|p|..] + z
  {
    assert p == (p + x)[..|p|] == q[..|p|];
    assert x == (q + z)[|p|..];
  }

  predicate HasSuffix(s: string, t: string) {
    |t| <= |s| && s[|s| - |t|..] == t
  }

  function TrimPrefix(s: string, p: string): (r: string) {
    if p <= s then s[|p|..] else s
  }

  function TrimSuffix(s: string, t: string): (r: string) {
    if HasSuffix(s, t) then s[..|s| - |t|] else s
  }

  /** The first index of c in s, or |s| when there is none. */
  function IndexOf(s: string, c: char): (i: nat)
    ensures i <= |s| && c !in s[..i]
    ensures i < |s| ==> s[i] == c
  {
    if s == "" || s[0] == c then 0 else 1 + IndexOf(s[1..], c)
  }

  lemma IndexOfAppend(a: string, c: char, b: string)
    requires c !in a
    ensures IndexOf(a + [c] + b, c) == |a|
  {
    var s := a + [c] + b;
    assert forall k :: 0 <= k < |a| ==> s[k] == a[k];
    assert s[|a|] == c;
    assert forall n :: |a| < n <= |s| ==> s[|a|] in s[..n];
  }

  /** A string reads in one way as what comes before its first c, and what comes after. */
  lemma SameAtFirst(a: string, c: char, b: string, a': string, b': string)
    requires c !in a && c !in a' && a + [c] + b == a' + [c] + b'
    ensures a == a' && b == b'
  {
    IndexOfAppend(a, c, b);
    IndexOfAppend(a', c, b');
    var s := a + [c] + b;
    assert a == s[..|a|] && b == s[|a| + 1..];
    assert a' == s[..|a|] && b' == s[|a| + 1..];
  }

  /** After this c there is no other. */
  lemma LastOfItsKind(a: string, c: char, b: string)
    requires c !in b
    ensures (a + [c] + b)[|a|] == c && forall k :: |a| < k < |a + [c] + b| ==> (a + [c] + b)[k] != c
  {
    var s := a + [c] + b;
    forall k | |a| < k < |s| ensures s[k] != c {
      assert s[k] == b[k - |a| - 1];
    }
  }

  /** It also reads in one way as what comes before its last c, and what comes after. */
  lemma SameAtLast(a: string, c: char, b: string, a': string, b': string)
    requires c !in b && c !in b' && a + [c] + b == a' + [c] + b'
    ensures a == a' && b == b'
  {
    LastOfItsKind(a, c, b);
    LastOfItsKind(a', c, b');
    var s := a + [c] + b;
    assert |a| == |a'|;
    assert a == s[..|a|] && b == s[|a| + 1..];
    assert a' == s[..|a'|] && b' == s[|a'| + 1..];
  }

  /** strings.Split with a one-character separator. */
  function Split(s: string, c: char): (parts: seq<string>)
    ensures |parts| >= 1
    ensures forall k :: 0 <= k < |parts| ==> c !in parts[k]
    decreases |s|
  {
    var i := IndexOf(s, c);
    if i == |s| then
      assert s[..i] == s;
      [s]
    else [s[..i]] + Split(s[i + 1..], c)
  }

  /** strings.Join. */
  function Join(parts: seq<string>, sep: string): (s: string) {
    if |parts| == 0 then ""
    else if |parts| == 1 then parts[0]
    else parts[0] + sep + Join(parts[1..], sep)
  }

  lemma {:induction false} JoinOfSplit(s: string, c: char)
    ensures Join(Split(s, c), [c]) == s
    decreases |s|
  {
    var i := IndexOf(s, c);
    if i < |s| {
      var rest := Split(s[i + 1..], c);
      JoinOfSplit(s[i + 1..], c);
      CutAt(s, i);
      JoinOfMore(s[..i], rest, [c]);
    }
  }

  lemma JoinOfMore(h: string, rest: seq<string>, sep: string)
    requires |rest| >= 1
    ensures Join([h] + rest, sep) == h + sep + Join(rest, sep)
  {
    assert ([h] + rest)[1..] == rest;
  }

  lemma {:induction false} SplitOfJoin(parts: seq<string>, c: char)
    requires |parts| >= 1
    requires forall k :: 0 <= k < |parts| ==> c !in parts[k]
    ensures Split(Join(parts, [c]), c) == parts
  {
    if |parts| == 1 {
      assert IndexOf(parts[0], c) == |parts[0]|;
    } else {
      SplitOfJoin(parts[1..], c);
      SplitStep(parts[0], c, Join(parts[1..], [c]));
      HeadAndTail(parts);
    }
  }

  lemma HeadAndTail(parts: seq<string>)
    requires |parts| >= 1
    ensures parts == [parts[0]] + parts[1..]
  {
  }

  lemma SplitStep(h: string, c: char, rest: string)
    requires c !in h
    ensures Split(h + [c] + rest, c) == [h] + Split(rest, c)
  {
    var s := h + [c] + rest;
    IndexOfAppend(h, c, rest);
    assert s[..|h|] == h && s[|h| + 1..] == rest;
  }

  lemma Regroup(h: string, x: string, t: string, y: string, b: string)
    ensures h + x + t + y + b == h + x + (t + y + b)
  {
  }

  lemma CutAt(a: string, i: nat)
    requires i < |a|
    ensures a == a[..i] + [a[i]] + a[i + 1..]
  {
  }

  /** Splitting at a separator first is splitting each side. */
  lemma {:induction false} SplitAppend(a: string, c: char, b: string)
    ensures Split(a + [c] + b, c) == Split(a, c) + Split(b, c)
    decreases |a|
  {
    var i := IndexOf(a, c);
    if i == |a| {
      assert a[..i] == a;
      SplitStep(a, c, b);
    } else {
      var h, t := a[..i], a[i + 1..];
      CutAt(a, i);
      Regroup(h, [c], t, [c], b);
      SplitStep(h, c, t);
      SplitStep(h, c, t + [c] + b);
      SplitAppend(t, c, b);
      ConcatOne(h, Split(t, c), Split(b, c));
    }
  }

  lemma ConcatOne(h: string, a: seq<string>, b: seq<string>)
    ensures [h] + (a + b) == [h] + a + b
  {
  }

  /** Joining a concatenation puts one separator between the halves. */
  lemma {:induction false} JoinAppend(a: seq<string>, b: seq<string>, sep: string)
    requires |a| >= 1 && |b| >= 1
    ensures Join(a + b, sep) == Join(a, sep) + sep + Join(b, sep)
  {
    if |a| == 1 {
      assert (a + b)[1..] == b;
    } else {
      JoinAppend(a[1..], b, sep);
      assert (a + b)[1..] == a[1..] + b;
    }
  }

  // --- decimal numbers ---

  predicate IsDigit(c: char) {
    '0' <= c <= '9'
  }

  predicate AllDigits(s: string) {
    forall i :: 0 <= i < |s| ==> IsDigit(s[i])
  }

  function DigitChar(d: nat): (c: char)
    requires d < 10
    ensures IsDigit(c) && c as int - '0' as int == d
  {
    ('0' as int + d) as char
  }

  /** The digits of a natural number, as fmt prints it with %d. */
  function Digits(n: nat): (s: string)
    ensures |s| >= 1 && AllDigits(s)
  {
    if n < 10 then [DigitChar(n)] else Digits(n / 10) + [DigitChar(n % 10)]
  }

  function DigitsValue(s: string): (n: nat)
    requires AllDigits(s)
  {
    if s == "" then 0
    else 10 * DigitsValue(s[..|s| - 1]) + (s[|s| - 1] as int - '0' as int)
  }

  lemma {:induction false} DigitsRoundTrip(n: nat)
    ensures DigitsValue(Digits(n)) == n
  {
    var s := Digits(n);
    if n < 10 {
      assert s[..0] == "";
    } else {
      DigitsRoundTrip(n / 10);
      assert s[..|s| - 1] == Digits(n / 10);
    }
  }

  /** fmt's %d on an int. */
  function Decimal(n: int): (s: string)
    ensures |s| >= 1 && ':' !in s
    ensures n >= 0 ==> AllDigits(s)
  {
    if n < 0 then "-" + Digits(-n) else Digits(n)
  }

  const MIN_INT64: int := -0x8000_0000_0000_0000
  const MAX_INT64: int := 0x7FFF_FFFF_FFFF_FFFF

  predicate IsInt64(n: int) {
    MIN_INT64 <= n <= MAX_INT64
  }

  /** strconv.Atoi and strconv.ParseInt(s, 10, 64): an optional sign, at least one digit, in range. */
  function ParseInt64(s: string): (r: Option<int>)
    ensures r.Some? ==> IsInt64(r.value)
  {
    var negative := s != "" && s[0] == '-';
    var digits := if s != "" && (s[0] == '-' || s[0] == '+') then s[1..] else s;
    if digits == "" || !AllDigits(digits) then None
    else
      var v: int := DigitsValue(digits);
      var n := if negative then -v else v;
      if IsInt64(n) then Some(n) else None
  }

  /** What a printed number says. */
  lemma ValueOfDecimal(n: int)
    ensures var s := Decimal(n);
            if n < 0 then s[0] == '-' && AllDigits(s[1..]) && -n == DigitsValue(s[1..])
            else s[0] != '-' && AllDigits(s) && n == DigitsValue(s)
  {
    if n < 0 {
      DigitsRoundTrip(-n);
      MinusFirst(Digits(-n));
    } else {
      DigitsRoundTrip(n);
      assert IsDigit(Digits(n)[0]);
    }
  }

  lemma MinusFirst(digits: string)
    ensures ("-" + digits)[0] == '-' && ("-" + digits)[1..] == digits
  {
  }

  lemma ParseOfDecimal(n: int)
    requires IsInt64(n)
    ensures ParseInt64(Decimal(n)) == Some(n)
  {
    ValueOfDecimal(n);
    if n >= 0 {
      assert IsDigit(Decimal(n)[0]);
    }
  }

  lemma DecimalInjective(a: int, b: int)
    requires Decimal(a) == Decimal(b)
    ensures a == b
  {
    ValueOfDecimal(a);
    ValueOfDecimal(b);
  }

  lemma SignOfDecimal(n: int, rest: string)
    ensures (Decimal(n) + rest)[0] == '-' <==> n < 0
  {
    ValueOfDecimal(n);
    assert (Decimal(n) + rest)[0] == Decimal(n)[0];
  }

  lemma SameUnsigned(n: nat, rest: string, n': nat, rest': string)
    requires Digits(n) + "-" + rest == Digits(n') + "-" + rest'
    ensures n == n' && rest == rest'
  {
    assert !IsDigit('-');
    SameAtFirst(Digits(n), '-', rest, Digits(n'), rest');
    DigitsRoundTrip(n);
    DigitsRoundTrip(n');
  }

  lemma WithoutSign(digits: string, rest: string)
    ensures ("-" + digits + "-" + rest)[1..] == digits + "-" + rest
  {
  }

  /** Two numbers with a dash between them can be told apart, whatever their signs. */
  lemma SameNumbers(n: int, m: int, n': int, m': int)
    requires Decimal(n) + "-" + Decimal(m) == Decimal(n') + "-" + Decimal(m')
    ensures n == n' && m == m'
  {
    ConcatAssociates(Decimal(n), "-", Decimal(m));
    ConcatAssociates(Decimal(n'), "-", Decimal(m'));
    SignOfDecimal(n, "-" + Decimal(m));
    SignOfDecimal(n', "-" + Decimal(m'));
    if n < 0 {
      WithoutSign(Digits(-n), Decimal(m));
      WithoutSign(Digits(-n'), Decimal(m'));
      SameUnsigned(-n, Decimal(m), -n', Decimal(m'));
    } else {
      SameUnsigned(n, Decimal(m), n', Decimal(m'));
    }
    DecimalInjective(m, m');
  }

  /** strings.ToLower on the ASCII range. */
  function ToLowerChar(c: char): char {
    if 'A' <= c <= 'Z' then (c as int + 32) as char else c
  }

  function ToLower(s: string): (r: string)
    ensures |r| == |s|
    ensures forall i :: 0 <= i < |s| ==> r[i] == ToLowerChar(s[i])
  {
    seq(|s|, i requires 0 <= i < |s| => ToLowerChar(s[i]))
  }
}
