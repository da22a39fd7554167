/**
 * The handful of Python `str` operations the scripts rely on, over `seq<char>`:
 * `strip`, `startswith`/`endswith`, `in`, `split(sep)`, `split()`, `lower()`,
 * slicing with `[:n]`, and `str(i)` / `int(s)` for integers.
 * Only the ASCII part of Python's whitespace and case tables is modelled.
 */
module Strings {
  import opened Wrappers

  /** The ASCII characters for which Python's `str.isspace()` holds. */
  const Whitespace: set<char> :=
    {' ', '\t', '\n', '\U{B}', '\U{C}', '\r', '\U{1C}', '\U{1D}', '\U{1E}', '\U{1F}'}

  predicate StartsWith(s: string, prefix: string) {
    |prefix| <= |s| && s[..|prefix|] == prefix
  }

  predicate EndsWith(s: string, suffix: string) {
    |suffix| <= |s| && s[|s| - |suffix|..] == suffix
  }

  /** Python's `t in s` for two strings: `t` occurs in `s` as a contiguous piece. */
  predicate Contains(s: string, t: string)
    decreases |s|
  {
    |t| <= |s| && (s[..|t|] == t || Contains(s[1..], t))
  }

  lemma {:induction false} ContainsAt(s: string, t: string, i: nat)
    requires i + |t| <= |s| && s[i..i + |t|] == t
    ensures Contains(s, t)
    decreases i
  {
    if i > 0 {
      assert s[1..][i - 1..i - 1 + |t|] == s[i..i + |t|];
      ContainsAt(s[1..], t, i - 1);
    }
  }

  /** `t` occurs in `s` starting at index `i`. */
  predicate OccursAt(s: string, t: string, i: nat) {
    i + |t| <= |s| && s[i..i + |t|] == t
  }

  /** If `t` occurs at no index of `s`, then `t in s` is false. */
  lemma {:induction false} NotContains(s: string, t: string)
    requires forall i: nat :: !OccursAt(s, t, i)
    ensures !Contains(s, t)
    decreases |s|
  {
    assert !OccursAt(s, t, 0);
    if |t| < |s| {
      forall i: nat
        ensures !OccursAt(s[1..], t, i)
      {
        assert !OccursAt(s, t, i + 1);
        if i + |t| <= |s[1..]| {
          assert s[1..][i..i + |t|] == s[i + 1..i + 1 + |t|];
        }
      }
      NotContains(s[1..], t);
    }
  }

  /** Index of the first occurrence of `c` in `s`. */
  function IndexOf(s: string, c: char): (r: Option<nat>)
    ensures r.Some? <==> c in s
    ensures r.Some? ==> r.value < |s| && s[r.value] == c && c !in s[..r.value]
    decreases |s|
  {
    if s == [] then None
    else if s[0] == c then Some(0)
    else match IndexOf(s[1..], c)
      case None => None
      case Some(k) =>
        assert s[..k + 1] == [s[0]] + s[1..][..k];
        Some(k + 1)
  }

  /** A position holding `c` with no `c` before it is the one `IndexOf` finds. */
  lemma {:induction false} IndexOfFirst(s: string, c: char, k: nat)
    requires k < |s| && s[k] == c && c !in s[..k]
    ensures IndexOf(s, c) == Some(k)
    decreases k
  {
    if k > 0 {
      assert s[0] == s[..k][0];
      assert s[1..][..k - 1] == s[1..k];
      assert forall x :: x in s[1..k] ==> x in s[..k];
      IndexOfFirst(s[1..], c, k - 1);
    }
  }

  /** Python's `s[:n]` for n >= 0. */
  function Take(s: string, n: nat): (r: string)
    ensures |r| == if |s| < n then |s| else n
    ensures r == s[..|r|]
  {
    if |s| <= n then s else s[..n]
  }

  function TrimStart(s: string, cs: set<char>): (r: string)
    ensures r == [] || r[0] !in cs
    decreases |s|
  {
    if s != [] && s[0] in cs then TrimStart(s[1..], cs) else s
  }

  function TrimEnd(s: string, cs: set<char>): (r: string)
    ensures r == [] || r[|r| - 1] !in cs
    decreases |s|
  {
    if s != [] && s[|s| - 1] in cs then TrimEnd(s[..|s| - 1], cs) else s
  }

  /** Python's `s.strip(chars)`: drop every leading and trailing character that is in `cs`. */
  function StripChars(s: string, cs: set<char>): (r: string)
    ensures r == [] || (r[0] !in cs && r[|r| - 1] !in cs)
    ensures (s == [] || (s[0] !in cs && s[|s| - 1] !in cs)) ==> r == s
  {
    var t := TrimStart(s, cs);
    TrimEndPrefix(t, cs);
    TrimEnd(t, cs)
  }

  lemma {:induction false} TrimStartSuffix(s: string, cs: set<char>)
    ensures |TrimStart(s, cs)| <= |s| && TrimStart(s, cs) == s[|s| - |TrimStart(s, cs)|..]
    ensures forall i :: 0 <= i < |s| - |TrimStart(s, cs)| ==> s[i] in cs
    decreases |s|
  {
    if s != [] && s[0] in cs {
      TrimStartSuffix(s[1..], cs);
    }
  }

  lemma {:induction false} TrimEndPrefix(s: string, cs: set<char>)
    ensures |TrimEnd(s, cs)| <= |s| && TrimEnd(s, cs) == s[..|TrimEnd(s, cs)|]
    ensures forall i :: |TrimEnd(s, cs)| <= i < |s| ==> s[i] in cs
    decreases |s|
  {
    if s != [] && s[|s| - 1] in cs {
      TrimEndPrefix(s[..|s| - 1], cs);
    }
  }

  /** Stripping removes only characters of `cs`: what is left is a piece of `s`. */
  lemma StripCharsInfix(s: string, cs: set<char>)
    ensures StripChars(s, cs) == [] <==> forall i :: 0 <= i < |s| ==> s[i] in cs
    ensures forall c :: c in StripChars(s, cs) ==> c in s
  {
    var t := TrimStart(s, cs);
    var r := TrimEnd(t, cs);
    TrimStartSuffix(s, cs);
    TrimEndPrefix(t, cs);
    assert forall i :: 0 <= i < |t| ==> t[i] == s[|s| - |t| + i];
    assert forall c :: c in r ==> c in t;
  }

  /** Python's `s.strip()` with no argument. */
  function Strip(s: string): string {
    StripChars(s, Whitespace)
  }

  function LowerChar(c: char): char {
    if 'A' <= c <= 'Z' then (c as int + 32) as char else c
  }

  /** Python's `s.lower()` on ASCII letters; every other character is kept. */
  function Lower(s: string): (r: string)
    ensures |r| == |s|
    ensures forall i :: 0 <= i < |s| ==> r[i] == LowerChar(s[i])
  {
    seq(|s|, i requires 0 <= i < |s| => LowerChar(s[i]))
  }

  // ---------------------------------------------------------------- split(sep) / join

  /** Python's `s.split(sep)` for a one-character separator: keeps empty pieces. */
  function SplitOn(s: string, sep: char): (r: seq<string>)
    ensures |r| >= 1
    ensures forall k :: 0 <= k < |r| ==> sep !in r[k]
    decreases |s|
  {
    if s == [] then [""]
    else
      var rest := SplitOn(s[1..], sep);
      if s[0] == sep then [""] + rest
      else [[s[0]] + rest[0]] + rest[1..]
  }

  /** Every piece is made of characters of `s`. */
  lemma {:induction false} SplitOnChars(s: string, sep: char)
    ensures forall k, c :: 0 <= k < |SplitOn(s, sep)| && c in SplitOn(s, sep)[k] ==> c in s
    decreases |s|
  {
    if s != [] {
      SplitOnChars(s[1..], sep);
      assert forall c :: c in s[1..] ==> c in s;
    }
  }

  /** Python's `sep.join(parts)` for a one-character separator. */
  function Join(parts: seq<string>, sep: char): string
    decreases |parts|
  {
    if |parts| == 0 then ""
    else if |parts| == 1 then parts[0]
    else parts[0] + [sep] + Join(parts[1..], sep)
  }

  lemma {:induction false} SplitOnPrefix(p: string, t: string, sep: char)
    requires sep !in p
    ensures SplitOn(p + t, sep) == [p + SplitOn(t, sep)[0]] + SplitOn(t, sep)[1..]
    decreases |p|
  {
    if p != [] {
      assert (p + t)[1..] == p[1..] + t;
      SplitOnPrefix(p[1..], t, sep);
      assert [p[0]] + (p[1..] + SplitOn(t, sep)[0]) == p + SplitOn(t, sep)[0];
    } else {
      var r := SplitOn(t, sep);
      assert p + t == t && p + r[0] == r[0];
      assert [r[0]] + r[1..] == r;
    }
  }

  /** Splitting at a separator between `v` and `w` gives the pieces of `v` followed by those of `w`. */
  lemma {:induction false} SplitOnAppend(v: string, w: string, sep: char)
    ensures SplitOn(v + [sep] + w, sep) == SplitOn(v, sep) + SplitOn(w, sep)
    decreases |v|
  {
    var t := [sep] + w;
    assert t[0] == sep && t[1..] == w;
    if v == [] {
      assert v + [sep] + w == t;
    } else {
      assert (v + [sep] + w)[0] == v[0];
      assert (v + [sep] + w)[1..] == v[1..] + [sep] + w;
      SplitOnAppend(v[1..], w, sep);
    }
  }

  /** Splitting what was joined gives back the parts, when no part holds the separator. */
  lemma {:induction false} SplitJoin(parts: seq<string>, sep: char)
    requires |parts| >= 1
    requires forall k :: 0 <= k < |parts| ==> sep !in parts[k]
    ensures SplitOn(Join(parts, sep), sep) == parts
    decreases |parts|
  {
    if |parts| == 1 {
      SplitOnPrefix(parts[0], "", sep);
      assert parts[0] + "" == parts[0];
    } else {
      var rest := Join(parts[1..], sep);
      SplitJoin(parts[1..], sep);
      assert parts[0] + [sep] + rest == parts[0] + ([sep] + rest);
      SplitOnPrefix(parts[0], [sep] + rest, sep);
      assert ([sep] + rest)[1..] == rest;
      assert SplitOn([sep] + rest, sep) == [""] + parts[1..];
      assert parts[0] + "" == parts[0];
    }
  }

  // ---------------------------------------------------------------- split() on whitespace

  /** Length of the run of non-whitespace characters at the start of `s`. */
  function WordLen(s: string): (n: nat)
    ensures n <= |s|
    ensures forall i :: 0 <= i < n ==> s[i] !in Whitespace
    ensures n < |s| ==> s[n] in Whitespace
    decreases |s|
  {
    if s == [] || s[0] in Whitespace then 0 else 1 + WordLen(s[1..])
  }

  /** Python's `s.split()` with no argument: the maximal runs of non-whitespace, in order. */
  function Words(s: string): (r: seq<string>)
    ensures forall k :: 0 <= k < |r| ==> r[k] != []
    ensures forall k, i :: 0 <= k < |r| && 0 <= i < |r[k]| ==> r[k][i] !in Whitespace
    decreases |s|
  {
    if s == [] then []
    else if s[0] in Whitespace then Words(s[1..])
    else
      var n := WordLen(s);
      [s[..n]] + Words(s[n..])
  }

  lemma {:induction false} WordLenAppend(a: string, t: string)
    requires WordLen(a) < |a| || (t != [] && t[0] in Whitespace)
    ensures WordLen(a + t) == WordLen(a)
    decreases |a|
  {
    if a != [] && a[0] !in Whitespace {
      assert (a + t)[1..] == a[1..] + t;
      WordLenAppend(a[1..], t);
    }
  }

  /** Splitting two texts joined by a space gives the words of the first, then of the second. */
  lemma {:induction false} WordsJoin(a: string, b: string)
    ensures Words(a + " " + b) == Words(a) + Words(b)
    decreases |a|
  {
    if a == [] {
      var s := a + " " + b;
      assert s == " " + b && s[1..] == b;
    } else if a[0] in Whitespace {
      SkipSpaceJoin(a, b);
      WordsJoin(a[1..], b);
    } else {
      var n := WordJoin(a, b);
      WordsJoin(a[n..], b);
    }
  }

  /** Leading whitespace of the first text is skipped in the joined text too. */
  lemma SkipSpaceJoin(a: string, b: string)
    requires a != [] && a[0] in Whitespace
    ensures Words(a + " " + b) == Words(a[1..] + " " + b)
    ensures Words(a) == Words(a[1..])
  {
    var s := a + " " + b;
    assert s[0] == a[0];
    assert s[1..] == a[1..] + " " + b;
  }

  /** A first word of the first text is also the first word of the joined text. */
  lemma WordJoin(a: string, b: string) returns (n: nat)
    requires a != [] && a[0] !in Whitespace
    ensures n == WordLen(a) && n <= |a|
    ensures Words(a + " " + b) == [a[..n]] + Words(a[n..] + " " + b)
    ensures Words(a) == [a[..n]] + Words(a[n..])
  {
    n := WordLen(a);
    var s := a + " " + b;
    assert s == a + (" " + b);
    WordLenAppend(a, " " + b);
    assert s[0] == a[0];
    assert s[..n] == a[..n];
    assert s[n..] == a[n..] + " " + b;
  }

  // ---------------------------------------------------------------- str(i) and int(s)

  predicate IsDigit(c: char) {
    '0' <= c <= '9'
  }

  predicate AllDigits(s: string) {
    forall i :: 0 <= i < |s| ==> IsDigit(s[i])
  }

  function DigitChar(d: nat): (c: char)
    requires d < 10
    ensures IsDigit(c)
  {
    ('0' as int + d) as char
  }

  /** Python's `str(n)` for a non-negative integer: decimal, no leading zeros. */
  function NatToString(n: nat): (r: string)
    ensures |r| >= 1 && AllDigits(r)
    decreases n
  {
    if n < 10 then [DigitChar(n)] else NatToString(n / 10) + [DigitChar(n % 10)]
  }

  /** Python's `str(i)` for an integer. */
  function IntToString(i: int): (r: string)
    ensures |r| >= 1 && IsDigit(r[|r| - 1])
    ensures forall k :: 0 <= k < |r| ==> IsDigit(r[k]) || (k == 0 && r[k] == '-')
  {
    if i < 0 then "-" + NatToString(-i) else NatToString(i)
  }

  function DigitsValue(s: string): nat
    requires AllDigits(s)
    decreases |s|
  {
    if s == [] then 0 else DigitsValue(s[..|s| - 1]) * 10 + (s[|s| - 1] as int - '0' as int)
  }

  /** A non-empty run of ASCII digits, read as a decimal number. */
  function ParseNat(s: string): (r: Option<nat>)
    ensures r.Some? <==> s != [] && AllDigits(s)
  {
    if s != [] && AllDigits(s) then Some(DigitsValue(s)) else None
  }

  /**
   * Python's `int(s)`: surrounding whitespace is ignored, one optional sign, then
   * ASCII digits. `None` stands for the ValueError Python raises.
   */
  function ParseInt(s: string): Option<int> {
    var t := Strip(s);
    if t != [] && (t[0] == '-' || t[0] == '+') then
      match ParseNat(t[1..])
      case None => None
      case Some(n) => var v: int := n; Some(if t[0] == '-' then -v else v)
    else
      match ParseNat(t)
      case None => None
      case Some(n) => Some(n)
  }

  lemma {:induction false} ParseNatToString(n: nat)
    ensures ParseNat(NatToString(n)) == Some(n)
    decreases n
  {
    var s := NatToString(n);
    if n >= 10 {
      ParseNatToString(n / 10);
      assert s[..|s| - 1] == NatToString(n / 10);
      assert s[|s| - 1] as int - '0' as int == n % 10;
      assert DigitsValue(s) == (n / 10) * 10 + n % 10;
    } else {
      assert s[..0] == [];
      assert DigitsValue(s) == n;
    }
  }

  lemma StripIntToString(i: int)
    ensures Strip(IntToString(i)) == IntToString(i)
  {
    var s := IntToString(i);
    assert IsDigit(s[0]) || s[0] == '-';
    assert s[0] !in Whitespace && s[|s| - 1] !in Whitespace;
  }

  lemma ParseIntSigned(t: string, n: nat)
    requires Strip(t) == t && t != [] && t[0] == '-'
    requires ParseNat(t[1..]) == Some(n)
    ensures ParseInt(t) == Some(-(n as int))
  {
  }

  lemma ParseIntUnsigned(t: string, n: nat)
    requires Strip(t) == t && t != [] && IsDigit(t[0])
    requires ParseNat(t) == Some(n)
    ensures ParseInt(t) == Some(n)
  {
  }

  /** `int(str(i)) == i` for every integer. */
  lemma ParseIntToString(i: int)
    ensures ParseInt(IntToString(i)) == Some(i)
  {
    var s := IntToString(i);
    StripIntToString(i);
    if i < 0 {
      assert s[1..] == NatToString(-i);
      ParseNatToString(-i);
      ParseIntSigned(s, -i);
    } else {
      ParseNatToString(i);
      ParseIntUnsigned(s, i);
    }
  }

  lemma IntToStringInjective(a: int, b: int)
    requires IntToString(a) == IntToString(b)
    ensures a == b
  {
    ParseIntToString(a);
    ParseIntToString(b);
  }

  /** Without a minus sign, `int(s)` cannot be negative. */
  lemma ParseIntNonNegative(s: string)
    requires '-' !in s
    requires ParseInt(s).Some?
    ensures ParseInt(s).value >= 0
  {
    StripCharsInfix(s, Whitespace);
  }
}
