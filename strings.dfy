/**
 * The few pieces of Python's `str` behaviour the packager relies on:
 * `startswith`, substring search, `split('|')`, `lstrip`, integer
 * formatting and `lower`.
 */
module Strings {
  import opened Wrappers

  predicate StartsWith(s: string, p: string) {
    |p| <= |s| && s[..|p|] == p
  }

  /** A prefix of a prefix is a prefix. */
  lemma StartsWithTrans(s: string, r: string, p: string)
    requires StartsWith(s, r) && StartsWith(r, p)
    ensures StartsWith(s, p)
  {
    assert s[..|p|] == r[..|p|];
  }

  predicate EndsWith(s: string, p: string) {
    |p| <= |s| && s[|s| - |p|..] == p
  }

  /** `p` occurs in `s` starting at index `i`. */
  predicate OccursAt(s: string, p: string, i: nat) {
    i + |p| <= |s| && s[i..i + |p|] == p
  }

  /** Python's `p in s` for two strings. */
  ghost predicate Contains(s: string, p: string) {
    exists i: nat :: OccursAt(s, p, i)
  }

  /** The first occurrence of `p` in `s` at or after `from`. */
  function FindFrom(s: string, p: string, from: nat): (r: Option<nat>)
    ensures r.Some? ==> from <= r.value && r.value + |p| <= |s|
    decreases |s| - from
  {
    if from + |p| > |s| then None
    else if s[from..from + |p|] == p then Some(from)
    else FindFrom(s, p, from + 1)
  }

  /** `FindFrom` finds the least occurrence at or after `from`, or reports that there is none. */
  lemma {:induction false} FindFromSpec(s: string, p: string, from: nat)
    ensures var r := FindFrom(s, p, from);
      && (r.Some? ==> from <= r.value && OccursAt(s, p, r.value))
      && (r.Some? ==> forall j: nat :: from <= j < r.value ==> !OccursAt(s, p, j))
      && (r.None? ==> forall j: nat :: from <= j ==> !OccursAt(s, p, j))
    decreases |s| - from
  {
    if from + |p| <= |s| && s[from..from + |p|] != p {
      FindFromSpec(s, p, from + 1);
    }
  }

  /** `s.find(p)`, with `None` for -1. */
  function Find(s: string, p: string): (r: Option<nat>)
    ensures r.Some? ==> r.value + |p| <= |s|
  {
    FindFrom(s, p, 0)
  }

  /** `Find` returns the least index at which `p` occurs, and `None` exactly when `p` does not occur. */
  lemma FindSpec(s: string, p: string)
    ensures Find(s, p).Some? ==> OccursAt(s, p, Find(s, p).value)
    ensures Find(s, p).Some? ==> forall j: nat :: j < Find(s, p).value ==> !OccursAt(s, p, j)
    ensures Find(s, p).None? <==> !Contains(s, p)
  {
    FindFromSpec(s, p, 0);
  }

  /** The characterisation of `Find` determines its result. */
  lemma FindUnique(s: string, p: string, i: nat)
    requires OccursAt(s, p, i)
    requires forall j: nat :: j < i ==> !OccursAt(s, p, j)
    ensures Find(s, p) == Some(i)
  {
    FindSpec(s, p);
  }

  /** Cutting `s` just after the first occurrence of `p` keeps that occurrence first. */
  lemma FindInPrefix(s: string, p: string, i: nat)
    requires Find(s, p) == Some(i)
    ensures Find(s[..i + |p|], p) == Some(i)
  {
    FindSpec(s, p);
    var z := s[..i + |p|];
    assert z[i..i + |p|] == s[i..i + |p|];
    forall j: nat | j < i ensures !OccursAt(z, p, j) {
      assert !OccursAt(s, p, j);
      if j + |p| <= |z| {
        assert z[j..j + |p|] == s[j..j + |p|];
      }
    }
    FindUnique(z, p, i);
  }

  /** The index of the first `c` in `s`. */
  function IndexOf(s: string, c: char): (r: Option<nat>)
    ensures r.Some? ==> r.value < |s| && s[r.value] == c && c !in s[..r.value]
    ensures r.None? <==> c !in s
  {
    if |s| == 0 then None
    else if s[0] == c then Some(0)
    else
      match IndexOf(s[1..], c)
      case None => None
      case Some(i) =>
        assert s[..i + 1] == [s[0]] + s[1..][..i];
        Some(i + 1)
  }

  /** `s.split('|')[0]`: the text before the first `|`, or all of `s`. */
  function PathPart(s: string): (r: string)
    ensures '|' !in r
    ensures StartsWith(s, r)
    ensures |r| < |s| ==> s[|r|] == '|'
  {
    match IndexOf(s, '|')
    case None => s
    case Some(i) => s[..i]
  }

  /** `s.split('|', 1)[1]` when `'|' in s`: everything after the first `|`. */
  function Qualifier(s: string): (r: Option<string>)
    ensures r.None? <==> '|' !in s
    ensures r.Some? ==> s == PathPart(s) + "|" + r.value
  {
    match IndexOf(s, '|')
    case None => None
    case Some(i) =>
      assert s == s[..i] + "|" + s[i + 1..];
      Some(s[i + 1..])
  }

  /** If `t` has no `|`, the qualifier of `t + "|" + q` is `q` and its path part is `t`. */
  lemma SplitAtBar(t: string, q: string)
    requires '|' !in t
    ensures PathPart(t + "|" + q) == t
    ensures Qualifier(t + "|" + q) == Some(q)
  {
    var s := t + "|" + q;
    assert s[|t|] == '|';
    assert s[..|t|] == t;
    assert s[|t| + 1..] == q;
  }

  /** A string without `|` is its own path part and has no qualifier. */
  lemma NoBar(t: string)
    requires '|' !in t
    ensures PathPart(t) == t && Qualifier(t) == None
  {
  }

  /** The set of characters of `s`, the argument of Python's `lstrip`. */
  function CharSet(s: string): set<char> {
    set c | c in s
  }

  /** `s.lstrip(chars)`. */
  function LStrip(s: string, chars: set<char>): (r: string)
    ensures |r| <= |s| && r == s[|s| - |r|..]
    ensures r == [] || r[0] !in chars
    decreases |s|
  {
    if |s| > 0 && s[0] in chars then LStrip(s[1..], chars) else s
  }

  function Repeat(c: char, n: nat): (r: string)
    ensures |r| == n
  {
    if n == 0 then [] else [c] + Repeat(c, n - 1)
  }

  /** A character missing from `s` is missing from every slice of it. */
  lemma NotInSlice(s: string, c: char, a: nat, b: nat)
    requires a <= b <= |s| && c !in s
    ensures c !in s[a..b]
  {
    forall j | 0 <= j < b - a ensures s[a..b][j] != c {
      assert s[a..b][j] == s[a + j];
    }
  }

  /** What `lstrip` removes is a leading run of characters from `chars`. */
  lemma {:induction false} LStripRemoves(s: string, chars: set<char>)
    ensures forall i :: 0 <= i < |s| - |LStrip(s, chars)| ==> s[i] in chars
    decreases |s|
  {
    if |s| > 0 && s[0] in chars {
      LStripRemoves(s[1..], chars);
      forall i | 1 <= i < |s| - |LStrip(s, chars)| ensures s[i] in chars {
        assert s[i] == s[1..][i - 1];
      }
    }
  }

  /** Stripping a string that starts with something outside `chars` leaves it as it is. */
  lemma LStripStop(s: string, chars: set<char>)
    requires s == [] || s[0] !in chars
    ensures LStrip(s, chars) == s
  {
  }

  lemma ConcatAssoc(a: string, b: string, c: string)
    ensures (a + b) + c == a + (b + c)
  {
  }

  predicate IsDigit(c: char) {
    '0' <= c <= '9'
  }

  function DigitChar(d: nat): (c: char)
    requires d < 10
    ensures IsDigit(c)
  {
    ('0' as int + d) as char
  }

  function DigitValue(c: char): (d: nat)
    requires IsDigit(c)
    ensures d < 10
  {
    (c as int - '0' as int) as nat
  }

  /** `str(n)` for a natural number: its decimal digits, most significant first. */
  function NatToString(n: nat): (r: string)
    ensures |r| > 0
    ensures forall i :: 0 <= i < |r| ==> IsDigit(r[i])
    decreases n
  {
    if n < 10 then [DigitChar(n)] else NatToString(n / 10) + [DigitChar(n % 10)]
  }

  /** `int(s)` for a string of decimal digits. */
  function ParseDecimal(s: string): nat
    requires forall i :: 0 <= i < |s| ==> IsDigit(s[i])
  {
    if s == [] then 0 else ParseDecimal(s[..|s| - 1]) * 10 + DigitValue(s[|s| - 1])
  }

  /** Reading back the decimal form of `n` gives `n`. */
  lemma {:induction false} DecimalRoundTrip(n: nat)
    ensures ParseDecimal(NatToString(n)) == n
    decreases n
  {
    var s := NatToString(n);
    if n >= 10 {
      assert s[..|s| - 1] == NatToString(n / 10);
      DecimalRoundTrip(n / 10);
    }
  }

  /** Distinct numbers have distinct decimal forms. */
  lemma NatToStringInjective(a: nat, b: nat)
    requires NatToString(a) == NatToString(b)
    ensures a == b
  {
    DecimalRoundTrip(a);
    DecimalRoundTrip(b);
  }

  function AsciiLowerChar(c: char): char {
    if 'A' <= c <= 'Z' then (c as int - 'A' as int + 'a' as int) as char else c
  }

  /** `s.lower()` restricted to ASCII letters. */
  function Lower(s: string): (r: string)
    ensures |r| == |s|
    ensures forall i :: 0 <= i < |s| ==> r[i] == AsciiLowerChar(s[i])
  {
    if s == [] then [] else [AsciiLowerChar(s[0])] + Lower(s[1..])
  }
}
