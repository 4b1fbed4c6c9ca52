/**
 * The handful of Python `str` operations the transcriber relies on, as
 * functions over `seq<char>`: case mapping, `strip`, `in`, `replace`,
 * `join`, `str(int)` and the two uses of `split('.')`.
 */
module Text {

  // ---------------------------------------------------------------------
  // Case mapping (ASCII letters; every other character is left alone)
  // ---------------------------------------------------------------------

  function UpperChar(c: char): char {
    if 'a' <= c <= 'z' then (c as int - 32) as char else c
  }

  function LowerChar(c: char): char {
    if 'A' <= c <= 'Z' then (c as int + 32) as char else c
  }

  /** `s.upper()` */
  function Upper(s: string): (r: string)
    ensures |r| == |s|
  {
    if s == [] then [] else [UpperChar(s[0])] + Upper(s[1..])
  }

  /** `s.lower()` */
  function Lower(s: string): (r: string)
    ensures |r| == |s|
  {
    if s == [] then [] else [LowerChar(s[0])] + Lower(s[1..])
  }

  lemma {:induction false} UpperAt(s: string, i: nat)
    requires i < |s|
    ensures Upper(s)[i] == UpperChar(s[i])
  {
    if i > 0 {
      UpperAt(s[1..], i - 1);
    }
  }

  /** No lower-case ASCII letter occurs in `s`. */
  predicate IsUpperCase(s: string) {
    forall i :: 0 <= i < |s| ==> !('a' <= s[i] <= 'z')
  }

  lemma UpperIsUpperCase(s: string)
    ensures IsUpperCase(Upper(s))
  {
    forall i | 0 <= i < |s|
      ensures !('a' <= Upper(s)[i] <= 'z')
    {
      UpperAt(s, i);
    }
  }

  /** Upper-casing a string with no lower-case letter changes nothing. */
  lemma UpperKeepsUpperCase(s: string)
    requires IsUpperCase(s)
    ensures Upper(s) == s
  {
    forall i | 0 <= i < |s|
      ensures Upper(s)[i] == s[i]
    {
      UpperAt(s, i);
    }
  }

  lemma {:induction false} LowerAt(s: string, i: nat)
    requires i < |s|
    ensures Lower(s)[i] == LowerChar(s[i])
  {
    if i > 0 {
      LowerAt(s[1..], i - 1);
    }
  }

  /** No upper-case ASCII letter occurs in `s`. */
  predicate IsLowerCase(s: string) {
    forall i :: 0 <= i < |s| ==> !('A' <= s[i] <= 'Z')
  }

  /** Lower-casing a string with no upper-case letter changes nothing. */
  lemma LowerKeepsLowerCase(s: string)
    requires IsLowerCase(s)
    ensures Lower(s) == s
  {
    forall i | 0 <= i < |s|
      ensures Lower(s)[i] == s[i]
    {
      LowerAt(s, i);
    }
  }

  lemma {:induction false} LowerIdempotent(s: string)
    ensures Lower(Lower(s)) == Lower(s)
  {
    if s != [] {
      LowerIdempotent(s[1..]);
      assert Lower(s)[1..] == Lower(s[1..]);
    }
  }

  // ---------------------------------------------------------------------
  // Whitespace and strip()
  // ---------------------------------------------------------------------

  /** Python's `str.isspace()` for a single character. */
  predicate IsSpace(c: char) {
    var n := c as int;
    (9 <= n <= 13) || (28 <= n <= 32) || n == 0x85 || n == 0xA0 || n == 0x1680
    || (0x2000 <= n <= 0x200A) || n == 0x2028 || n == 0x2029 || n == 0x202F
    || n == 0x205F || n == 0x3000
  }

  /** `s.lstrip()`: the longest suffix of `s` that does not start with whitespace. */
  function TrimStart(s: string): (r: string)
    ensures |r| <= |s| && r == s[|s| - |r|..]
    ensures r == [] || !IsSpace(r[0])
  {
    if s != [] && IsSpace(s[0]) then TrimStart(s[1..]) else s
  }

  /** `s.rstrip()`: the longest prefix of `s` that does not end with whitespace. */
  function TrimEnd(s: string): (r: string)
    ensures |r| <= |s| && r == s[..|r|]
    ensures r == [] || !IsSpace(r[|r| - 1])
  {
    if s != [] && IsSpace(s[|s| - 1]) then TrimEnd(s[..|s| - 1]) else s
  }

  /** Everything `lstrip` cuts off is whitespace. */
  lemma {:induction false} TrimStartCutsSpaces(s: string)
    ensures forall i :: 0 <= i < |s| - |TrimStart(s)| ==> IsSpace(s[i])
  {
    if s != [] && IsSpace(s[0]) {
      var rest := s[1..];
      TrimStartCutsSpaces(rest);
      assert TrimStart(s) == TrimStart(rest);
      forall i | 1 <= i < |s| - |TrimStart(s)|
        ensures IsSpace(s[i])
      {
        assert s[i] == rest[i - 1] && IsSpace(rest[i - 1]);
      }
    } else {
      assert TrimStart(s) == s;
    }
  }

  /** Everything `rstrip` cuts off is whitespace. */
  lemma {:induction false} TrimEndCutsSpaces(s: string)
    ensures forall i :: |TrimEnd(s)| <= i < |s| ==> IsSpace(s[i])
  {
    if s != [] && IsSpace(s[|s| - 1]) {
      TrimEndCutsSpaces(s[..|s| - 1]);
    }
  }

  /** `s.strip()` */
  function Strip(s: string): string {
    TrimEnd(TrimStart(s))
  }

  /**
   * What `strip()` promises: the result is a contiguous piece of `s` with no
   * whitespace at either end, and everything cut off was whitespace.
   */
  lemma StripSpec(s: string) returns (lo: nat, hi: nat)
    ensures lo <= hi <= |s| && Strip(s) == s[lo..hi]
    ensures forall i :: 0 <= i < lo ==> IsSpace(s[i])
    ensures forall i :: hi <= i < |s| ==> IsSpace(s[i])
    ensures Strip(s) == [] || (!IsSpace(Strip(s)[0]) && !IsSpace(Strip(s)[|Strip(s)| - 1]))
  {
    var t := TrimStart(s);
    var r := TrimEnd(t);
    lo := |s| - |t|;
    hi := lo + |r|;
    TrimStartCutsSpaces(s);
    TrimEndCutsSpaces(t);
    assert r == s[lo..hi];
    forall i | hi <= i < |s|
      ensures IsSpace(s[i])
    {
      assert s[i] == t[i - lo];
    }
  }

  /** `s.strip()` is empty exactly when `s` is whitespace only. */
  lemma StripEmptyIffBlank(s: string)
    ensures Strip(s) == [] <==> forall i :: 0 <= i < |s| ==> IsSpace(s[i])
  {
    var t := TrimStart(s);
    TrimStartCutsSpaces(s);
    if t != [] {
      assert !IsSpace(t[0]);
      TrimEndCutsSpaces(t);
      assert TrimEnd(t) != [];
      assert !IsSpace(s[|s| - |t|]);
    }
  }

  // ---------------------------------------------------------------------
  // Substrings: `p in s` and `s.replace(p, v)`
  // ---------------------------------------------------------------------

  predicate OccursAt(s: string, p: string, i: nat) {
    i + |p| <= |s| && s[i..i + |p|] == p
  }

  /** Python's `p in s` for strings. */
  predicate Contains(s: string, p: string) {
    exists i :: 0 <= i <= |s| && OccursAt(s, p, i)
  }

  lemma ContainsWitness(s: string, p: string, i: nat)
    requires OccursAt(s, p, i)
    ensures Contains(s, p)
  {
  }

  /** Occurrences inside a piece of a string are occurrences in the string. */
  lemma ContainsInSlice(s: string, p: string, lo: nat, hi: nat)
    requires lo <= hi <= |s|
    requires Contains(s[lo..hi], p)
    ensures Contains(s, p)
  {
    var i :| 0 <= i <= hi - lo && OccursAt(s[lo..hi], p, i);
    assert lo + i + |p| <= hi;
    forall k | 0 <= k < |p|
      ensures s[lo + i + k] == p[k]
    {
      assert s[lo..hi][i + k] == s[lo + i + k];
    }
    assert s[lo + i..lo + i + |p|] == p;
    ContainsWitness(s, p, lo + i);
  }

  /**
   * `s.replace(p, v)` for a non-empty `p`: scanning left to right, every
   * occurrence of `p` that does not overlap an earlier replaced one is
   * replaced by `v`.
   */
  function ReplaceAll(s: string, p: string, v: string): string
    requires |p| > 0
    decreases |s|
  {
    if |s| < |p| then s
    else if s[..|p|] == p then v + ReplaceAll(s[|p|..], p, v)
    else [s[0]] + ReplaceAll(s[1..], p, v)
  }

  /** `replace` changes nothing in a string where the pattern does not occur. */
  lemma {:induction false} ReplaceAbsent(s: string, p: string, v: string)
    requires |p| > 0
    requires !Contains(s, p)
    ensures ReplaceAll(s, p, v) == s
  {
    if |s| >= |p| {
      if s[..|p|] == p {
        ContainsWitness(s, p, 0);
      }
      if Contains(s[1..], p) {
        assert s[1..|s|] == s[1..];
        ContainsInSlice(s, p, 1, |s|);
      }
      ReplaceAbsent(s[1..], p, v);
      assert s == [s[0]] + s[1..];
    }
  }

  // ---------------------------------------------------------------------
  // join, str(int) and split('.')
  // ---------------------------------------------------------------------

  /** `sep.join(xs)` */
  function Join(xs: seq<string>, sep: string): string {
    if |xs| == 0 then ""
    else if |xs| == 1 then xs[0]
    else xs[0] + sep + Join(xs[1..], sep)
  }

  lemma ContainsSelf(p: string)
    ensures Contains(p, p)
  {
    assert p[0..|p|] == p;
    ContainsWitness(p, p, 0);
  }

  /** An occurrence in `a` is an occurrence in `a + b`. */
  lemma ContainsLeft(a: string, b: string, p: string)
    requires Contains(a, p)
    ensures Contains(a + b, p)
  {
    var i :| 0 <= i <= |a| && OccursAt(a, p, i);
    assert (a + b)[i..i + |p|] == a[i..i + |p|];
    ContainsWitness(a + b, p, i);
  }

  /** An occurrence in `b` is an occurrence in `a + b`. */
  lemma ContainsRight(a: string, b: string, p: string)
    requires Contains(b, p)
    ensures Contains(a + b, p)
  {
    var i :| 0 <= i <= |b| && OccursAt(b, p, i);
    assert (a + b)[|a| + i..|a| + i + |p|] == b[i..i + |p|];
    ContainsWitness(a + b, p, |a| + i);
  }

  /** An occurrence inside an occurrence is an occurrence. */
  lemma ContainsTrans(s: string, t: string, q: string)
    requires Contains(s, t) && Contains(t, q)
    ensures Contains(s, q)
  {
    var i :| 0 <= i <= |s| && OccursAt(s, t, i);
    var j :| 0 <= j <= |t| && OccursAt(t, q, j);
    assert s[i..i + |t|] == t;
    assert t[j..j + |q|] == q;
    forall k | 0 <= k < |q|
      ensures s[i + j + k] == q[k]
    {
      assert s[i + j + k] == t[j + k];
    }
    assert s[i + j..i + j + |q|] == q;
    ContainsWitness(s, q, i + j);
  }

  /** Every joined item occurs in the joined string. */
  lemma {:induction false} JoinContainsEach(xs: seq<string>, sep: string, i: nat)
    requires i < |xs|
    ensures Contains(Join(xs, sep), xs[i])
  {
    if |xs| == 1 {
      ContainsSelf(xs[0]);
    } else if i == 0 {
      ContainsSelf(xs[0]);
      ContainsLeft(xs[0], sep + Join(xs[1..], sep), xs[0]);
      assert xs[0] + (sep + Join(xs[1..], sep)) == Join(xs, sep);
    } else {
      JoinContainsEach(xs[1..], sep, i - 1);
      ContainsRight(xs[0] + sep, Join(xs[1..], sep), xs[i]);
    }
  }

  /** A string holding a join holds each joined item. */
  lemma JoinedPartsOccur(s: string, xs: seq<string>, sep: string)
    requires Contains(s, Join(xs, sep))
    ensures forall i :: 0 <= i < |xs| ==> Contains(s, xs[i])
  {
    forall i | 0 <= i < |xs|
      ensures Contains(s, xs[i])
    {
      JoinContainsEach(xs, sep, i);
      ContainsTrans(s, Join(xs, sep), xs[i]);
    }
  }

  function DigitChar(d: nat): char
    requires d < 10
  {
    "0123456789"[d]
  }

  predicate IsDigit(c: char) {
    '0' <= c <= '9'
  }

  /** `str(n)` for a non-negative integer: its decimal digits, without leading zeros. */
  function NatToString(n: nat): (r: string)
    ensures |r| > 0
  {
    if n < 10 then [DigitChar(n)] else NatToString(n / 10) + [DigitChar(n % 10)]
  }

  predicate AllDigits(s: string) {
    forall i :: 0 <= i < |s| ==> IsDigit(s[i])
  }

  lemma {:induction false} NatToStringDigits(n: nat)
    ensures AllDigits(NatToString(n))
  {
    if n >= 10 {
      NatToStringDigits(n / 10);
    }
  }

  /** Reads a string of decimal digits back as a number. */
  function ParseDecimal(s: string): nat
    requires AllDigits(s)
  {
    if s == [] then 0
    else assert IsDigit(s[|s| - 1]); ParseDecimal(s[..|s| - 1]) * 10 + (s[|s| - 1] as int - '0' as int)
  }

  /** The decimal rendering loses nothing: it reads back as the same number. */
  lemma {:induction false} ParseNatToString(n: nat)
    ensures AllDigits(NatToString(n)) && ParseDecimal(NatToString(n)) == n
  {
    var s := NatToString(n);
    NatToStringDigits(n);
    if n >= 10 {
      ParseNatToString(n / 10);
      assert s[..|s| - 1] == NatToString(n / 10);
    }
  }

  /** Different numbers are rendered differently. */
  lemma NatToStringInjective(m: nat, n: nat)
    requires m != n
    ensures NatToString(m) != NatToString(n)
  {
    ParseNatToString(m);
    ParseNatToString(n);
  }

  /** The position just after the last `c` in `s`, or 0 when `c` does not occur. */
  function LastCut(s: string, c: char): (k: nat)
    ensures k <= |s|
    ensures k > 0 ==> s[k - 1] == c
    ensures forall i :: k <= i < |s| ==> s[i] != c
  {
    if s == [] then 0
    else if s[|s| - 1] == c then |s|
    else LastCut(s[..|s| - 1], c)
  }

  /** `s.split(c)[-1]`: the text after the last `c`, or all of `s` when `c` does not occur. */
  function AfterLast(s: string, c: char): (r: string)
    ensures c !in r
    ensures |r| <= |s| && r == s[|s| - |r|..]
    ensures |r| < |s| ==> s[|s| - |r| - 1] == c
  {
    s[LastCut(s, c)..]
  }

  /** Text before a part that holds `c` does not change what follows the last `c`. */
  lemma AfterLastConcat(a: string, b: string, c: char)
    requires c in b
    ensures AfterLast(a + b, c) == AfterLast(b, c)
  {
    var s, k := a + b, LastCut(b, c);
    var j :| 0 <= j < |b| && b[j] == c;
    assert s[|a| + j] == c;
    var cut := LastCut(s, c);
    assert |a| + k <= cut by {
      if k > 0 {
        assert s[|a| + k - 1] == c;
      }
    }
    assert cut <= |a| + k;
    assert s[cut..] == b[k..];
  }


  function BeforeFirst(s: string, c: char): (r: string)
    ensures c !in r
    ensures |r| <= |s| && r == s[..|r|]
    ensures |r| < |s| ==> s[|r|] == c
  {
    if s == [] then []
    else if s[0] == c then []
    else [s[0]] + BeforeFirst(s[1..], c)
  }
}
