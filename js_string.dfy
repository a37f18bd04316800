/**
 * The JavaScript string built-ins the handlers rely on, over `seq<char>`:
 * `startsWith`, `includes`, `trim`, the first-match `replace` and the
 * decimal rendering of a part number inside a template literal.
 */
module JsString {

  predicate IsDigit(c: char) {
    '0' <= c <= '9'
  }

  predicate AllDigits(s: string) {
    forall i :: 0 <= i < |s| ==> IsDigit(s[i])
  }

  /** `s.startsWith(p)` */
  predicate StartsWith(s: string, p: string) {
    |p| <= |s| && s[..|p|] == p
  }

  /** `s.includes(t)`, computed by scanning left to right. */
  function Includes(s: string, t: string): bool
    decreases |s|
  {
    if |s| < |t| then false
    else if s[..|t|] == t then true
    else Includes(s[1..], t)
  }

  /** The reference meaning of `includes`: `t` occurs at some index of `s`. */
  ghost predicate OccursAt(s: string, t: string, i: int) {
    0 <= i && i + |t| <= |s| && s[i..i + |t|] == t
  }

  lemma {:induction false} IncludesIffOccurs(s: string, t: string)
    ensures Includes(s, t) <==> exists i :: OccursAt(s, t, i)
    decreases |s|
  {
    if |s| < |t| {
    } else if s[..|t|] == t {
      assert OccursAt(s, t, 0);
    } else {
      IncludesIffOccurs(s[1..], t);
      forall i | OccursAt(s, t, i) ensures OccursAt(s[1..], t, i - 1) {
        assert i != 0;
        assert s[1..][i - 1..i - 1 + |t|] == s[i..i + |t|];
      }
      forall i | OccursAt(s[1..], t, i) ensures OccursAt(s, t, i + 1) {
        assert s[1..][i..i + |t|] == s[i + 1..i + 1 + |t|];
      }
    }
  }

  /** If a character of `t` never appears in `s`, then `s` does not include `t`. */
  lemma {:induction false} MissingCharExcludes(s: string, t: string, k: nat)
    requires k < |t| && t[k] !in s
    ensures !Includes(s, t)
  {
    IncludesIffOccurs(s, t);
    forall i | 0 <= i && i + |t| <= |s| ensures !OccursAt(s, t, i) {
      assert s[i..i + |t|][k] == s[i + k];
      assert s[i + k] in s;
    }
  }

  /** A string includes itself wherever it sits inside a concatenation. */
  lemma {:induction false} IncludesInfix(a: string, t: string, b: string)
    ensures Includes(a + t + b, t)
  {
    IncludesIffOccurs(a + t + b, t);
    assert (a + t + b)[|a|..|a| + |t|] == t;
    assert OccursAt(a + t + b, t, |a|);
  }

  /** Text that includes `t` still includes it with anything around it. */
  lemma IncludesWithin(a: string, b: string, c: string, t: string)
    requires Includes(b, t)
    ensures Includes(a + b + c, t)
  {
    IncludesIffOccurs(b, t);
    var i :| OccursAt(b, t, i);
    assert (a + b + c)[|a| + i..|a| + i + |t|] == b[i..i + |t|];
    assert OccursAt(a + b + c, t, |a| + i);
    IncludesIffOccurs(a + b + c, t);
  }

  /**
   * The characters `String.prototype.trim` removes: ECMAScript WhiteSpace
   * (tab, vertical tab, form feed, space, no-break space, byte-order mark
   * and the space separators) and LineTerminator.
   */
  predicate IsJsWhiteSpace(c: char) {
    c in JsWhiteSpace || '\U{2000}' <= c <= '\U{200A}'
  }

  const JsWhiteSpace: set<char> :=
    {'\t', '\n', '\U{000B}', '\U{000C}', '\r', ' ', '\U{00A0}', '\U{1680}',
     '\U{2028}', '\U{2029}', '\U{202F}', '\U{205F}', '\U{3000}', '\U{FEFF}'}

  function TrimStart(s: string): (r: string)
    ensures |r| <= |s| && r == s[|s| - |r|..]
    ensures r == [] || !IsJsWhiteSpace(r[0])
    ensures forall i :: 0 <= i < |s| - |r| ==> IsJsWhiteSpace(s[i])
  {
    if s == [] || !IsJsWhiteSpace(s[0]) then s else TrimStart(s[1..])
  }

  function TrimEnd(s: string): (r: string)
    ensures |r| <= |s| && r == s[..|r|]
    ensures r == [] || !IsJsWhiteSpace(r[|r| - 1])
    ensures forall i :: |r| <= i < |s| ==> IsJsWhiteSpace(s[i])
  {
    if s == [] || !IsJsWhiteSpace(s[|s| - 1]) then s else TrimEnd(s[..|s| - 1])
  }

  /** `s.trim()` */
  function Trim(s: string): string {
    TrimEnd(TrimStart(s))
  }

  /**
   * `s.trim()` keeps a contiguous middle `s[lo..hi]` of `s`, removes only
   * whitespace around it, and neither end of what it keeps is whitespace.
   */
  lemma TrimBounds(s: string) returns (lo: nat, hi: nat)
    ensures lo <= hi <= |s| && Trim(s) == s[lo..hi]
    ensures forall i :: 0 <= i < lo ==> IsJsWhiteSpace(s[i])
    ensures forall i :: hi <= i < |s| ==> IsJsWhiteSpace(s[i])
    ensures lo < hi ==> !IsJsWhiteSpace(s[lo]) && !IsJsWhiteSpace(s[hi - 1])
  {
    var t := TrimStart(s);
    lo := |s| - |t|;
    hi := lo + |TrimEnd(t)|;
    SliceOfSuffix(s, lo, |TrimEnd(t)|);
    forall i | hi <= i < |s| ensures IsJsWhiteSpace(s[i]) {
      TrimEndTail(t, i - lo);
    }
  }

  /** A prefix of the suffix `s[lo..]` is a middle slice of `s`. */
  lemma SliceOfSuffix(s: string, lo: nat, n: nat)
    requires lo + n <= |s|
    ensures s[lo..][..n] == s[lo..lo + n]
  {
  }

  lemma TrimEndTail(t: string, k: int)
    requires |TrimEnd(t)| <= k < |t|
    ensures IsJsWhiteSpace(t[k])
  {
  }

  /** `s.trim().length > 0` exactly when `s` has a character that is not whitespace. */
  lemma TrimEmptyIffBlank(s: string)
    ensures |Trim(s)| > 0 <==> exists i :: 0 <= i < |s| && !IsJsWhiteSpace(s[i])
  {
    var lo, hi := TrimBounds(s);
    if |Trim(s)| > 0 {
      assert !IsJsWhiteSpace(s[lo]);
    } else {
      assert lo == hi;
    }
  }

  /** `s.replace(/p/, r)`: only the first occurrence of `p` is replaced. */
  function ReplaceFirst(s: string, p: string, r: string): string
    requires |p| > 0
  {
    if StartsWith(s, p) then r + s[|p|..]
    else if s == [] then []
    else [s[0]] + ReplaceFirst(s[1..], p, r)
  }

  /** Decimal digits of a natural number, as a template literal renders it. */
  function NatToString(n: nat): (r: string)
    ensures |r| > 0 && AllDigits(r)
  {
    if n < 10 then [DigitChar(n)] else NatToString(n / 10) + [DigitChar(n % 10)]
  }

  function DigitChar(d: nat): (c: char)
    requires d < 10
    ensures IsDigit(c) && c as int - '0' as int == d
  {
    ('0' as int + d) as char
  }

  /** Different numbers render differently: the decimal rendering can be read back. */
  lemma {:induction false} NatToStringInjective(n: nat, m: nat)
    ensures NatToString(n) == NatToString(m) ==> n == m
    decreases n
  {
    var a, b := NatToString(n), NatToString(m);
    if n >= 10 && m >= 10 {
      NatToStringInjective(n / 10, m / 10);
      if a == b {
        assert a[..|a| - 1] == NatToString(n / 10);
        assert b[..|b| - 1] == NatToString(m / 10);
        assert a[|a| - 1] == DigitChar(n % 10);
        assert b[|b| - 1] == DigitChar(m % 10);
      }
    } else if n >= 10 {
      assert |a| == |NatToString(n / 10)| + 1 > |b|;
    } else if m >= 10 {
      assert |b| == |NatToString(m / 10)| + 1 > |a|;
    }
  }

  /** The index of the first character that is not a digit (the length when there is none). */
  function DigitRunLength(s: string): (n: nat)
    ensures n <= |s| && AllDigits(s[..n]) && (n < |s| ==> !IsDigit(s[n]))
  {
    if s == [] || !IsDigit(s[0]) then 0 else 1 + DigitRunLength(s[1..])
  }

  /** In `x + [sep] + y` with `x` all digits and `sep` not a digit, the digit run is exactly `x`. */
  lemma {:induction false} DigitRunOfPrefix(x: string, sep: char, y: string)
    requires AllDigits(x) && !IsDigit(sep)
    ensures DigitRunLength(x + [sep] + y) == |x|
  {
    if x != [] {
      assert (x + [sep] + y)[1..] == x[1..] + [sep] + y;
      DigitRunOfPrefix(x[1..], sep, y);
    }
  }

  /**
   * A run of digits followed by a non-digit separator is determined by the
   * whole string: `x + [sep] + y == x' + [sep] + y'` forces `x == x'`.
   */
  lemma DigitsBeforeSeparator(x: string, y: string, x': string, y': string, sep: char)
    requires AllDigits(x) && AllDigits(x') && !IsDigit(sep)
    ensures x + [sep] + y == x' + [sep] + y' ==> x == x' && y == y'
  {
    var u, v := x + [sep] + y, x' + [sep] + y';
    DigitRunOfPrefix(x, sep, y);
    DigitRunOfPrefix(x', sep, y');
    if u == v {
      assert x == u[..|x|] && x' == v[..|x'|];
      assert y == u[|x| + 1..] && y' == v[|x'| + 1..];
    }
  }
}
