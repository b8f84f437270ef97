/** Small value types and text operations shared by every part of the model:
    an Option type, substring search, the two `split` shapes the tape client
    uses, whitespace trimming with a caller-chosen whitespace set, and the
    decimal rendering of integers that JavaScript's `toString` and template
    literals perform. */
module Common {

  datatype Option<+T> = None | Some(value: T)

  /** Python `p in s`, JavaScript `s.includes(p)`; characterised by
      `ContainsIff`. */
  function Contains(s: string, p: string): (r: bool)
    decreases |s|
  {
    if p <= s then true
    else if |s| == 0 then false
    else Contains(s[1..], p)
  }

  /** `Contains` holds iff `p` occurs in `s` at some position. */
  lemma {:induction false} ContainsIff(s: string, p: string)
    ensures Contains(s, p) <==> exists i :: 0 <= i <= |s| && p <= s[i..]
    decreases |s|
  {
    if p <= s {
      assert p <= s[0..];
    } else if |s| > 0 {
      ContainsIff(s[1..], p);
      assert forall i :: 1 <= i <= |s| ==> s[i..] == s[1..][i - 1..];
      if exists i :: 0 <= i <= |s| && p <= s[i..] {
        var i :| 0 <= i <= |s| && p <= s[i..];
        assert i != 0;
        assert p <= s[1..][i - 1..];
      }
    }
  }

  /** Python `s.split(sep)[0]`: the text before the first occurrence of
      `sep`, or all of `s`; characterised by `BeforeFirstSpec`. */
  function BeforeFirst(s: string, sep: string): (r: string)
    requires |sep| > 0
    decreases |s|
  {
    if sep <= s then []
    else if |s| == 0 then []
    else [s[0]] + BeforeFirst(s[1..], sep)
  }

  /** `BeforeFirst` is a prefix of `s` in which `sep` does not start, and it
      is either all of `s` or followed by `sep`. */
  lemma {:induction false} BeforeFirstSpec(s: string, sep: string)
    requires |sep| > 0
    ensures BeforeFirst(s, sep) <= s
    ensures forall i :: 0 <= i < |BeforeFirst(s, sep)| ==> !(sep <= s[i..])
    ensures BeforeFirst(s, sep) == s || sep <= s[|BeforeFirst(s, sep)|..]
    decreases |s|
  {
    if !(sep <= s) && |s| > 0 {
      BeforeFirstSpec(s[1..], sep);
      assert forall i :: 1 <= i <= |s| ==> s[i..] == s[1..][i - 1..];
    }
  }

  /** Python `s.split(c)[-1]`: the text after the last occurrence of `c`, or
      all of `s`; characterised by `AfterLastSpec`. */
  function AfterLast(s: string, c: char): (r: string)
    decreases |s|
  {
    if |s| == 0 then []
    else if s[|s| - 1] == c then []
    else AfterLast(s[..|s| - 1], c) + [s[|s| - 1]]
  }

  /** `AfterLast` is a suffix of `s` free of `c`, and it is either all of `s`
      or preceded by `c`. */
  lemma {:induction false} AfterLastSpec(s: string, c: char)
    ensures |AfterLast(s, c)| <= |s| && AfterLast(s, c) == s[|s| - |AfterLast(s, c)|..]
    ensures c !in AfterLast(s, c)
    ensures AfterLast(s, c) == s || s[|s| - |AfterLast(s, c)| - 1] == c
    decreases |s|
  {
    if |s| > 0 && s[|s| - 1] != c {
      var t := s[..|s| - 1];
      AfterLastSpec(t, c);
      var r' := AfterLast(t, c);
      assert AfterLast(s, c) == r' + [s[|s| - 1]];
      assert t[|t| - |r'|..] + [s[|s| - 1]] == s[|s| - 1 - |r'|..];
      if r' != t {
        assert t[|t| - |r'| - 1] == s[|s| - |r'| - 2];
      }
    }
  }

  /** Python's `str.isspace` characters (used by `str.strip()`). */
  const PythonWhitespace: set<char> :=
    {'\t', '\n', '\U{0B}', '\U{0C}', '\r', '\U{1C}', '\U{1D}', '\U{1E}', '\U{1F}', ' ',
     '\U{85}', '\U{A0}', '\U{1680}', '\U{2000}', '\U{2001}', '\U{2002}', '\U{2003}',
     '\U{2004}', '\U{2005}', '\U{2006}', '\U{2007}', '\U{2008}', '\U{2009}', '\U{200A}',
     '\U{2028}', '\U{2029}', '\U{202F}', '\U{205F}', '\U{3000}'}

  /** ECMAScript WhiteSpace and LineTerminator characters (used by `String.prototype.trim`). */
  const JsWhitespace: set<char> :=
    {'\t', '\n', '\U{0B}', '\U{0C}', '\r', ' ', '\U{A0}', '\U{1680}', '\U{2000}',
     '\U{2001}', '\U{2002}', '\U{2003}', '\U{2004}', '\U{2005}', '\U{2006}', '\U{2007}',
     '\U{2008}', '\U{2009}', '\U{200A}', '\U{2028}', '\U{2029}', '\U{202F}', '\U{205F}',
     '\U{3000}', '\U{FEFF}'}

  /** Drops the leading characters that are in `ws`. */
  function TrimStart(s: string, ws: set<char>): (r: string)
    decreases |s|
  {
    if |s| > 0 && s[0] in ws then TrimStart(s[1..], ws) else s
  }

  /** Drops the trailing characters that are in `ws`. */
  function TrimEnd(s: string, ws: set<char>): (r: string)
    decreases |s|
  {
    if |s| > 0 && s[|s| - 1] in ws then TrimEnd(s[..|s| - 1], ws) else s
  }

  /** Python `s.strip()`, JavaScript `s.trim()`: whitespace removed from both
      ends; characterised by `TrimIs`. */
  function Trim(s: string, ws: set<char>): (r: string)
  {
    TrimEnd(TrimStart(s, ws), ws)
  }

  /** `p` occurs in `s` at position `i`. */
  lemma ContainsAt(s: string, p: string, i: int)
    requires 0 <= i <= |s| && p <= s[i..]
    ensures Contains(s, p)
  {
    ContainsIff(s, p);
  }

  /** `p` occurs in any text that has it in the middle. */
  lemma ContainsInfix(a: string, p: string, b: string)
    ensures Contains(a + p + b, p)
  {
    assert (a + p + b)[|a|..] == p + b;
    ContainsAt(a + p + b, p, |a|);
  }

  /** `p` cannot occur in `s` when one of its characters never does. */
  lemma NotContainsChar(s: string, p: string, c: char)
    requires c in p && c !in s
    ensures !Contains(s, p)
  {
    ContainsIff(s, p);
    var j :| 0 <= j < |p| && p[j] == c;
    forall i | 0 <= i <= |s|
      ensures !(p <= s[i..])
    {
      if i + j < |s| {
        assert s[i..][j] == s[i + j];
      }
    }
  }

  /** The first occurrence of `sep` starts at `j`, so the text before it is
      `s[..j]`. */
  lemma BeforeFirstAt(s: string, sep: string, j: int)
    requires |sep| > 0 && 0 <= j <= |s| && sep <= s[j..]
    requires forall i :: 0 <= i < j ==> !(sep <= s[i..])
    ensures BeforeFirst(s, sep) == s[..j]
  {
    BeforeFirstSpec(s, sep);
  }

  /** The last occurrence of `c` is at `j`, so the text after it is `s[j + 1..]`. */
  lemma AfterLastAt(s: string, c: char, j: int)
    requires 0 <= j < |s| && s[j] == c
    requires forall i :: j < i < |s| ==> s[i] != c
    ensures AfterLast(s, c) == s[j + 1..]
  {
    AfterLastSpec(s, c);
  }

  /** No occurrence of `sep` starts before `j` when its character at offset
      `m` is missing from the stretch of `s` such an occurrence would use. */
  lemma NoOccurrenceBefore(s: string, sep: string, j: int, m: int)
    requires 0 <= m < |sep| && 0 <= j && j + m <= |s|
    requires sep[m] !in s[m..j + m]
    ensures forall i :: 0 <= i < j ==> !(sep <= s[i..])
  {
    forall i | 0 <= i < j
      ensures !(sep <= s[i..])
    {
      assert s[m..j + m][i] == s[i + m];
    }
  }

  /** Leading whitespace ends at `k`. */
  lemma {:induction false} TrimStartIs(s: string, ws: set<char>, k: int)
    requires 0 <= k <= |s|
    requires forall i :: 0 <= i < k ==> s[i] in ws
    requires k < |s| ==> s[k] !in ws
    ensures TrimStart(s, ws) == s[k..]
    decreases k
  {
    if k > 0 {
      TrimStartIs(s[1..], ws, k - 1);
      assert s[1..][k - 1..] == s[k..];
    }
  }

  /** Trailing whitespace starts at `m`. */
  lemma {:induction false} TrimEndIs(s: string, ws: set<char>, m: int)
    requires 0 <= m <= |s|
    requires forall i :: m <= i < |s| ==> s[i] in ws
    requires m > 0 ==> s[m - 1] !in ws
    ensures TrimEnd(s, ws) == s[..m]
    decreases |s| - m
  {
    if m < |s| {
      TrimEndIs(s[..|s| - 1], ws, m);
      assert s[..|s| - 1][..m] == s[..m];
    }
  }

  /** The trimmed text is the non-empty slice `s[k..k + n]` when everything
      outside it is whitespace and it neither starts nor ends with it. */
  lemma TrimIs(s: string, ws: set<char>, k: int, n: int)
    requires 0 <= k && 0 < n && k + n <= |s|
    requires forall i :: 0 <= i < k ==> s[i] in ws
    requires forall i :: k + n <= i < |s| ==> s[i] in ws
    requires s[k] !in ws && s[k + n - 1] !in ws
    ensures Trim(s, ws) == s[k..k + n]
  {
    TrimStartIs(s, ws, k);
    var t := s[k..];
    forall i | n <= i < |t|
      ensures t[i] in ws
    {
      assert t[i] == s[k + i];
    }
    assert t[n - 1] == s[k + n - 1];
    TrimEndIs(t, ws, n);
    assert t[..n] == s[k..k + n];
  }

  /** The properties every JavaScript object literal inherits from
      `Object.prototype`; reading one of them from a plain object gives a
      function (or, for `__proto__`, the prototype itself), and the `in`
      operator reports each of them as present. */
  const ObjectPrototypeNames: set<string> :=
    {"constructor", "hasOwnProperty", "isPrototypeOf", "propertyIsEnumerable",
     "toLocaleString", "toString", "valueOf", "__proto__", "__defineGetter__",
     "__defineSetter__", "__lookupGetter__", "__lookupSetter__"}

  /** The decimal digits of a natural number, most significant first. */
  function NatToString(n: nat): (r: string)
    ensures |r| > 0
    ensures forall i :: 0 <= i < |r| ==> '0' <= r[i] <= '9'
    ensures |r| > 1 ==> r[0] != '0'
    decreases n
  {
    var d := [(('0' as int) + n % 10) as char];
    if n < 10 then d else NatToString(n / 10) + d
  }

  /** The value of a string of decimal digits. */
  function DigitsValue(s: string): nat
    requires forall i :: 0 <= i < |s| ==> '0' <= s[i] <= '9'
  {
    if |s| == 0 then 0 else DigitsValue(s[..|s| - 1]) * 10 + (s[|s| - 1] as int - '0' as int)
  }

  /** NatToString writes exactly the digits of its argument. */
  lemma {:induction false} NatToStringValue(n: nat)
    ensures DigitsValue(NatToString(n)) == n
    decreases n
  {
    var s := NatToString(n);
    if n >= 10 {
      NatToStringValue(n / 10);
      assert s[..|s| - 1] == NatToString(n / 10);
    }
  }

  /** JavaScript's `String(i)` for an integer-valued number. */
  function IntToString(i: int): (r: string)
    ensures |r| > 0
    ensures i < 0 <==> r[0] == '-'
    ensures i >= 0 ==> r == NatToString(i)
    ensures i < 0 ==> r[1..] == NatToString(-i)
  {
    if i < 0 then "-" + NatToString(-i) else NatToString(i)
  }
}
