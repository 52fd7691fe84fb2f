/** The handful of Python `str` operations the core relies on: `strip`,
    `lower`, `in` (substring test), `startswith`, slicing `s[:n]`,
    `split(sep)[1]`, `split("/", 1)` and `f"{n}"` for integers. */
module Text {
  import opened Wrappers

  /** Python's `str.isspace`: the ASCII whitespace and separator controls,
      and the Unicode space separators, line and paragraph separators. */
  predicate IsSpace(c: char)
  {
    c == ' ' || ('\t' <= c <= '\r') || ('\U{1C}' <= c <= '\U{1F}')
    || c == '\U{85}' || c == '\U{A0}' || c == '\U{1680}'
    || ('\U{2000}' <= c <= '\U{200A}') || c == '\U{2028}' || c == '\U{2029}'
    || c == '\U{202F}' || c == '\U{205F}' || c == '\U{3000}'
  }

  predicate IsDigit(c: char)
  {
    '0' <= c <= '9'
  }

  /** `str.isalnum`, restricted to ASCII letters and digits. */
  predicate IsAlnum(c: char)
  {
    IsDigit(c) || ('a' <= c <= 'z') || ('A' <= c <= 'Z')
  }

  function LowerChar(c: char): char
  {
    if 'A' <= c <= 'Z' then c - 'A' + 'a' else c
  }

  function UpperChar(c: char): char
  {
    if 'a' <= c <= 'z' then c - 'a' + 'A' else c
  }

  /** `str.lower`, on ASCII letters. */
  function Lower(s: string): (r: string)
    ensures |r| == |s|
    ensures forall i {:trigger r[i]} :: 0 <= i < |s| ==> r[i] == LowerChar(s[i])
  {
    seq(|s|, i requires 0 <= i < |s| => LowerChar(s[i]))
  }

  /** `str.upper`, on ASCII letters. */
  function Upper(s: string): (r: string)
    ensures |r| == |s|
    ensures forall i {:trigger r[i]} :: 0 <= i < |s| ==> r[i] == UpperChar(s[i])
  {
    seq(|s|, i requires 0 <= i < |s| => UpperChar(s[i]))
  }

  function Min(a: nat, b: nat): nat
  {
    if a < b then a else b
  }

  /** Python's `s[:n]` for a non-negative `n`. */
  function Take<T>(s: seq<T>, n: nat): (r: seq<T>)
    ensures |r| == Min(|s|, n)
    ensures r == s[..|r|]
  {
    if |s| <= n then s else s[..n]
  }

  predicate StartsWith(s: string, prefix: string)
  {
    |prefix| <= |s| && s[..|prefix|] == prefix
  }

  /** Python's `sub in s` for two strings. */
  predicate Contains(s: string, sub: string)
    decreases |s|
  {
    StartsWith(s, sub) || (|s| > 0 && Contains(s[1..], sub))
  }

  /** The left half of `str.strip()`: drops leading whitespace. */
  function LStrip(s: string): (r: string)
    ensures |r| <= |s| && r == s[|s| - |r|..]
    ensures r == [] || !IsSpace(r[0])
    ensures forall i :: 0 <= i < |s| - |r| ==> IsSpace(s[i])
    decreases |s|
  {
    if |s| > 0 && IsSpace(s[0]) then LStrip(s[1..]) else s
  }

  /** The right half of `str.strip()`: drops trailing whitespace. */
  function RStrip(s: string): (r: string)
    ensures |r| <= |s| && r == s[..|r|]
    ensures r == [] || !IsSpace(r[|r| - 1])
    ensures forall i :: |r| <= i < |s| ==> IsSpace(s[i])
    decreases |s|
  {
    if |s| > 0 && IsSpace(s[|s| - 1]) then RStrip(s[..|s| - 1]) else s
  }

  /** Python's `str.strip()`. */
  function Strip(s: string): (r: string)
  {
    RStrip(LStrip(s))
  }

  /** Python's `s.split(sep)[0]`: the text before the first occurrence of
      `sep`, or all of `s` when `sep` does not occur. */
  function UpTo(s: string, sep: string): (r: string)
    requires sep != []
    ensures |r| <= |s| && r == s[..|r|]
    ensures forall i :: 0 <= i < |r| ==> !StartsWith(s[i..], sep)
    ensures r == s || StartsWith(s[|r|..], sep)
    decreases |s|
  {
    if StartsWith(s, sep) || s == [] then []
    else
      var rest := UpTo(s[1..], sep);
      assert forall i :: 1 <= i <= |s| ==> s[i..] == s[1..][i - 1..];
      [s[0]] + rest
  }

  /** The position of the first `c` in `s` (`str.find`). */
  function IndexOf(s: string, c: char): (r: Option<nat>)
    ensures r.Some? <==> c in s
    ensures r.Some? ==> r.value < |s| && s[r.value] == c && c !in s[..r.value]
    decreases |s|
  {
    if s == [] then None
    else if s[0] == c then Some(0)
    else match IndexOf(s[1..], c)
      case None => None
      case Some(k) =>
        assert s[1..][..k] == s[1..k + 1];
        Some(k + 1)
  }

  /** Python's `s.split(c, 1)` when `c` occurs in `s`: the parts before and
      after the first `c`. */
  function SplitFirst(s: string, c: char): (parts: (string, string))
    requires c in s
    ensures c !in parts.0
    ensures parts.0 + [c] + parts.1 == s
  {
    var k := IndexOf(s, c).value;
    assert s[..k] + [c] + s[k + 1..] == s;
    (s[..k], s[k + 1..])
  }

  function DigitChar(d: nat): char
    requires d < 10
  {
    '0' + d as char
  }

  /** Python's `str(n)` for a natural number: no leading zero, except in
      "0" itself. */
  function NatToString(n: nat): (r: string)
    ensures r != [] && forall i :: 0 <= i < |r| ==> IsDigit(r[i])
    ensures r[0] == '0' <==> n == 0
    ensures n == 0 ==> r == "0"
    decreases n
  {
    if n < 10 then [DigitChar(n)] else NatToString(n / 10) + [DigitChar(n % 10)]
  }

  /** Python's `f"{n}"` for an integer. */
  function IntToString(n: int): string
  {
    if n < 0 then "-" + NatToString(-n) else NatToString(n)
  }

  /** Python's `int(ds)` for a string of decimal digits. */
  function DecimalValue(ds: string): nat
    requires forall i :: 0 <= i < |ds| ==> IsDigit(ds[i])
    decreases |ds|
  {
    if ds == [] then 0
    else
      assert IsDigit(ds[|ds| - 1]);
      DecimalValue(ds[..|ds| - 1]) * 10 + (ds[|ds| - 1] as int - '0' as int) as nat
  }

  // ---------------------------------------------------------------------
  // Facts about the operations above.

  /** `int(str(n)) == n`. */
  lemma {:induction false} DecimalOfNatToString(n: nat)
    ensures DecimalValue(NatToString(n)) == n
    decreases n
  {
    if n >= 10 {
      var s := NatToString(n);
      assert s[..|s| - 1] == NatToString(n / 10);
      DecimalOfNatToString(n / 10);
    }
  }

  /** Splitting at the first `c` undoes joining with `c`, as long as the
      first part has no `c` of its own. */
  lemma SplitFirstJoin(a: string, c: char, b: string)
    requires c !in a
    ensures c in a + [c] + b
    ensures SplitFirst(a + [c] + b, c) == (a, b)
  {
    var s := a + [c] + b;
    assert s[|a|] == c;
    assert forall i :: 0 <= i < |a| ==> s[i] == a[i];
    assert s[..|a|] == a && s[|a| + 1..] == b;
  }

  lemma {:induction false} ContainsInfix(a: string, sub: string, b: string)
    ensures Contains(a + sub + b, sub)
    decreases |a|
  {
    var s := a + sub + b;
    if a == [] {
      assert s[..|sub|] == sub;
    } else {
      assert s[1..] == a[1..] + sub + b;
      ContainsInfix(a[1..], sub, b);
    }
  }

  lemma LowerAppend(a: string, b: string)
    ensures Lower(a + b) == Lower(a) + Lower(b)
  {
    assert forall i :: 0 <= i < |a + b| ==> Lower(a + b)[i] == (Lower(a) + Lower(b))[i];
  }

  lemma LowerOfUpper(s: string)
    ensures Lower(Upper(s)) == Lower(s)
  {
    assert forall i :: 0 <= i < |s| ==> Lower(Upper(s))[i] == Lower(s)[i];
  }

  predicate AllSpace(s: string)
  {
    forall i :: 0 <= i < |s| ==> IsSpace(s[i])
  }

  /** Stripping `x + y`, where `x` ends in a visible character, keeps `x`
      whole and strips `y` alone. */
  lemma {:induction false} RStripAppend(x: string, y: string)
    requires x != [] && !IsSpace(x[|x| - 1])
    ensures RStrip(x + y) == x + RStrip(y)
    decreases |y|
  {
    var s := x + y;
    if y != [] && IsSpace(y[|y| - 1]) {
      assert s[..|s| - 1] == x + y[..|y| - 1];
      RStripAppend(x, y[..|y| - 1]);
    } else if y == [] {
      assert s == x;
    }
  }

  lemma {:induction false} LStripSpaces(ws: string, t: string)
    requires AllSpace(ws)
    requires t == [] || !IsSpace(t[0])
    ensures LStrip(ws + t) == t
    decreases |ws|
  {
    if ws == [] {
      assert ws + t == t;
    } else {
      assert (ws + t)[1..] == ws[1..] + t;
      LStripSpaces(ws[1..], t);
    }
  }

  /** `str.strip()` removes exactly the surrounding whitespace. */
  lemma StripSurrounding(ws1: string, t: string, ws2: string)
    requires AllSpace(ws1) && AllSpace(ws2)
    requires t != [] && !IsSpace(t[0]) && !IsSpace(t[|t| - 1])
    ensures Strip(ws1 + t + ws2) == t
  {
    assert ws1 + t + ws2 == ws1 + (t + ws2);
    LStripSpaces(ws1, t + ws2);
    RStripAppend(t, ws2);
    assert RStrip(ws2) == [];
    assert t + [] == t;
  }

  /** A string that neither starts nor ends with whitespace is its own strip. */
  lemma StripVisible(t: string)
    requires t != [] && !IsSpace(t[0]) && !IsSpace(t[|t| - 1])
    ensures Strip(t) == t
  {
    StripSurrounding([], t, []);
    assert [] + t + [] == t;
  }
}
