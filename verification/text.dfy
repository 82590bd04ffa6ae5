/** The handful of Python `str` operations the parsers rely on:
    `strip`, `split(sep)`, `split(sep, 1)`, `splitlines`, left-justified
    padding, and decimal digit strings. */
module Text {

  /** Python's `str.isspace` for a single character. */
  predicate IsSpace(c: char) {
    var n := c as int;
    || (9 <= n <= 13) || (0x1C <= n <= 0x20)
    || n == 0x85 || n == 0xA0 || n == 0x1680
    || (0x2000 <= n <= 0x200A)
    || n == 0x2028 || n == 0x2029 || n == 0x202F || n == 0x205F || n == 0x3000
  }

  predicate NoSpace(s: string) {
    forall i :: 0 <= i < |s| ==> !IsSpace(s[i])
  }

  /** Drops leading whitespace: the result is the suffix of `s` that starts
      at its first non-space character. */
  function TrimLeft(s: string): (r: string)
    ensures |r| <= |s| && r == s[|s| - |r|..]
    ensures forall i :: 0 <= i < |s| - |r| ==> IsSpace(s[i])
    ensures |r| > 0 ==> !IsSpace(r[0])
  {
    if |s| > 0 && IsSpace(s[0]) then TrimLeft(s[1..]) else s
  }

  /** Drops trailing whitespace: the result is the prefix of `s` that ends
      at its last non-space character. */
  function TrimRight(s: string): (r: string)
    ensures |r| <= |s| && r == s[..|r|]
    ensures forall i :: |r| <= i < |s| ==> IsSpace(s[i])
    ensures |r| > 0 ==> !IsSpace(r[|r| - 1])
  {
    if |s| > 0 && IsSpace(s[|s| - 1]) then TrimRight(s[..|s| - 1]) else s
  }

  /** Python's `str.strip()` with no argument. */
  function Strip(s: string): (r: string)
    ensures exists lo, hi :: 0 <= lo <= hi <= |s| && r == s[lo..hi]
    ensures |r| > 0 ==> !IsSpace(r[0]) && !IsSpace(r[|r| - 1])
  {
    var l := TrimLeft(s);
    var r := TrimRight(l);
    assert r == s[|s| - |l|..|s| - |l| + |r|];
    r
  }

  /** A string without leading or trailing whitespace is its own strip. */
  lemma StripUnchanged(s: string)
    requires |s| > 0 ==> !IsSpace(s[0]) && !IsSpace(s[|s| - 1])
    ensures Strip(s) == s
  {
  }

  /** A text with a non-space character strips to a non-empty text. */
  lemma StripKeeps(s: string, i: nat)
    requires i < |s| && !IsSpace(s[i])
    ensures |Strip(s)| > 0
  {
    var l := TrimLeft(s);
    assert i >= |s| - |l|;
    assert !IsSpace(l[0]);
  }

  /** `strip` is idempotent. */
  lemma StripIdempotent(s: string)
    ensures Strip(Strip(s)) == Strip(s)
  {
    StripUnchanged(Strip(s));
  }

  /** Position of the first `c` in `s`. */
  function IndexOf(s: string, c: char): (k: nat)
    requires c in s
    ensures k < |s| && s[k] == c && c !in s[..k]
  {
    if s[0] == c then 0 else 1 + IndexOf(s[1..], c)
  }

  /** Python's `s.split(sep)` for a one-character separator: the pieces
      between successive separators, always at least one. */
  function Split(s: string, sep: char): (r: seq<string>)
    ensures |r| >= 1
    ensures forall i :: 0 <= i < |r| ==> sep !in r[i]
    decreases |s|
  {
    if sep !in s then [s]
    else
      var k := IndexOf(s, sep);
      [s[..k]] + Split(s[k + 1..], sep)
  }

  /** Python's `sep.join(pieces)`. */
  function Join(pieces: seq<string>, sep: char): string {
    if |pieces| == 0 then ""
    else if |pieces| == 1 then pieces[0]
    else pieces[0] + [sep] + Join(pieces[1..], sep)
  }

  /** Splitting and re-joining on the same separator gives the input back. */
  lemma {:induction false} JoinSplit(s: string, sep: char)
    ensures Join(Split(s, sep), sep) == s
    decreases |s|
  {
    if sep in s {
      var k := IndexOf(s, sep);
      var rest := Split(s[k + 1..], sep);
      JoinSplit(s[k + 1..], sep);
      assert Split(s, sep) == [s[..k]] + rest;
      assert s == s[..k] + [sep] + s[k + 1..];
    }
  }

  /** Joining separator-free pieces and splitting again gives the pieces back. */
  lemma {:induction false} SplitJoin(pieces: seq<string>, sep: char)
    requires |pieces| >= 1
    requires forall i :: 0 <= i < |pieces| ==> sep !in pieces[i]
    ensures Split(Join(pieces, sep), sep) == pieces
  {
    if |pieces| > 1 {
      var s := Join(pieces, sep);
      var tail := Join(pieces[1..], sep);
      SplitJoin(pieces[1..], sep);
      assert s == pieces[0] + [sep] + tail;
      assert s[|pieces[0]|] == sep;
      assert s[..|pieces[0]|] == pieces[0];
      var k := IndexOf(s, sep);
      assert s[k + 1..] == tail;
    }
  }

  /** Python's `s.split(sep, 1)` when `sep` occurs: the text before and
      after its first occurrence. */
  function SplitOnce(s: string, sep: char): (r: (string, string))
    requires sep in s
    ensures sep !in r.0
    ensures r.0 + [sep] + r.1 == s
  {
    var k := IndexOf(s, sep);
    assert s == s[..k] + [sep] + s[k + 1..];
    (s[..k], s[k + 1..])
  }

  /** The first occurrence is the only position holding `c` with no `c` before it. */
  lemma IndexOfUnique(s: string, c: char, k: nat)
    requires k < |s| && s[k] == c && c !in s[..k]
    ensures IndexOf(s, c) == k
  {
  }

  /** `split(sep, 1)` cuts at a separator with none before it. */
  lemma SplitOnceAt(a: string, sep: char, b: string)
    requires sep !in a
    ensures SplitOnce(a + [sep] + b, sep) == (a, b)
  {
    var s := a + [sep] + b;
    assert s[..|a|] == a;
    IndexOfUnique(s, sep, |a|);
    assert s[|a| + 1..] == b;
  }

  /** Number of occurrences of `c` in `s`. */
  function Count(s: string, c: char): (n: nat)
    ensures n == 0 <==> c !in s
    ensures n <= |s|
  {
    if |s| == 0 then 0 else (if s[0] == c then 1 else 0) + Count(s[1..], c)
  }

  /** Counting distributes over concatenation. */
  lemma {:induction false} CountAppend(a: string, b: string, c: char)
    ensures Count(a + b, c) == Count(a, c) + Count(b, c)
    decreases |a|
  {
    if |a| == 0 {
      assert a + b == b;
    } else {
      assert (a + b)[1..] == a[1..] + b;
      CountAppend(a[1..], b, c);
    }
  }

  /** The line boundaries of Python's `str.splitlines`. */
  predicate IsLineBreak(c: char) {
    var n := c as int;
    || (10 <= n <= 13) || (0x1C <= n <= 0x1E)
    || n == 0x85 || n == 0x2028 || n == 0x2029
  }

  /** Index of the first line boundary in `s`, or `|s|` when there is none. */
  function LineEnd(s: string): (k: nat)
    ensures k <= |s|
    ensures forall i :: 0 <= i < k ==> !IsLineBreak(s[i])
    ensures k < |s| ==> IsLineBreak(s[k])
  {
    if |s| == 0 || IsLineBreak(s[0]) then 0 else 1 + LineEnd(s[1..])
  }

  /** Python's `str.splitlines()`: the text between line boundaries, where
      "\r\n" counts as one boundary and a final boundary adds no empty line. */
  function SplitLines(s: string): (r: seq<string>)
    ensures forall i, j :: 0 <= i < |r| && 0 <= j < |r[i]| ==> !IsLineBreak(r[i][j])
    ensures |r| == 0 <==> |s| == 0
    decreases |s|
  {
    if |s| == 0 then []
    else
      var k := LineEnd(s);
      if k == |s| then [s]
      else
        var next := if s[k] == '\r' && k + 1 < |s| && s[k + 1] == '\n' then k + 2 else k + 1;
        [s[..k]] + SplitLines(s[next..])
  }

  /** A non-empty text without line boundaries is a single line. */
  lemma SplitLinesSingle(s: string)
    requires |s| > 0
    requires forall i :: 0 <= i < |s| ==> !IsLineBreak(s[i])
    ensures SplitLines(s) == [s]
  {
  }

  /** `n` spaces. */
  function Spaces(n: nat): (r: string)
    ensures |r| == n && forall i :: 0 <= i < n ==> r[i] == ' '
  {
    if n == 0 then "" else " " + Spaces(n - 1)
  }

  /** Python's `f"{s:w}"` for a string: left-justified in a field of width `w`. */
  function PadRight(s: string, w: nat): (r: string)
    ensures |r| == if |s| >= w then |s| else w
    ensures r[..|s|] == s
    ensures forall i :: |s| <= i < |r| ==> r[i] == ' '
  {
    if |s| >= w then s else s + Spaces(w - |s|)
  }

  // ---- decimal digits -------------------------------------------------

  predicate IsDigit(c: char) {
    '0' <= c <= '9'
  }

  predicate AllDigits(s: string) {
    forall i :: 0 <= i < |s| ==> IsDigit(s[i])
  }

  function DigitChar(d: nat): (c: char)
    requires d < 10
    ensures IsDigit(c)
  {
    ['0', '1', '2', '3', '4', '5', '6', '7', '8', '9'][d]
  }

  function DigitValue(c: char): (d: nat)
    requires IsDigit(c)
    ensures d < 10
  {
    (c as int - '0' as int) as nat
  }

  lemma DigitRoundTrip(d: nat)
    requires d < 10
    ensures DigitValue(DigitChar(d)) == d
  {
  }

  /** The number a string of decimal digits denotes (0 for ""). */
  function ValueOf(s: string): nat
    requires AllDigits(s)
  {
    if |s| == 0 then 0 else ValueOf(s[..|s| - 1]) * 10 + DigitValue(s[|s| - 1])
  }

  function Pow10(w: nat): (p: nat)
    ensures p >= 1
  {
    if w == 0 then 1 else 10 * Pow10(w - 1)
  }

  /** The last `w` decimal digits of `n`, zero-padded: `%0wd` for `n < 10^w`. */
  function Digits(n: nat, w: nat): (r: string)
    ensures |r| == w && AllDigits(r)
  {
    if w == 0 then "" else Digits(n / 10, w - 1) + [DigitChar(n % 10)]
  }

  /** Reading a fixed-width digit string back yields the number modulo `10^w`. */
  lemma {:induction false} ValueOfDigits(n: nat, w: nat)
    ensures ValueOf(Digits(n, w)) == n % Pow10(w)
  {
    if w > 0 {
      var r := Digits(n, w);
      assert r[..w - 1] == Digits(n / 10, w - 1);
      ValueOfDigits(n / 10, w - 1);
      DigitRoundTrip(n % 10);
      ModPow10(n, w);
    }
  }

  lemma MulAtLeast(d: int, m: int)
    requires d >= 1 && m > 0
    ensures d * m >= m
  {
    assert d * m == (d - 1) * m + m;
  }

  /** Euclidean division is unique. */
  lemma DivModUnique(n: int, m: int, a: int, b: int)
    requires m > 0 && n == a * m + b && 0 <= b < m
    ensures n / m == a && n % m == b
  {
    var q, r := n / m, n % m;
    assert n == q * m + r;
    if a > q {
      assert a * m == (a - q) * m + q * m;
      MulAtLeast(a - q, m);
    } else if a < q {
      assert q * m == (q - a) * m + a * m;
      MulAtLeast(q - a, m);
    }
  }

  lemma ModPow10(n: nat, w: nat)
    requires w > 0
    ensures n % Pow10(w) == (n / 10) % Pow10(w - 1) * 10 + n % 10
  {
    var p := Pow10(w - 1);
    var q := (n / 10) / p;
    var r := (n / 10) % p;
    assert n / 10 == q * p + r;
    assert n == (n / 10) * 10 + n % 10;
    assert n == q * (10 * p) + (r * 10 + n % 10);
    DivModUnique(n, 10 * p, q, r * 10 + n % 10);
  }

  /** Python's `str(n)` for a natural number: no leading zeros. */
  function NatToString(n: nat): (r: string)
    ensures |r| >= 1 && AllDigits(r)
  {
    if n < 10 then [DigitChar(n)] else NatToString(n / 10) + [DigitChar(n % 10)]
  }

  /** `str(n)` reads back as `n`. */
  lemma {:induction false} ValueOfNatToString(n: nat)
    ensures ValueOf(NatToString(n)) == n
  {
    var r := NatToString(n);
    DigitRoundTrip(n % 10);
    if n >= 10 {
      assert r[..|r| - 1] == NatToString(n / 10);
      ValueOfNatToString(n / 10);
    }
  }
}
