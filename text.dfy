/** The pieces of Go's `strings` and `strconv` packages that the modelled code
  * relies on, written over runes (`char`). */
module Text {
  import opened Wrappers

  predicate IsDigit(c: char) { '0' <= c <= '9' }

  predicate AllDigits(s: string) { forall i :: 0 <= i < |s| ==> IsDigit(s[i]) }

  /** `unicode.IsSpace`, the predicate behind `strings.TrimSpace`. */
  predicate IsSpace(c: char)
  {
    ('\t' <= c <= '\r') || c == ' ' || c == '\U{0085}' || c == '\U{00A0}' || c == '\U{1680}'
    || ('\U{2000}' <= c <= '\U{200A}') || c == '\U{2028}' || c == '\U{2029}'
    || c == '\U{202F}' || c == '\U{205F}' || c == '\U{3000}'
  }

  predicate AllSpace(s: string) { forall i :: 0 <= i < |s| ==> IsSpace(s[i]) }

  /** Number of leading white-space runes. */
  function LeadingSpaces(s: string): (n: nat)
    ensures n <= |s|
    ensures forall i :: 0 <= i < n ==> IsSpace(s[i])
    ensures n == |s| || !IsSpace(s[n])
  {
    if |s| > 0 && IsSpace(s[0]) then
      var k := LeadingSpaces(s[1..]);
      assert forall i :: 1 <= i < k + 1 ==> s[i] == s[1..][i - 1];
      k + 1
    else 0
  }

  /** Number of trailing white-space runes. */
  function TrailingSpaces(s: string): (n: nat)
    ensures n <= |s|
    ensures forall i :: |s| - n <= i < |s| ==> IsSpace(s[i])
    ensures n == |s| || !IsSpace(s[|s| - n - 1])
  {
    if |s| > 0 && IsSpace(s[|s| - 1]) then
      var k := TrailingSpaces(s[..|s| - 1]);
      assert forall i :: |s| - k - 1 <= i < |s| - 1 ==> s[i] == s[..|s| - 1][i];
      k + 1
    else 0
  }

  /** `strings.TrimSpace`: the slice of `s` between its leading and trailing
    * white space. */
  function TrimSpace(s: string): (r: string)
    ensures |r| <= |s|
    ensures r == [] || (!IsSpace(r[0]) && !IsSpace(r[|r| - 1]))
    ensures r == [] <==> AllSpace(s)
  {
    var a := LeadingSpaces(s);
    var t := s[a..];
    var b := TrailingSpaces(t);
    assert a < |s| ==> t[0] == s[a] && !IsSpace(t[0]);
    assert a < |s| ==> b < |t|;
    t[..|t| - b]
  }

  /** A trimmed string is its own trim. */
  lemma {:induction false} TrimSpaceIdempotent(s: string)
    ensures TrimSpace(TrimSpace(s)) == TrimSpace(s)
  {
    var r := TrimSpace(s);
    if r != [] {
      assert LeadingSpaces(r) == 0;
      assert TrailingSpaces(r) == 0;
    }
  }

  /** Trimming adds no rune. */
  lemma TrimSpaceWithin(s: string, c: char)
    requires c !in s
    ensures c !in TrimSpace(s)
  {
    var a := LeadingSpaces(s);
    var t := s[a..];
    var r := TrimSpace(s);
    assert r == t[..|t| - TrailingSpaces(t)];
    forall i | 0 <= i < |r| ensures r[i] != c {
      assert r[i] == s[a + i];
    }
  }

  /** A string without white space at either end is its own trim. */
  lemma TrimSpaceUnchanged(s: string)
    requires s == [] || (!IsSpace(s[0]) && !IsSpace(s[|s| - 1]))
    ensures TrimSpace(s) == s
  {
    if s != [] {
      assert LeadingSpaces(s) == 0;
      assert TrailingSpaces(s) == 0;
    }
  }

  /** Whether `t` occurs at position `i` of `s`. */
  predicate At(s: string, i: int, t: string)
  {
    0 <= i && i + |t| <= |s| && s[i..i + |t|] == t
  }

  /** An occurrence of `t` starts with `t`'s first rune. */
  lemma AtFirstRune(s: string, i: int, t: string)
    ensures At(s, i, t) && |t| > 0 ==> s[i] == t[0]
  {
    if At(s, i, t) && |t| > 0 {
      assert s[i..i + |t|][0] == s[i];
    }
  }

  /** Three texts occurring one after the other form one occurrence of
    * their concatenation. */
  lemma AtAdjacent(s: string, i: nat, a: string, b: string, c: string)
    requires At(s, i, a) && At(s, i + |a|, b) && At(s, i + |a| + |b|, c)
    ensures At(s, i, a + b + c)
  {
    var n := |a| + |b| + |c|;
    forall p | 0 <= p < n ensures s[i..i + n][p] == (a + b + c)[p] {
      if p < |a| {
        assert s[i..i + |a|][p] == s[i + p];
      } else if p < |a| + |b| {
        assert s[i + |a|..i + |a| + |b|][p - |a|] == s[i + p];
      } else {
        assert s[i + |a| + |b|..i + n][p - |a| - |b|] == s[i + p];
      }
    }
  }

  predicate HasPrefix(s: string, t: string) { At(s, 0, t) }

  /** `strings.Contains`. */
  predicate Contains(s: string, t: string)
  {
    exists i | 0 <= i <= |s| :: At(s, i, t)
  }

  /** Index of the first occurrence of rune `c`, or `|s|` when it is absent. */
  function IndexOf(s: string, c: char): (k: nat)
    ensures k <= |s|
    ensures forall i :: 0 <= i < k ==> s[i] != c
    ensures k < |s| <==> c in s
    ensures k < |s| ==> s[k] == c
  {
    if |s| == 0 then 0
    else if s[0] == c then 0
    else
      var k := IndexOf(s[1..], c);
      assert forall i :: 1 <= i < k + 1 ==> s[i] == s[1..][i - 1];
      assert c in s[1..] ==> c in s;
      assert c in s && s[0] != c ==> c in s[1..] by {
        if c in s && s[0] != c {
          var j :| 0 <= j < |s| && s[j] == c;
          assert s[1..][j - 1] == c;
        }
      }
      k + 1
  }

  /** `strings.Join` with a one-rune separator. */
  function Join(parts: seq<string>, sep: char): string
  {
    if |parts| == 0 then ""
    else if |parts| == 1 then parts[0]
    else parts[0] + [sep] + Join(parts[1..], sep)
  }

  /** `strings.Split` with a one-rune separator: every piece is free of the
    * separator and joining the pieces gives back the input. */
  function Split(s: string, sep: char): (parts: seq<string>)
    ensures |parts| >= 1
    ensures forall i :: 0 <= i < |parts| ==> sep !in parts[i]
    ensures Join(parts, sep) == s
    decreases |s|
  {
    var k := IndexOf(s, sep);
    if k == |s| then [s]
    else
      var rest := Split(s[k + 1..], sep);
      assert s[..k] + [sep] + s[k + 1..] == s;
      assert sep !in s[..k] by {
        forall i | 0 <= i < k ensures s[..k][i] != sep { assert s[..k][i] == s[i]; }
      }
      [s[..k]] + rest
  }

  lemma SplitNone(a: string, sep: char)
    requires sep !in a
    ensures Split(a, sep) == [a]
  {
  }

  lemma SplitPair(a: string, b: string, sep: char)
    requires sep !in a && sep !in b
    ensures Split(a + [sep] + b, sep) == [a, b]
  {
    var s := a + [sep] + b;
    assert forall i :: 0 <= i < |a| ==> s[i] == a[i];
    assert IndexOf(s, sep) == |a|;
    assert s[..|a|] == a && s[|a| + 1..] == b;
    SplitNone(b, sep);
  }

  /** A first piece free of the separator splits off on its own. */
  lemma SplitCons(a: string, b: string, sep: char)
    requires sep !in a
    ensures Split(a + [sep] + b, sep) == [a] + Split(b, sep)
  {
    var s := a + [sep] + b;
    assert forall i :: 0 <= i < |a| ==> s[i] == a[i] && a[i] != sep;
    assert s[|a|] == sep;
    assert IndexOf(s, sep) == |a|;
    assert s[..|a|] == a && s[|a| + 1..] == b;
  }

  /** Splitting undoes joining when no part holds the separator. */
  lemma {:induction false} SplitJoin(parts: seq<string>, sep: char)
    requires |parts| >= 1
    requires forall i :: 0 <= i < |parts| ==> sep !in parts[i]
    ensures Split(Join(parts, sep), sep) == parts
  {
    if |parts| == 1 {
      SplitNone(parts[0], sep);
    } else {
      SplitJoin(parts[1..], sep);
      SplitCons(parts[0], Join(parts[1..], sep), sep);
      assert parts == [parts[0]] + parts[1..];
    }
  }

  /** Replacing a pattern whose first rune never occurs changes nothing. */
  lemma {:induction false} ReplaceAllAbsent(s: string, pat: string, rep: string)
    requires |pat| > 0 && pat[0] !in s
    ensures ReplaceAll(s, pat, rep) == s
    decreases |s|
  {
    if |s| > 0 {
      assert !HasPrefix(s, pat) by {
        if |pat| <= |s| {
          assert s[..|pat|][0] == s[0];
        }
      }
      assert pat[0] !in s[1..];
      ReplaceAllAbsent(s[1..], pat, rep);
      assert s == [s[0]] + s[1..];
    }
  }

  /** `strings.SplitN(s, sep, 2)` with a one-rune separator. */
  function SplitOnce(s: string, sep: char): (parts: seq<string>)
    ensures 1 <= |parts| <= 2
    ensures |parts| == 2 <==> sep in s
    ensures sep !in parts[0]
    ensures Join(parts, sep) == s
  {
    var k := IndexOf(s, sep);
    if k == |s| then [s]
    else
      assert s[..k] + [sep] + s[k + 1..] == s;
      assert sep !in s[..k] by {
        forall i | 0 <= i < k ensures s[..k][i] != sep { assert s[..k][i] == s[i]; }
      }
      [s[..k], s[k + 1..]]
  }

  /** `strings.ReplaceAll` for a non-empty pattern: leftmost, non-overlapping. */
  function ReplaceAll(s: string, pat: string, rep: string): string
    requires |pat| > 0
    decreases |s|
  {
    if |s| == 0 then ""
    else if HasPrefix(s, pat) then rep + ReplaceAll(s[|pat|..], pat, rep)
    else [s[0]] + ReplaceAll(s[1..], pat, rep)
  }

  /** SplitN at a first separator after a separator-free head. */
  lemma SplitOnceAt(a: string, b: string, sep: char)
    requires sep !in a
    ensures SplitOnce(a + [sep] + b, sep) == [a, b]
  {
    var s := a + [sep] + b;
    assert forall i :: 0 <= i < |a| ==> s[i] == a[i] && a[i] != sep;
    assert s[|a|] == sep;
    assert IndexOf(s, sep) == |a|;
    assert s[..|a|] == a && s[|a| + 1..] == b;
  }

  /** `strings.ToUpper` restricted to ASCII letters. */
  function UpperRune(c: char): char
  {
    if 'a' <= c <= 'z' then (c as int - 32) as char else c
  }

  function ToUpper(s: string): (r: string)
    ensures |r| == |s|
    ensures forall i :: 0 <= i < |s| ==> r[i] == UpperRune(s[i])
  {
    if |s| == 0 then "" else [UpperRune(s[0])] + ToUpper(s[1..])
  }

  function DigitValue(c: char): nat
    requires IsDigit(c)
  {
    c as int - '0' as int
  }

  /** The value of a run of decimal digits. */
  function DigitsValue(s: string): nat
    requires AllDigits(s)
  {
    if |s| == 0 then 0 else DigitsValue(s[..|s| - 1]) * 10 + DigitValue(s[|s| - 1])
  }

  const MinInt64: int := -0x8000_0000_0000_0000
  const MaxInt64: int := 0x7FFF_FFFF_FFFF_FFFF

  predicate InInt64(v: int) { MinInt64 <= v <= MaxInt64 }

  /** `strconv.Atoi` on a 64-bit platform: an optional sign, at least one
    * ASCII digit, nothing else, and a value that fits in 64 bits. */
  function Atoi(s: string): (r: Option<int>)
    ensures r.Some? ==> InInt64(r.value)
    ensures r.Some? ==> |s| > 0
    ensures r.Some? && r.value < 0 ==> s[0] == '-'
  {
    if |s| == 0 then None
    else
      var neg := s[0] == '-';
      var digits := if s[0] == '+' || s[0] == '-' then s[1..] else s;
      if |digits| == 0 || !AllDigits(digits) then None
      else
        var n: int := DigitsValue(digits);
        var v := if neg then -n else n;
        if InInt64(v) then Some(v) else None
  }

  /** `v, _ := strconv.Atoi(s)`: a syntax error gives 0, a value beyond 64
    * bits gives the nearest 64-bit bound. */
  function AtoiIgnoringError(s: string): (n: int)
    ensures Atoi(s).Some? ==> n == Atoi(s).value
    ensures Atoi(s).None? ==> n == 0 || n == MinInt64 || n == MaxInt64
    ensures InInt64(n)
  {
    if |s| == 0 then 0
    else
      var digits := if s[0] == '+' || s[0] == '-' then s[1..] else s;
      if |digits| == 0 || !AllDigits(digits) then 0
      else
        var n: int := DigitsValue(digits);
        var v := if s[0] == '-' then -n else n;
        if v < MinInt64 then MinInt64 else if v > MaxInt64 then MaxInt64 else v
  }

  const Two64: int := 0x1_0000_0000_0000_0000

  /** Go's 64-bit `int` arithmetic: the mathematical result wrapped into
    * [MinInt64, MaxInt64] modulo 2^64. */
  function WrapInt64(x: int): (r: int)
    ensures InInt64(r)
    ensures InInt64(x) ==> r == x
    ensures (x - r) % Two64 == 0
  {
    var r := (x - MinInt64) % Two64 + MinInt64;
    assert x - r == ((x - MinInt64) / Two64) * Two64;
    r
  }

  /** A result up to 2^64 past MaxInt64 wraps once, to x − 2^64. */
  lemma WrapOnce(x: int)
    requires MaxInt64 < x < MaxInt64 + Two64
    ensures WrapInt64(x) == x - Two64
  {
    WrapCongruent(x, x - Two64);
  }

  /** The wrap depends only on the value modulo 2^64. */
  lemma WrapCongruent(x: int, y: int)
    requires (x - y) % Two64 == 0
    ensures WrapInt64(x) == WrapInt64(y)
  {
    var q := (x - y) / Two64;
    assert x - MinInt64 == (y - MinInt64) + q * Two64;
  }

  /** The decimal text of a natural number reads back under `strconv.Atoi`
    * when it fits in 64 bits and is a range error otherwise. */
  lemma AtoiDecimal(n: nat)
    ensures Atoi(NatToString(n)) == (if n <= MaxInt64 then Some(n) else None)
    ensures AtoiIgnoringError(NatToString(n)) == (if n <= MaxInt64 then n else MaxInt64)
  {
    var s := NatToString(n);
    assert IsDigit(s[0]);
  }

  /** A run of digits whose value fits reads back as that value. */
  lemma AtoiDigits(t: string)
    requires |t| > 0 && AllDigits(t) && DigitsValue(t) <= MaxInt64
    ensures Atoi(t) == Some(DigitsValue(t))
  {
    assert IsDigit(t[0]);
  }

  function DigitRune(d: nat): char
    requires d < 10
  {
    ('0' as int + d) as char
  }

  /** Decimal rendering of a natural number (`strconv.Itoa`, `%d`). */
  function NatToString(n: nat): (s: string)
    ensures |s| >= 1 && AllDigits(s)
    ensures DigitsValue(s) == n
    ensures n > 0 ==> s[0] != '0'
    decreases n
  {
    if n < 10 then [DigitRune(n)]
    else
      var p := NatToString(n / 10);
      var s := p + [DigitRune(n % 10)];
      assert s[..|s| - 1] == p;
      s
  }

  /** `strconv.Itoa` / `fmt.Sprintf("%d")`. */
  function IntToString(n: int): (s: string)
  {
    if n < 0 then "-" + NatToString(-n) else NatToString(n)
  }

  /** `Atoi` reads back every 64-bit integer that `Itoa` writes. */
  lemma AtoiIntToString(n: int)
    requires InInt64(n)
    ensures Atoi(IntToString(n)) == Some(n)
  {
    if n < 0 {
      var s := IntToString(n);
      assert s[1..] == NatToString(-n);
    }
  }

  /** Go's `<` on strings: byte-wise lexicographic order. UTF-8 byte order
    * agrees with code-point order, so comparing runes gives the same answer. */
  predicate Before(a: string, b: string)
    decreases |a|
  {
    if |b| == 0 then false
    else if |a| == 0 then true
    else if a[0] != b[0] then a[0] < b[0]
    else Before(a[1..], b[1..])
  }

  lemma {:induction false} BeforeIrreflexive(a: string)
    ensures !Before(a, a)
    decreases |a|
  {
    if |a| > 0 {
      BeforeIrreflexive(a[1..]);
    }
  }

  lemma {:induction false} BeforeTransitive(a: string, b: string, c: string)
    requires Before(a, b) && Before(b, c)
    ensures Before(a, c)
    decreases |a|
  {
    if |a| > 0 && a[0] == b[0] && b[0] == c[0] {
      BeforeTransitive(a[1..], b[1..], c[1..]);
    }
  }

  lemma {:induction false} BeforeTotal(a: string, b: string)
    ensures a == b || Before(a, b) || Before(b, a)
    decreases |a|
  {
    if |a| > 0 && |b| > 0 && a[0] == b[0] {
      BeforeTotal(a[1..], b[1..]);
      if a[1..] == b[1..] {
        assert a == [a[0]] + a[1..] && b == [b[0]] + b[1..];
      }
    }
  }
}
