/**
 * The handful of `str` operations the routing, locale and id code is built from,
 * each with the semantics of its Rust standard-library namesake:
 * `starts_with`, `contains`, `trim_start_matches(c)`, `trim_end_matches(c)`,
 * `split(c)`, `split_once(c)`, `splitn(2, c)`, integer `Display` and zero padding.
 */
module Strings {
  import opened Wrappers

  predicate StartsWith(s: string, prefix: string) {
    |prefix| <= |s| && s[..|prefix|] == prefix
  }

  lemma StartsWithHead(s: string, prefix: string)
    requires StartsWith(s, prefix) && prefix != []
    ensures s[0] == prefix[0]
  {
    assert s[..|prefix|][0] == s[0];
  }

  /** A concatenation starts with its first part and ends with its second. */
  lemma AppendParts(a: string, b: string)
    ensures StartsWith(a + b, a) && EndsWith(a + b, b)
    ensures b != [] ==> (a + b)[|a|] == b[0]
  {
    assert (a + b)[..|a|] == a;
    assert (a + b)[|a|..] == b;
  }

  /** A suffix of `s` is a suffix of anything ending in `s`. */
  lemma EndsWithExtend(prefix: string, s: string, suffix: string)
    requires EndsWith(s, suffix)
    ensures EndsWith(prefix + s, suffix)
  {
    assert (prefix + s)[|prefix + s| - |suffix|..] == s[|s| - |suffix|..];
  }

  /** `s.ends_with(suffix)`. */
  predicate EndsWith(s: string, suffix: string) {
    |suffix| <= |s| && s[|s| - |suffix|..] == suffix
  }

  /** `s.contains(sub)`: `sub` occurs at some position of `s` (the empty string occurs everywhere). */
  predicate Contains(s: string, sub: string)
    decreases |s|
  {
    StartsWith(s, sub) || (|s| > 0 && Contains(s[1..], sub))
  }

  /** `s.trim_start_matches(c)`: drop every leading `c`. */
  function TrimStart(s: string, c: char): (r: string)
    ensures |r| <= |s| && r == s[|s| - |r|..]
    ensures r == [] || r[0] != c
    ensures forall i :: 0 <= i < |s| - |r| ==> s[i] == c
    decreases |s|
  {
    if s != [] && s[0] == c then TrimStart(s[1..], c) else s
  }

  /** Removing the run of `c` from `c` followed by text that does not start with `c`. */
  lemma TrimOne(c: char, x: string)
    requires x == [] || x[0] != c
    ensures TrimStart([c] + x, c) == x
  {
    assert ([c] + x)[1..] == x;
  }

  /** `s.trim_end_matches(c)`: drop every trailing `c`. */
  function TrimEnd(s: string, c: char): (r: string)
    ensures |r| <= |s| && r == s[..|r|]
    ensures r == [] || r[|r| - 1] != c
    ensures forall i :: |r| <= i < |s| ==> s[i] == c
    decreases |s|
  {
    if s != [] && s[|s| - 1] == c then TrimEnd(s[..|s| - 1], c) else s
  }

  /**
   * `s.split(c)`: the pieces between separators, empty pieces included,
   * so "a//b/" gives ["a", "", "b", ""] and "" gives [""].
   */
  function Split(s: string, c: char): (parts: seq<string>)
    ensures |parts| >= 1
    ensures forall i :: 0 <= i < |parts| ==> c !in parts[i]
    decreases |s|
  {
    if s == [] then [[]]
    else
      var rest := Split(s[1..], c);
      if s[0] == c then [[]] + rest else [[s[0]] + rest[0]] + rest[1..]
  }

  lemma {:induction false} SplitNoSeparator(a: string, c: char)
    requires c !in a
    ensures Split(a, c) == [a]
    decreases |a|
  {
    if a != [] {
      SplitNoSeparator(a[1..], c);
      assert [a[0]] + a[1..] == a;
    }
  }

  lemma {:induction false} SplitAtSeparator(a: string, c: char, b: string)
    requires c !in a
    ensures Split(a + [c] + b, c) == [a] + Split(b, c)
    decreases |a|
  {
    var s := a + [c] + b;
    if a == [] {
      assert s[1..] == b;
    } else {
      assert s[1..] == a[1..] + [c] + b;
      SplitAtSeparator(a[1..], c, b);
      assert [a[0]] + a[1..] == a;
    }
  }

  /** Every piece of a split is made of characters of the split text. */
  lemma {:induction false} SplitPieceChars(s: string, c: char, i: nat, x: char)
    requires i < |Split(s, c)| && x in Split(s, c)[i]
    ensures x in s
    decreases |s|
  {
    if s != [] {
      if s[0] == c {
        if i > 0 {
          SplitPieceChars(s[1..], c, i - 1, x);
        }
      } else if i == 0 {
        if x != s[0] {
          SplitPieceChars(s[1..], c, 0, x);
        }
      } else {
        SplitPieceChars(s[1..], c, i, x);
      }
    }
  }

  /** `sub` does not occur where no position that leaves room for it holds its first character. */
  lemma {:induction false} NotContainsFirst(s: string, sub: string)
    requires sub != []
    requires forall i :: 0 <= i && i + |sub| <= |s| ==> s[i] != sub[0]
    ensures !Contains(s, sub)
    decreases |s|
  {
    if |s| > 0 {
      NotContainsFirst(s[1..], sub);
      if |sub| <= |s| {
        assert s[..|sub|][0] != sub[0];
      }
    }
  }

  lemma {:induction false} ContainsLength(s: string, sub: string)
    requires Contains(s, sub)
    ensures |sub| <= |s|
    decreases |s|
  {
    if !StartsWith(s, sub) {
      ContainsLength(s[1..], sub);
    }
  }

  /** `.filter(|p| !p.is_empty())` over split pieces. */
  function NonEmpty(parts: seq<string>): (r: seq<string>)
    ensures forall i :: 0 <= i < |r| ==> r[i] != []
    ensures |r| <= |parts|
  {
    if parts == [] then []
    else (if parts[0] == [] then [] else [parts[0]]) + NonEmpty(parts[1..])
  }

  /** `.find(|p| !p.is_empty())` over split pieces. */
  function FirstNonEmpty(parts: seq<string>): (r: Option<string>)
    ensures r.Some? ==> r.value in parts && r.value != []
  {
    if parts == [] then None
    else if parts[0] != [] then Some(parts[0])
    else FirstNonEmpty(parts[1..])
  }

  /** Finding the first non-empty piece is taking the head of the filtered pieces. */
  lemma {:induction false} FirstNonEmptyIsHead(parts: seq<string>)
    ensures FirstNonEmpty(parts) == if NonEmpty(parts) == [] then None else Some(NonEmpty(parts)[0])
  {
    if parts != [] {
      FirstNonEmptyIsHead(parts[1..]);
    }
  }

  /** The text before the first `c`, and the rest starting at that `c` ("" when there is none). */
  function Cut(s: string, c: char): (r: (string, string))
    ensures r.0 + r.1 == s
    ensures c !in r.0
    ensures r.1 == [] || r.1[0] == c
  {
    if s == [] then ([], [])
    else if s[0] == c then ([], s)
    else
      var t := Cut(s[1..], c);
      assert [s[0]] + (t.0 + t.1) == s;
      ([s[0]] + t.0, t.1)
  }

  /** `Cut` splits at the first `c`: a prefix free of `c` followed by text that is empty or starts with `c`. */
  lemma {:induction false} CutAtFirst(a: string, b: string, c: char)
    requires c !in a && (b == [] || b[0] == c)
    ensures Cut(a + b, c) == (a, b)
    decreases |a|
  {
    var s := a + b;
    if a == [] {
      assert s == b;
    } else {
      assert s[0] == a[0] && s[1..] == a[1..] + b;
      assert a[0] != c by { assert a[0] in a; }
      CutAtFirst(a[1..], b, c);
      assert [a[0]] + a[1..] == a;
    }
  }

  /** `s.split_once(c)`: the text before and after the first `c`, if there is one. */
  function SplitOnce(s: string, c: char): (r: Option<(string, string)>)
    ensures r.None? <==> c !in s
    ensures r.Some? ==> r.value.0 + [c] + r.value.1 == s && c !in r.value.0
  {
    var t := Cut(s, c);
    if t.1 == [] then None else Some((t.0, t.1[1..]))
  }

  /** The key half of `pair.splitn(2, '=')`. */
  function KeyOf(pair: string): string {
    Cut(pair, '=').0
  }

  /** The value half of `pair.splitn(2, '=')`, "" when there is no '='. */
  function ValueOf(pair: string): string {
    var t := Cut(pair, '=');
    if t.1 == [] then [] else t.1[1..]
  }

  function Digit(d: nat): char
    requires d < 10
  {
    (d + '0' as int) as char
  }

  function DigitValue(c: char): nat {
    if '0' <= c <= '9' then (c as int - '0' as int) as nat else 0
  }

  /** The `Display` form of a natural number: decimal digits, no sign, no leading zeros. */
  function Decimal(n: nat): (s: string)
    ensures |s| >= 1
    ensures forall i :: 0 <= i < |s| ==> '0' <= s[i] <= '9'
  {
    if n < 10 then [Digit(n)] else Decimal(n / 10) + [Digit(n % 10)]
  }

  /** Reads decimal digits back, most significant first. */
  function ParseDecimal(s: string): nat {
    if s == [] then 0 else ParseDecimal(s[..|s| - 1]) * 10 + DigitValue(s[|s| - 1])
  }

  lemma {:induction false} DecimalRoundTrip(n: nat)
    ensures ParseDecimal(Decimal(n)) == n
  {
    var s := Decimal(n);
    if n < 10 {
      assert s[..|s| - 1] == [];
    } else {
      DecimalRoundTrip(n / 10);
      assert s[..|s| - 1] == Decimal(n / 10);
    }
  }

  /** Different numbers print differently. */
  lemma DecimalInjective(m: nat, n: nat)
    requires Decimal(m) == Decimal(n)
    ensures m == n
  {
    DecimalRoundTrip(m);
    DecimalRoundTrip(n);
  }

  /** Zero padding on the left up to `width` characters (`{:0w}` for a non-negative number). */
  function PadZero(s: string, width: nat): (r: string)
    ensures |r| == if |s| < width then width else |s|
    ensures r[|r| - |s|..] == s
    ensures forall i :: 0 <= i < |r| - |s| ==> r[i] == '0'
  {
    if |s| < width then seq(width - |s|, i => '0') + s else s
  }

  function Pow10(n: nat): nat {
    if n == 0 then 1 else 10 * Pow10(n - 1)
  }

  /** The conditional form of `DecimalLength`, for use inside expressions. */
  lemma DecimalFits(n: nat, w: nat)
    requires 1 <= w
    ensures n < Pow10(w) ==> |Decimal(n)| <= w
  {
    if n < Pow10(w) {
      DecimalLength(n, w);
    }
  }

  /** `w` digits read as a number below 10^w. */
  lemma {:induction false} ParseDecimalBound(s: string)
    ensures ParseDecimal(s) < Pow10(|s|)
  {
    if s != [] {
      ParseDecimalBound(s[..|s| - 1]);
    }
  }

  /** A number below 10^w prints in at most `w` digits. */
  lemma {:induction false} DecimalLength(n: nat, w: nat)
    requires 1 <= w && n < Pow10(w)
    ensures |Decimal(n)| <= w
  {
    if n >= 10 {
      assert w >= 2;
      DecimalLength(n / 10, w - 1);
    }
  }

  /** Reading digits after digits: the first part is worth 10^|b| times as much. */
  lemma {:induction false} ParseAppend(a: string, b: string)
    ensures ParseDecimal(a + b) == ParseDecimal(a) * Pow10(|b|) + ParseDecimal(b)
    decreases |b|
  {
    if b == [] {
      assert a + b == a;
    } else {
      var b' := b[..|b| - 1];
      ParseAppend(a, b');
      assert (a + b)[..|a + b| - 1] == a + b';
      assert (a + b)[|a + b| - 1] == b[|b| - 1];
      Shift(ParseDecimal(a), Pow10(|b'|), ParseDecimal(b'), DigitValue(b[|b| - 1]));
    }
  }

  lemma Shift(p: int, q: int, x: int, d: int)
    ensures (p * q + x) * 10 + d == p * (10 * q) + (x * 10 + d)
  {
  }

  /** Leading zeros read as nothing. */
  lemma {:induction false} ParseZeros(z: string)
    requires forall i :: 0 <= i < |z| ==> z[i] == '0'
    ensures ParseDecimal(z) == 0
  {
    if z != [] {
      ParseZeros(z[..|z| - 1]);
    }
  }

  /** A zero-padded number reads back as the number. */
  lemma PadZeroRoundTrip(n: nat, width: nat)
    ensures ParseDecimal(PadZero(Decimal(n), width)) == n
  {
    var s := Decimal(n);
    var r := PadZero(s, width);
    var z := r[..|r| - |s|];
    assert r == z + s;
    ParseZeros(z);
    ParseAppend(z, s);
    DecimalRoundTrip(n);
  }

  /** ASCII lower-casing of one character. */
  function LowerChar(c: char): char {
    if 'A' <= c <= 'Z' then (c as int + 32) as char else c
  }

  function Lower(s: string): (r: string)
    ensures |r| == |s|
    ensures forall i :: 0 <= i < |r| ==> !('A' <= r[i] <= 'Z')
    ensures forall i :: 0 <= i < |r| && !('A' <= s[i] <= 'Z') ==> r[i] == s[i]
    ensures forall i :: 0 <= i < |r| && 'A' <= s[i] <= 'Z' ==> r[i] == (s[i] as int + 32) as char
  {
    seq(|s|, i requires 0 <= i < |s| => LowerChar(s[i]))
  }

  /** Lower-casing twice is lower-casing once. */
  lemma LowerIdempotent(s: string)
    ensures Lower(Lower(s)) == Lower(s)
  {
    var once := Lower(s);
    assert forall i :: 0 <= i < |once| ==> Lower(once)[i] == once[i];
  }

  /** Two strings that differ only in the case of ASCII letters lower-case alike. */
  lemma LowerIgnoresCase(s: string, t: string)
    requires |s| == |t|
    requires forall i :: 0 <= i < |s| ==> LowerChar(s[i]) == LowerChar(t[i])
    ensures Lower(s) == Lower(t)
  {
    assert forall i :: 0 <= i < |s| ==> Lower(s)[i] == LowerChar(s[i]);
  }
}
