/** Character and string helpers with the semantics of the C library and
    Arduino String operations the controller relies on: `%d` / `%0Nd`
    formatting, `atoi`, `String::substring` and `String::operator<`
    (which is `strcmp`, a lexicographic order, not Dafny's prefix order). */
module Text {

  predicate IsDigit(c: char) {
    '0' <= c <= '9'
  }

  function DigitChar(d: nat): (c: char)
    requires d < 10
    ensures IsDigit(c) && c as int - '0' as int == d
  {
    ('0' as int + d) as char
  }

  function DigitValue(c: char): (d: nat)
    requires IsDigit(c)
    ensures d < 10 && DigitChar(d) == c
  {
    c as int - '0' as int
  }

  predicate AllDigits(s: string) {
    forall i :: 0 <= i < |s| ==> IsDigit(s[i])
  }

  function Pow10(k: nat): (p: nat)
    ensures p >= 1
  {
    if k == 0 then 1 else 10 * Pow10(k - 1)
  }

  /** Decimal digits of `n` without leading zeros, as `%d` and Arduino's
      `String(int)` print a non-negative value. */
  function Digits(n: nat): (s: string)
    ensures |s| >= 1 && AllDigits(s)
    ensures n > 0 ==> s[0] != '0'
    decreases n
  {
    if n < 10 then [DigitChar(n)] else Digits(n / 10) + [DigitChar(n % 10)]
  }

  /** The number a string of decimal digits denotes. */
  function DigitsValue(s: string): nat
    requires AllDigits(s)
  {
    if s == [] then 0 else DigitsValue(s[..|s| - 1]) * 10 + DigitValue(s[|s| - 1])
  }

  function Zeros(k: nat): (s: string)
    ensures |s| == k && AllDigits(s)
  {
    seq(k, _ => '0')
  }

  /** `%0<w>d` for a non-negative value: the digits, left-padded with '0'
      up to width `w` (never truncated). */
  function PadLeft(n: nat, w: nat): (s: string)
    ensures AllDigits(s)
    ensures |s| == if |Digits(n)| >= w then |Digits(n)| else w
  {
    var d := Digits(n);
    if |d| >= w then d else Zeros(w - |d|) + d
  }

  /** The first `n` characters, as `snprintf` into a buffer of `n + 1` bytes keeps. */
  function Prefix(s: string, n: nat): (r: string)
    ensures |r| <= n && r <= s
    ensures |s| <= n ==> r == s
    ensures |s| > n ==> r == s[..n]
  {
    if |s| <= n then s else s[..n]
  }

  lemma {:induction false} DigitsLength(n: nat, w: nat)
    requires 1 <= w && n < Pow10(w)
    ensures |Digits(n)| <= w
    decreases n
  {
    if n >= 10 {
      assert w >= 2;
      assert n / 10 < Pow10(w - 1);
      DigitsLength(n / 10, w - 1);
    }
  }

  lemma {:induction false} PadLeftLength(n: nat, w: nat)
    requires 1 <= w && n < Pow10(w)
    ensures |PadLeft(n, w)| == w
  {
    DigitsLength(n, w);
  }

  lemma {:induction false} DigitsRoundTrip(n: nat)
    ensures DigitsValue(Digits(n)) == n
    decreases n
  {
    if n >= 10 {
      var d := Digits(n);
      assert d[..|d| - 1] == Digits(n / 10);
      DigitsRoundTrip(n / 10);
    }
  }

  lemma {:induction false} LeadingZerosValue(k: nat, s: string)
    requires AllDigits(s)
    ensures DigitsValue(Zeros(k) + s) == DigitsValue(s)
    decreases |s|, k
  {
    if s == [] {
      assert Zeros(k) + s == Zeros(k);
      if k > 0 {
        assert Zeros(k)[..k - 1] == Zeros(k - 1);
        LeadingZerosValue(k - 1, []);
        assert Zeros(k - 1) + [] == Zeros(k - 1);
      }
    } else {
      var t := Zeros(k) + s;
      assert t[..|t| - 1] == Zeros(k) + s[..|s| - 1];
      LeadingZerosValue(k, s[..|s| - 1]);
    }
  }

  /** Reading back what `%0Nd` printed gives the number. */
  lemma PadLeftValue(n: nat, w: nat)
    ensures DigitsValue(PadLeft(n, w)) == n
  {
    DigitsRoundTrip(n);
    var d := Digits(n);
    if |d| < w {
      assert PadLeft(n, w) == Zeros(w - |d|) + d;
      LeadingZerosValue(w - |d|, d);
    } else {
      assert PadLeft(n, w) == d;
    }
  }

  /** Two-digit `%02d` spelled out, for values below 100. */
  lemma PadTwo(n: nat)
    requires n < 100
    ensures PadLeft(n, 2) == [DigitChar(n / 10), DigitChar(n % 10)]
  {
    if n >= 10 {
      assert Digits(n / 10) == [DigitChar(n / 10)];
    }
  }

  // atoi: leading white space, an optional sign, then the longest run of digits.

  predicate IsSpace(c: char) {
    c == ' ' || 9 <= c as int <= 13
  }

  function SkipSpaces(s: string): (t: string)
    ensures |t| <= |s| && t == s[|s| - |t|..]
    ensures t == [] || !IsSpace(t[0])
  {
    if |s| > 0 && IsSpace(s[0]) then SkipSpaces(s[1..]) else s
  }

  function LeadingDigits(s: string): (d: string)
    ensures d <= s && AllDigits(d)
    ensures |d| == |s| || !IsDigit(s[|d|])
  {
    if |s| > 0 && IsDigit(s[0]) then [s[0]] + LeadingDigits(s[1..]) else []
  }

  /** C `atoi` (the values involved here never overflow an int). */
  function Atoi(s: string): (r: int)
    ensures AllDigits(s) ==> r == DigitsValue(s)
    ensures SkipSpaces(s) == [] ==> r == 0
    ensures |s| > 0 && IsDigit(s[0]) ==> r == DigitsValue(LeadingDigits(s))
  {
    var t := SkipSpaces(s);
    if |t| > 0 && t[0] == '-' then -(DigitsValue(LeadingDigits(t[1..])) as int)
    else if |t| > 0 && t[0] == '+' then DigitsValue(LeadingDigits(t[1..]))
    else if AllDigits(s) then
      assert t == s;
      LeadingDigitsOfDigits(s);
      DigitsValue(LeadingDigits(t))
    else DigitsValue(LeadingDigits(t))
  }

  lemma {:induction false} LeadingDigitsOfDigits(s: string)
    requires AllDigits(s)
    ensures LeadingDigits(s) == s
  {
    if s != [] {
      LeadingDigitsOfDigits(s[1..]);
    }
  }

  /** `atoi` reads back a number printed with `%0Nd`. */
  lemma AtoiPadLeft(n: nat, w: nat)
    ensures Atoi(PadLeft(n, w)) == n
  {
    PadLeftValue(n, w);
  }

  /** Arduino `String::substring(left, right)`: the bounds are swapped when
      reversed, a start at or past the end gives "", and the end is clamped. */
  function Substring(s: string, left: nat, right: nat): (r: string)
    ensures |r| <= |s|
    ensures left <= right <= |s| ==> r == s[left..right]
    ensures left <= right && left <= |s| < right ==> r == s[left..]
  {
    var lo := if left <= right then left else right;
    var hi := if left <= right then right else left;
    if lo >= |s| then [] else s[lo..if hi <= |s| then hi else |s|]
  }

  /** `String::operator<`, i.e. `strcmp(a, b) < 0`: the first differing
      character decides, and a proper prefix is smaller. */
  predicate LexLess(a: string, b: string)
    ensures LexLess(a, b) ==> a != b   // irreflexive
  {
    if |a| == 0 then |b| > 0
    else if |b| == 0 then false
    else if a[0] != b[0] then a[0] < b[0]
    else LexLess(a[1..], b[1..])
  }

  lemma {:induction false} LexLessTransitive(a: string, b: string, c: string)
    requires LexLess(a, b) && LexLess(b, c)
    ensures LexLess(a, c)
  {
    if |a| > 0 && a[0] == b[0] && b[0] == c[0] {
      LexLessTransitive(a[1..], b[1..], c[1..]);
    }
  }

  /** Any two different strings are ordered one way or the other. */
  lemma {:induction false} LexLessTotal(a: string, b: string)
    requires a != b
    ensures LexLess(a, b) || LexLess(b, a)
  {
    if |a| > 0 && |b| > 0 && a[0] == b[0] {
      assert a == [a[0]] + a[1..] && b == [b[0]] + b[1..];
      LexLessTotal(a[1..], b[1..]);
    }
  }

  lemma {:induction false} LexLessAsymmetric(a: string, b: string)
    requires LexLess(a, b)
    ensures !LexLess(b, a)
  {
    if |a| > 0 && a[0] == b[0] {
      LexLessAsymmetric(a[1..], b[1..]);
    }
  }

  /** Dafny's own `<` on strings is the proper-prefix order, which does
      not relate these two times. */
  lemma LexLessIsNotPrefixOrder()
    ensures LexLess("06:59", "07:00") && !("06:59" < "07:00")
  {
  }
}
