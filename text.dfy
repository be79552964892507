/**
 * The pieces of Rust's text formatting and parsing that the tools rely on:
 * `{}` of an unsigned integer, `{:04x}`, `{:02}`, `str::parse::<u32>`,
 * `join(" ")`, `starts_with`, `contains` and an ASCII `to_lowercase`.
 * A Rust `String` is a sequence of bytes; here every character stands for
 * one byte, so the model covers ASCII text.
 */
module Text {
  import opened Base

  const U32: nat := 0x1_0000_0000

  predicate IsDigit(c: char) {
    '0' <= c <= '9'
  }

  predicate AllDigits(s: string) {
    forall i :: 0 <= i < |s| ==> IsDigit(s[i])
  }

  function DigitChar(d: nat): (c: char)
    requires d < 10
    ensures IsDigit(c)
  {
    ('0' as int + d) as char
  }

  function DigitValue(c: char): (d: nat)
    requires IsDigit(c)
    ensures d < 10 && DigitChar(d) == c
  {
    c as int - '0' as int
  }

  /** The number a string of decimal digits denotes (most significant digit first). */
  function DecimalValue(s: string): nat
    requires AllDigits(s)
  {
    if |s| == 0 then 0 else DecimalValue(s[..|s| - 1]) * 10 + DigitValue(s[|s| - 1])
  }

  /** Rust's `{}` of an unsigned integer: decimal digits without leading zeros. */
  function NatToDecimal(n: nat): (r: string)
    ensures |r| >= 1 && AllDigits(r)
    ensures r[0] == '0' ==> n == 0
  {
    if n < 10 then [DigitChar(n)] else NatToDecimal(n / 10) + [DigitChar(n % 10)]
  }

  /** Reading back what `{}` wrote gives the number again. */
  lemma {:induction false} DecimalRoundTrip(n: nat)
    ensures DecimalValue(NatToDecimal(n)) == n
  {
    if n >= 10 {
      var r := NatToDecimal(n);
      assert r[..|r| - 1] == NatToDecimal(n / 10);
      DecimalRoundTrip(n / 10);
    }
  }

  /** Different numbers are written differently. */
  lemma NatToDecimalInjective(m: nat, n: nat)
    requires NatToDecimal(m) == NatToDecimal(n)
    ensures m == n
  {
    DecimalRoundTrip(m);
    DecimalRoundTrip(n);
  }

  /**
   * Rust's `str::parse::<u32>`: an optional leading `+` (only when digits
   * follow), then one or more ASCII digits whose value fits in 32 bits.
   * A `-` sign, an empty string or any other character is a parse error.
   */
  function ParseU32(s: string): (r: Option<nat>)
    ensures r.Some? ==> r.value < U32
  {
    var digits := if |s| > 1 && s[0] == '+' then s[1..] else s;
    if |digits| > 0 && AllDigits(digits) && DecimalValue(digits) < U32 then Some(DecimalValue(digits)) else None
  }

  /** Every 32-bit value written by `{}` parses back to itself. */
  lemma ParseU32RoundTrip(n: nat)
    requires n < U32
    ensures ParseU32(NatToDecimal(n)) == Some(n)
  {
    DecimalRoundTrip(n);
  }

  /** A string with any non-digit (other than one leading `+`) does not parse. */
  lemma ParseU32RejectsNonDigits(s: string, i: nat)
    requires 0 < i < |s| && !IsDigit(s[i])
    ensures ParseU32(s) == None
  {
  }

  // ---- hexadecimal, `{:0Nx}` ----

  function Pow16(width: nat): (p: nat)
    ensures p >= 1
  {
    if width == 0 then 1 else 16 * Pow16(width - 1)
  }

  predicate IsLowerHexDigit(c: char) {
    '0' <= c <= '9' || 'a' <= c <= 'f'
  }

  function HexChar(d: nat): (c: char)
    requires d < 16
    ensures IsLowerHexDigit(c)
  {
    if d < 10 then ('0' as int + d) as char else ('a' as int + (d - 10)) as char
  }

  function HexCharValue(c: char): (d: nat)
    requires IsLowerHexDigit(c)
    ensures d < 16 && HexChar(d) == c
  {
    if '0' <= c <= '9' then c as int - '0' as int else c as int - 'a' as int + 10
  }

  function HexValue(s: string): nat
    requires forall i :: 0 <= i < |s| ==> IsLowerHexDigit(s[i])
  {
    if |s| == 0 then 0 else HexValue(s[..|s| - 1]) * 16 + HexCharValue(s[|s| - 1])
  }

  /** Rust's `{:0<width>x}` for a value that fits in `width` hex digits. */
  function HexDigits(v: nat, width: nat): (r: string)
    requires v < Pow16(width)
    ensures |r| == width
    ensures forall i :: 0 <= i < |r| ==> IsLowerHexDigit(r[i])
  {
    if width == 0 then [] else HexDigits(v / 16, width - 1) + [HexChar(v % 16)]
  }

  /** `{:04x}` of a 16-bit value (a USB vendor or product id). */
  function Hex4(v: nat): (r: string)
    requires v < 0x10000
    ensures |r| == 4
    ensures forall i :: 0 <= i < 4 ==> IsLowerHexDigit(r[i])
  {
    assert Pow16(4) == 0x10000;
    HexDigits(v, 4)
  }

  /** The zero-padded hex text denotes the value it was made from. */
  lemma {:induction false} HexDigitsRoundTrip(v: nat, width: nat)
    requires v < Pow16(width)
    ensures HexValue(HexDigits(v, width)) == v
  {
    if width > 0 {
      var r := HexDigits(v, width);
      assert r[..|r| - 1] == HexDigits(v / 16, width - 1);
      HexDigitsRoundTrip(v / 16, width - 1);
    }
  }

  /**
   * `{:02}`: the decimal digits of `n`, padded with one leading zero when
   * there is only one, so exactly max(2, digits) characters.
   */
  function Pad2(n: nat): (r: string)
    ensures |r| >= 2 && AllDigits(r)
    ensures DecimalValue(r) == n
    ensures |r| == if n < 10 then 2 else |NatToDecimal(n)|
  {
    DecimalRoundTrip(n);
    if n < 10 then
      assert ['0'] + NatToDecimal(n) == ['0', DigitChar(n)];
      assert ['0', DigitChar(n)][..1] == ['0'];
      ['0'] + NatToDecimal(n)
    else
      NatToDecimal(n)
  }

  // ---- searching and joining ----

  /** Rust's `str::contains` on a pattern string: the pattern occurs at some offset. */
  predicate Contains(text: string, pattern: string) {
    exists i :: 0 <= i <= |text| && pattern <= text[i..]
  }

  /** Rust's `str::ends_with`. */
  predicate EndsWith(text: string, suffix: string) {
    |suffix| <= |text| && text[|text| - |suffix|..] == suffix
  }

  /** ASCII case folding of one character (Rust's `to_lowercase` on ASCII text). */
  function LowerChar(c: char): char {
    if 'A' <= c <= 'Z' then (c as int + 32) as char else c
  }

  function ToLower(s: string): (r: string)
    ensures |r| == |s|
    ensures forall i :: 0 <= i < |s| ==> r[i] == LowerChar(s[i])
  {
    seq(|s|, i requires 0 <= i < |s| => LowerChar(s[i]))
  }

  /** Rust's `join(sep)` on a vector of strings. */
  function Join(parts: seq<string>, sep: string): string {
    if |parts| == 0 then "" else if |parts| == 1 then parts[0] else parts[0] + sep + Join(parts[1..], sep)
  }

  /** Index of the first occurrence of `c`, if any. */
  function FirstIndex(s: string, c: char): (r: Option<nat>)
    ensures r.Some? ==> r.value < |s| && s[r.value] == c && c !in s[..r.value]
    ensures r.None? ==> c !in s
  {
    if |s| == 0 then None
    else if s[0] == c then Some(0)
    else
      var rest := FirstIndex(s[1..], c);
      match rest
      case None => None
      case Some(i) => assert s[..i + 1] == [s[0]] + s[1..][..i]; Some(i + 1)
  }

  /** Splits a string at every occurrence of `sep` (Rust's `split(sep)`). */
  function Split(s: string, sep: char): seq<string>
    decreases |s|
  {
    match FirstIndex(s, sep)
    case None => [s]
    case Some(i) => [s[..i]] + Split(s[i + 1..], sep)
  }

  lemma SplitOfField(a: string, sep: char)
    requires sep !in a
    ensures Split(a, sep) == [a]
  {
  }

  lemma {:induction false} FirstIndexAt(s: string, c: char, k: nat)
    requires k < |s| && s[k] == c && c !in s[..k]
    ensures FirstIndex(s, c) == Some(k)
  {
    if k > 0 {
      assert s[0] == s[..k][0];
      assert s[1..][..k - 1] == s[..k][1..];
      FirstIndexAt(s[1..], c, k - 1);
    }
  }

  lemma SplitOfPair(a: string, sep: char, b: string)
    requires sep !in a
    ensures Split(a + [sep] + b, sep) == [a] + Split(b, sep)
  {
    var s := a + [sep] + b;
    assert s[..|a|] == a;
    assert s[|a| + 1..] == b;
    FirstIndexAt(s, sep, |a|);
  }

  /**
   * Joining fields that do not hold the separator, then splitting at the
   * separator, gives back the fields: the joined text is not ambiguous.
   */
  lemma {:induction false} SplitJoin(parts: seq<string>, sep: char)
    requires |parts| > 0
    requires forall i :: 0 <= i < |parts| ==> sep !in parts[i]
    ensures Split(Join(parts, [sep]), sep) == parts
  {
    if |parts| == 1 {
      SplitOfField(parts[0], sep);
    } else {
      SplitJoin(parts[1..], sep);
      SplitOfPair(parts[0], sep, Join(parts[1..], [sep]));
    }
  }
}
