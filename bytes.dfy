/** Octets, ASCII helpers, UTF-8 validity and decimal rendering shared by the engine. */
module Bytes {

  /** One octet on the wire. */
  type Byte = b: int | 0 <= b < 256

  /** Text as the engine holds it: the bytes of a Rust `&str` or `String`. */
  type Str = seq<Byte>

  const NUL: Byte := 0
  const TAB: Byte := 9
  const LF: Byte := 10
  const CR: Byte := 13
  const SP: Byte := 32
  const HYPHEN: Byte := 45
  const DOT: Byte := 46
  const CRLF: seq<Byte> := [CR, LF]

  /** The octets of a string literal (every literal used here is ASCII). */
  function B(s: string): (r: seq<Byte>)
    ensures |r| == |s|
    ensures forall i :: 0 <= i < |s| ==> r[i] == s[i] as int % 256
  {
    seq(|s|, i requires 0 <= i < |s| => s[i] as int % 256)
  }

  /** `n` copies of the space octet. */
  function Spaces(n: nat): (r: seq<Byte>)
    ensures |r| == n && forall i :: 0 <= i < n ==> r[i] == SP
  {
    seq(n, i => SP)
  }

  /** ASCII lower-casing, as `u8::to_ascii_lowercase`. */
  function ToLower(b: Byte): (r: Byte)
    ensures 65 <= b <= 90 ==> r == b + 32
    ensures !(65 <= b <= 90) ==> r == b
  {
    if 65 <= b <= 90 then b + 32 else b
  }

  /** Equality up to ASCII case, octet by octet. */
  predicate EqIgnoreCase(a: seq<Byte>, t: seq<Byte>)
  {
    |a| == |t| && forall i :: 0 <= i < |a| ==> ToLower(a[i]) == ToLower(t[i])
  }

  predicate IsAsciiAlpha(b: Byte) { 65 <= b <= 90 || 97 <= b <= 122 }

  predicate IsAsciiDigit(b: Byte) { 48 <= b <= 57 }

  /** `nom::character::is_alphanumeric` on a byte. */
  predicate IsAlphanumeric(b: Byte) { IsAsciiAlpha(b) || IsAsciiDigit(b) }

  //---- UTF-8 (what `str::from_utf8` accepts) --------------------------------

  predicate IsContinuation(b: Byte) { 0x80 <= b <= 0xBF }

  /**
   * The length of the well-formed UTF-8 encoding of one scalar value at the
   * start of `s`, or 0 when `s` does not start with one (RFC 3629, section 4).
   */
  function ScalarWidth(s: seq<Byte>): (n: nat)
    requires s != []
    ensures n <= 4 && n <= |s|
    ensures n == 1 <==> s[0] < 0x80
  {
    var b0 := s[0];
    if b0 < 0x80 then 1
    else if 0xC2 <= b0 <= 0xDF then
      (if |s| >= 2 && IsContinuation(s[1]) then 2 else 0)
    else if b0 == 0xE0 then
      (if |s| >= 3 && 0xA0 <= s[1] <= 0xBF && IsContinuation(s[2]) then 3 else 0)
    else if 0xE1 <= b0 <= 0xEC || 0xEE <= b0 <= 0xEF then
      (if |s| >= 3 && IsContinuation(s[1]) && IsContinuation(s[2]) then 3 else 0)
    else if b0 == 0xED then
      (if |s| >= 3 && 0x80 <= s[1] <= 0x9F && IsContinuation(s[2]) then 3 else 0)
    else if b0 == 0xF0 then
      (if |s| >= 4 && 0x90 <= s[1] <= 0xBF && IsContinuation(s[2]) && IsContinuation(s[3]) then 4 else 0)
    else if 0xF1 <= b0 <= 0xF3 then
      (if |s| >= 4 && IsContinuation(s[1]) && IsContinuation(s[2]) && IsContinuation(s[3]) then 4 else 0)
    else if b0 == 0xF4 then
      (if |s| >= 4 && 0x80 <= s[1] <= 0x8F && IsContinuation(s[2]) && IsContinuation(s[3]) then 4 else 0)
    else 0
  }

  /** `str::from_utf8(s).is_ok()`: `s` is a sequence of well-formed UTF-8 scalars. */
  predicate ValidUtf8(s: seq<Byte>)
    decreases |s|
  {
    s == [] || (ScalarWidth(s) > 0 && ValidUtf8(s[ScalarWidth(s)..]))
  }

  predicate IsAscii(s: seq<Byte>)
  {
    forall i :: 0 <= i < |s| ==> s[i] < 0x80
  }

  /** Every ASCII text is valid UTF-8. */
  lemma {:induction false} AsciiIsUtf8(s: seq<Byte>)
    requires IsAscii(s)
    ensures ValidUtf8(s)
    decreases |s|
  {
    if s != [] {
      assert ScalarWidth(s) == 1;
      AsciiIsUtf8(s[1..]);
    }
  }

  /** No octet of a valid UTF-8 text is 0xF5 or above (such octets occur in no encoding). */
  lemma {:induction false} Utf8HasNoHighOctet(s: seq<Byte>, i: int)
    requires ValidUtf8(s)
    requires 0 <= i < |s|
    ensures s[i] < 0xF5
    decreases |s|
  {
    var n := ScalarWidth(s);
    if i >= n {
      Utf8HasNoHighOctet(s[n..], i - n);
    }
  }

  /** Two valid UTF-8 texts joined (around an ASCII octet) stay valid. */
  lemma {:induction false} Utf8Concat(a: seq<Byte>, b: seq<Byte>)
    requires ValidUtf8(a) && ValidUtf8(b)
    ensures ValidUtf8(a + b)
    decreases |a|
  {
    if a != [] {
      var n := ScalarWidth(a);
      ScalarWidthExtends(a, b);
      assert (a + b)[n..] == a[n..] + b;
      Utf8Concat(a[n..], b);
    } else {
      assert a + b == b;
    }
  }

  /** Appending octets does not change a scalar that is already complete. */
  lemma ScalarWidthExtends(s: seq<Byte>, t: seq<Byte>)
    requires s != [] && ScalarWidth(s) > 0
    ensures ScalarWidth(s + t) == ScalarWidth(s)
  {
    assert forall k :: 0 <= k < |s| ==> (s + t)[k] == s[k];
  }

  //---- Decimal rendering (Rust `{}` on an unsigned integer) -------------------

  /** The decimal digits of `n`, most significant first, without leading zeros. */
  function Decimal(n: nat): (r: seq<Byte>)
    ensures 1 <= |r|
    ensures forall i :: 0 <= i < |r| ==> IsAsciiDigit(r[i])
    ensures n >= 10 ==> r[0] != 48
    ensures DigitsValue(r) == n
    decreases n
  {
    if n < 10 then [48 + n] else Decimal(n / 10) + [48 + n % 10]
  }

  /** The number a string of decimal digits denotes (the inverse of Decimal). */
  function DigitsValue(d: seq<Byte>): int
    decreases |d|
  {
    if d == [] then 0 else DigitsValue(d[..|d| - 1]) * 10 + (d[|d| - 1] as int - 48)
  }

  /** A three-digit reply code renders as exactly three digits. */
  lemma ThreeDigits(n: nat)
    requires 100 <= n <= 999
    ensures Decimal(n) == [48 + n / 100, 48 + n / 10 % 10, 48 + n % 10]
  {
    assert Decimal(n / 100) == [48 + n / 100];
    assert Decimal(n / 10) == [48 + n / 100, 48 + n / 10 % 10];
  }
}
