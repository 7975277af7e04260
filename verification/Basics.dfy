/** Shared vocabulary: results, byte strings and the few text facts the codecs rest on.
    A text is its UTF-8 bytes, one `char` a byte, so `|t|` is its length in bytes. */
module Basics {

  datatype Option<+T> = None | Some(value: T)

  datatype Result<+T, +E> = Ok(value: T) | Err(error: E)

  predicate Contains(t: string, c: char) {
    exists i :: 0 <= i < |t| && t[i] == c
  }

  /** The members of a set in some order, each once. */
  predicate Enumerates<T(==)>(order: seq<T>, s: set<T>) {
    && (forall x | x in order :: x in s)
    && (forall x | x in s :: x in order)
    && (forall i, j :: 0 <= i < j < |order| ==> order[i] != order[j])
  }

  /** Two texts split at their first separator agree on both halves. */
  lemma FirstSeparator(a: string, b: string, x: string, y: string, sep: char)
    requires !Contains(a, sep) && !Contains(b, sep)
    requires a + [sep] + x == b + [sep] + y
    ensures a == b && x == y
  {
    var whole := a + [sep] + x;
    assert whole[|a|] == sep && whole[|b|] == (b + [sep] + y)[|b|] == sep;
    assert forall i :: 0 <= i < |a| ==> whole[i] == a[i];
    assert forall i :: 0 <= i < |b| ==> whole[i] == (b + [sep] + y)[i] == b[i];
    SameCut(a, b, [sep] + x, [sep] + y) by {
      assert a + ([sep] + x) == whole == b + ([sep] + y);
    }
    SameCut([sep], [sep], x, y);
  }

  /** Two texts cut at one length agree on both parts. */
  lemma SameCut(a: string, b: string, x: string, y: string)
    requires |a| == |b| && a + x == b + y
    ensures a == b && x == y
  {
    assert a == (a + x)[..|a|] == (b + y)[..|b|] == b;
    assert x == (a + x)[|a|..] == (b + y)[|b|..] == y;
  }

  // ---- Decimal text, as Rust's `{}` writes a signed integer ----

  function Digit(d: nat): char
    requires d < 10
  {
    "0123456789"[d]
  }

  function Digits(n: nat): string {
    if n < 10 then [Digit(n)] else Digits(n / 10) + [Digit(n % 10)]
  }

  function Decimal(n: int): string {
    if n < 0 then "-" + Digits(-n) else Digits(n)
  }

  lemma {:induction false} DigitsPlain(n: nat)
    ensures |Digits(n)| > 0 && forall i :: 0 <= i < |Digits(n)| ==> '0' <= Digits(n)[i] <= '9'
  {
    if n >= 10 {
      DigitsPlain(n / 10);
    }
  }

  /** The integer a decimal text writes, most significant digit first. */
  function DecimalValue(t: string): int {
    if t == "" then 0 else 10 * DecimalValue(t[..|t| - 1]) + (t[|t| - 1] as int - '0' as int)
  }

  /** The digits write the number they are the digits of, with no zero in front. */
  lemma {:induction false} DigitsMean(n: nat)
    ensures DecimalValue(Digits(n)) == n && (forall i :: 0 <= i < |Digits(n)| ==> '0' <= Digits(n)[i] <= '9')
    ensures n > 0 ==> Digits(n)[0] != '0'
  {
    if n >= 10 {
      DigitsMean(n / 10);
      assert Digits(n)[..|Digits(n)| - 1] == Digits(n / 10);
    } else {
      assert Digits(n)[..0] == "";
    }
  }

  lemma {:induction false} DigitsInjective(m: nat, n: nat)
    requires Digits(m) == Digits(n)
    ensures m == n
  {
    if m < 10 && n < 10 {
    } else if m >= 10 && n >= 10 {
      DigitsPlain(m / 10);
      DigitsPlain(n / 10);
      var p, q := Digits(m / 10), Digits(n / 10);
      assert |p| == |q|;
      SameCut(p, q, [Digit(m % 10)], [Digit(n % 10)]);
      assert [Digit(m % 10)][0] == [Digit(n % 10)][0];
      DigitsInjective(m / 10, n / 10);
    } else {
      DigitsPlain(m / 10);
      DigitsPlain(n / 10);
    }
  }

  /** A decimal text is never empty, holds no NUL, and determines its integer. */
  lemma DecimalPlain(n: int)
    ensures !Contains(Decimal(n), '\0')
  {
    DigitsPlain(if n < 0 then -n else n);
  }

  lemma DecimalInjective(m: int, n: int)
    requires Decimal(m) == Decimal(n)
    ensures m == n
  {
    var a, b := if m < 0 then -m else m, if n < 0 then -n else n;
    DigitsPlain(a);
    DigitsPlain(b);
    assert Decimal(m)[0] == Decimal(n)[0];
    if m < 0 && n < 0 {
      SameCut("-", "-", Digits(a), Digits(b));
    }
    DigitsInjective(a, b);
  }

  // ---- Eight big-endian bytes, as `u64::to_be_bytes` writes a length ----

  const TWO_64: nat := 0x1_0000_0000_0000_0000
  const MAX_I64: int := 0x7FFF_FFFF_FFFF_FFFF

  function BigEndian(n: nat, width: nat): (b: string)
    ensures |b| == width
  {
    if width == 0 then "" else BigEndian(n / 256, width - 1) + [(n % 256) as char]
  }

  function Power256(width: nat): (p: nat)
    ensures p > 0
  {
    if width == 0 then 1 else 256 * Power256(width - 1)
  }

  lemma {:induction false} BigEndianInjective(m: nat, n: nat, width: nat)
    requires m < Power256(width) && n < Power256(width)
    requires BigEndian(m, width) == BigEndian(n, width)
    ensures m == n
  {
    if width > 0 {
      SameCut(BigEndian(m / 256, width - 1), BigEndian(n / 256, width - 1), [(m % 256) as char], [(n % 256) as char]);
      assert [(m % 256) as char][0] == [(n % 256) as char][0];
      BigEndianInjective(m / 256, n / 256, width - 1);
    }
  }

  /** The integer some bytes write, most significant first. */
  function BytesValue(b: string): int {
    if b == "" then 0 else 256 * BytesValue(b[..|b| - 1]) + b[|b| - 1] as int
  }

  /** The bytes write the number. */
  lemma {:induction false} BigEndianMeans(n: nat, width: nat)
    requires n < Power256(width)
    ensures BytesValue(BigEndian(n, width)) == n && forall i :: 0 <= i < width ==> BigEndian(n, width)[i] as int < 256
  {
    if width > 0 {
      BigEndianMeans(n / 256, width - 1);
      assert BigEndian(n, width)[..width - 1] == BigEndian(n / 256, width - 1);
    }
  }

  lemma EightBytesCoverU64()
    ensures Power256(8) == TWO_64
  {
    assert Power256(2) == 0x1_0000;
    assert Power256(4) == 0x1_0000_0000;
    assert Power256(6) == 0x1_0000_0000_0000;
  }

  // ---- Sixteen-byte identifiers and their hexadecimal text ----

  type Uuid = u: string | |u| == 16 witness "0123456789abcdef"

  const NIL_UUID: Uuid := "0123456789abcdef"

  /** Every character stands for one byte. */
  predicate Bytes(s: string) {
    forall i :: 0 <= i < |s| ==> s[i] as int < 256
  }

  function HexDigit(d: nat): char
    requires d < 16
  {
    "0123456789abcdef"[d]
  }

  function HexByte(c: char): (h: string)
    ensures |h| == 2
  {
    [HexDigit(c as int / 16 % 16), HexDigit(c as int % 16)]
  }

  function Hex(s: string): (h: string)
    ensures |h| == 2 * |s|
  {
    if s == "" then "" else HexByte(s[0]) + Hex(s[1..])
  }

  lemma {:induction false} HexAt(s: string, i: nat)
    requires i < |s|
    ensures Hex(s)[2 * i] == HexByte(s[i])[0] && Hex(s)[2 * i + 1] == HexByte(s[i])[1]
  {
    hide HexByte;
    if i > 0 {
      HexAt(s[1..], i - 1);
      assert Hex(s)[2..] == Hex(s[1..]);
      assert Hex(s)[2 * i] == Hex(s)[2..][2 * i - 2] && Hex(s)[2 * i + 1] == Hex(s)[2..][2 * i - 1];
    }
  }

  /** Each byte is written by its own two digits, lower case. */
  lemma HexMeans(s: string, i: nat)
    requires Bytes(s) && i < |s|
    ensures HexDigitValue(Hex(s)[2 * i]) * 16 + HexDigitValue(Hex(s)[2 * i + 1]) == s[i] as int
  {
    HexByteMeans(s[i]);
    HexAt(s, i);
    hide HexByte, HexDigitValue, Hex;
  }

  function HexDigitValue(c: char): int {
    if '0' <= c <= '9' then c as int - '0' as int
    else if 'a' <= c <= 'f' then 10 + (c as int - 'a' as int)
    else -1
  }

  lemma HexByteMeans(c: char)
    requires c as int < 256
    ensures HexDigitValue(HexByte(c)[0]) * 16 + HexDigitValue(HexByte(c)[1]) == c as int
  {
    HexDigitMeans(c as int / 16 % 16);
    HexDigitMeans(c as int % 16);
    hide HexDigit, HexDigitValue;
  }

  lemma HexDigitMeans(d: nat)
    requires d < 16
    ensures HexDigitValue(HexDigit(d)) == d
  {
  }

  lemma HexDigitInjective(c: nat, d: nat)
    requires c < 16 && d < 16 && HexDigit(c) == HexDigit(d)
    ensures c == d
  {
  }

  lemma HexByteInjective(c: char, d: char)
    requires c as int < 256 && d as int < 256 && HexByte(c) == HexByte(d)
    ensures c == d
  {
    assert HexByte(c)[0] == HexByte(d)[0] && HexByte(c)[1] == HexByte(d)[1];
    hide HexDigit;
    HexDigitInjective(c as int / 16 % 16, d as int / 16 % 16);
    HexDigitInjective(c as int % 16, d as int % 16);
  }

  lemma {:induction false} HexInjective(a: string, b: string)
    requires Bytes(a) && Bytes(b) && Hex(a) == Hex(b)
    ensures a == b
  {
    assert |a| == |b|;
    if a != "" {
      hide HexByte;
      SameCut(HexByte(a[0]), HexByte(b[0]), Hex(a[1..]), Hex(b[1..]));
      HexByteInjective(a[0], b[0]);
      assert Bytes(a[1..]) && Bytes(b[1..]);
      HexInjective(a[1..], b[1..]);
      assert a == [a[0]] + a[1..] && b == [b[0]] + b[1..];
    }
  }
}
