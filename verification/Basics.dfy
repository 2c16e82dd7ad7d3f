/** Bytes, hexadecimal digits and numbers in network order, for the codecs. */
module Basics {
  type byte = b: int | 0 <= b < 256

  predicate HexDigit(c: char) {
    '0' <= c <= '9' || 'a' <= c <= 'f' || 'A' <= c <= 'F'
  }

  function HexValue(c: char): (n: nat)
    requires HexDigit(c)
    ensures n < 16
  {
    if c >= 'a' then c as int - 'a' as int + 10 else if c >= 'A' then c as int - 'A' as int + 10 else c as int - '0' as int
  }

  /** The sixteen digits, in either letter case. */
  lemma HexDigits(i: nat)
    requires i < 16
    ensures HexDigit("0123456789abcdef"[i]) && HexValue("0123456789abcdef"[i]) == i
    ensures HexDigit("0123456789ABCDEF"[i]) && HexValue("0123456789ABCDEF"[i]) == i
  {
    assert i < 4 || i == 4 || i == 5 || i == 6 || i == 7 || i == 8 || i == 9 || i == 10 || i == 11 || i == 12 || i == 13 || i == 14 || i == 15;
  }

  /** There are no others. */
  lemma OnlyHexDigits(c: char)
    ensures HexDigit(c) <==> c in "0123456789abcdefABCDEF"
  {
  }

  /** A number in `k` bytes, the highest first. */
  function BigEndian(n: nat, k: nat): (s: seq<byte>)
    ensures |s| == k
  {
    if k == 0 then [] else BigEndian(n / 256, k - 1) + [n % 256]
  }

  function Zeros(n: nat): (s: seq<byte>)
    ensures |s| == n
  {
    seq(n, _ => 0)
  }

  lemma Grouped<T>(a: seq<T>, b: seq<T>, c: seq<T>)
    ensures a + (b + c) == a + b + c
  {
  }
}
