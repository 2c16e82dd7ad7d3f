/** Base64 (utility.h): each three bytes are a number below 2^24, written with four digits in base 64. */
module Base64 {
  import opened Basics

  /** A digit in one of the two alphabets, which differ in the last two. */
  function Sign(url: bool, n: int): char
    requires 0 <= n < 64
  {
    if n < 26 then ('A' as int + n) as char
    else if n < 52 then ('a' as int + n - 26) as char
    else if n < 62 then ('0' as int + n - 52) as char
    else if n == 62 then (if url then '-' else '+')
    else if url then '_' else '/'
  }

  const LETTERS := "ABCDEFGHIJKLMNOPQRSTUVWXYZ" + "abcdefghijklmnopqrstuvwxyz"
  const ALPHABET := LETTERS + "0123456789+/"
  const URL_ALPHABET := LETTERS + "0123456789-_"

  /** The alphabets of sections 4 and 5 of RFC 4648. */
  lemma Alphabets(n: nat)
    requires n < 64
    ensures |ALPHABET| == 64 && |URL_ALPHABET| == 64
    ensures Sign(false, n) == ALPHABET[n] && Sign(true, n) == URL_ALPHABET[n]
  {
    if n < 26 {
      assert LETTERS[n] == "ABCDEFGHIJKLMNOPQRSTUVWXYZ"[n];
    } else if n < 52 {
      assert LETTERS[n] == "abcdefghijklmnopqrstuvwxyz"[n - 26];
    }
  }

  /** `key` of `base64decode`: both alphabets are read at once, and anything else is a 0. */
  function Key(c: char): (n: int)
    ensures 0 <= n < 64
  {
    if 'A' <= c <= 'Z' then c as int - 'A' as int
    else if 'a' <= c <= 'z' then c as int - 'a' as int + 26
    else if '0' <= c <= '9' then c as int - '0' as int + 52
    else if c == '+' || c == '-' then 62
    else if c == '/' || c == '_' then 63
    else 0
  }

  lemma KeyOfSign(url: bool, n: int)
    requires 0 <= n < 64
    ensures Key(Sign(url, n)) == n && Sign(url, n) != '='
  {
  }

  // ---------------------------------------------------------------- sections 4 and 5 of RFC 4648

  /** The first `k` of the four digits of a number below 2^24. */
  function Digits(url: bool, v: int, k: nat): string
    requires 0 <= v < 0x100_0000 && k <= 4
  {
    [Sign(url, v / 0x4_0000), Sign(url, v / 0x1000 % 64), Sign(url, v / 64 % 64), Sign(url, v % 64)][..k]
  }

  /** Up to three bytes, as the number whose bytes begin with them. */
  function Group(s: seq<byte>): (v: int)
    requires 1 <= |s| <= 3
    ensures 0 <= v < 0x100_0000
  {
    s[0] as int * 0x1_0000 + (if |s| > 1 then s[1] as int * 256 else 0) + if |s| > 2 then s[2] as int else 0
  }

  function Encoded(url: bool, s: seq<byte>): string {
    if |s| >= 3 then Digits(url, Group(s[..3]), 4) + Encoded(url, s[3..])
    else if |s| == 2 then Digits(url, Group(s), 3) + "="
    else if |s| == 1 then Digits(url, Group(s), 2) + "=="
    else ""
  }

  /** The encoding without the padding at its end. */
  function Unpadded(url: bool, s: seq<byte>): string {
    if |s| >= 3 then Digits(url, Group(s[..3]), 4) + Unpadded(url, s[3..])
    else if s == [] then ""
    else Digits(url, Group(s), |s| + 1)
  }

  // ---------------------------------------------------------------- encoding

  lemma {:induction false} EncodedLength(url: bool, s: seq<byte>)
    ensures |Encoded(url, s)| == (|s| + 2) / 3 * 4
    decreases |s|
  {
    if |s| >= 3 {
      EncodedLength(url, s[3..]);
    }
  }

  /** The digits of the bytes `a`, `b` and `c`, cut out of them one by one. */
  lemma Cut(a: int, b: int, c: int)
    requires 0 <= a < 256 && 0 <= b < 256 && 0 <= c < 256
    ensures var v := a * 0x1_0000 + b * 256 + c;
            && v / 0x4_0000 == a / 4 && v / 0x1000 % 64 == a % 4 * 16 + b / 16
            && v / 64 % 64 == b % 16 * 4 + c / 64 && v % 64 == c % 64
  {
    var v := a * 0x1_0000 + b * 256 + c;
    Quotient(v, 0x4_0000, a / 4, a % 4 * 0x1_0000 + b * 256 + c);
    Quotient(v, 0x1000, a * 16 + b / 16, b % 16 * 256 + c);
    Quotient(a * 16 + b / 16, 64, a / 4, a % 4 * 16 + b / 16);
    Quotient(v, 64, a * 1024 + b * 4 + c / 64, c % 64);
    Quotient(a * 1024 + b * 4 + c / 64, 64, a * 16 + b / 16, b % 16 * 4 + c / 64);
  }

  lemma ThreeEncoded(url: bool, s: seq<byte>, ret: string)
    requires |s| >= 3
    ensures ret + Encoded(url, s) ==
            ret + [Sign(url, s[0] / 4), Sign(url, s[0] % 4 * 16 + s[1] / 16), Sign(url, s[1] % 16 * 4 + s[2] / 64), Sign(url, s[2] % 64)]
            + Encoded(url, s[3..])
  {
    FourDigits(url, s[0], s[1], s[2]);
    assert s[..3] == [s[0], s[1], s[2]];
    Grouped(ret, Digits(url, Group(s[..3]), 4), Encoded(url, s[3..]));
  }

  lemma FourDigits(url: bool, a: byte, b: byte, c: byte)
    ensures Digits(url, Group([a, b, c]), 4) ==
            [Sign(url, a / 4), Sign(url, a % 4 * 16 + b / 16), Sign(url, b % 16 * 4 + c / 64), Sign(url, c % 64)]
  {
    Cut(a, b, c);
  }

  lemma TwoEncoded(url: bool, s: seq<byte>)
    requires |s| == 2
    ensures Encoded(url, s) == [Sign(url, s[0] / 4), Sign(url, s[0] % 4 * 16 + s[1] / 16), Sign(url, s[1] % 16 * 4), '=']
  {
    Cut(s[0], s[1], 0);
  }

  lemma OneEncoded(url: bool, s: seq<byte>)
    requires |s| == 1
    ensures Encoded(url, s) == [Sign(url, s[0] / 4), Sign(url, s[0] % 4 * 16), '=', '=']
  {
    Cut(s[0], 0, 0);
  }

  /** `base64encode`. Shifts and masks of a byte are quotients and remainders here. */
  method Encode(url: bool, bytes: seq<byte>) returns (ret: string)
    ensures ret == Encoded(url, bytes)
    ensures |ret| == (|bytes| + 2) / 3 * 4
  {
    ret := "";
    var data, size := 0, |bytes|;
    while size >= 3
      invariant 0 <= size && data <= |bytes| && data + size == |bytes|
      invariant ret + Encoded(url, bytes[data..]) == Encoded(url, bytes)
    {
      var a, b, c := bytes[data], bytes[data + 1], bytes[data + 2];
      ThreeEncoded(url, bytes[data..], ret);
      assert bytes[data..][3..] == bytes[data + 3..];
      ret := ret + [Sign(url, a / 4), Sign(url, a % 4 * 16 + b / 16), Sign(url, b % 16 * 4 + c / 64), Sign(url, c % 64)];
      data, size := data + 3, size - 3;
    }
    var last := EncodeLast(url, bytes, data);
    ret := ret + last;
    EncodedLength(url, bytes);
  }

  /** What is left at the end, with its padding. */
  method EncodeLast(url: bool, bytes: seq<byte>, data: nat) returns (last: string)
    requires data <= |bytes| < data + 3
    ensures last == Encoded(url, bytes[data..])
  {
    last := "";
    if |bytes| - data == 1 {
      OneEncoded(url, bytes[data..]);
      var a := bytes[data];
      last := [Sign(url, a / 4), Sign(url, a % 4 * 16), '=', '='];
    } else if |bytes| - data == 2 {
      TwoEncoded(url, bytes[data..]);
      var a, b := bytes[data], bytes[data + 1];
      last := [Sign(url, a / 4), Sign(url, a % 4 * 16 + b / 16), Sign(url, b % 16 * 4), '='];
    }
  }

  // ---------------------------------------------------------------- decoding

  /** How many digits are needed for so many bytes. */
  function DigitCount(n: nat): nat {
    if n >= 3 then 4 + DigitCount(n - 3) else if n == 0 then 0 else n + 1
  }

  lemma {:induction false} DigitCountIs(q: nat, r: nat)
    requires r < 3
    ensures DigitCount(3 * q + r) == 4 * q + if r == 0 then 0 else r + 1
    decreases q
  {
    if q > 0 {
      DigitCountIs(q - 1, r);
    }
  }

  lemma SizeFits(q: nat)
    ensures DigitCount(q * 3) == 4 * q
    ensures DigitCount(q * 3 + 1) == 4 * q + 2 && DigitCount(q * 3 + 2) == 4 * q + 3
    ensures q > 0 ==> DigitCount(q * 3 - 2) <= 4 * q && DigitCount(q * 3 - 1) <= 4 * q
  {
    DigitCountIs(q, 0);
    DigitCountIs(q, 1);
    DigitCountIs(q, 2);
    if q > 0 {
      DigitCountIs(q - 1, 1);
      DigitCountIs(q - 1, 2);
    }
  }

  /** How many bytes a text stands for. It is found from the end, so the text has two characters at least. */
  function Size(data: string): (n: nat)
    requires |data| >= 2
    ensures DigitCount(n) <= |data|
  {
    var n := |data|;
    SizeFits(n / 4);
    if n % 4 == 2 then n / 4 * 3 + 1
    else if n % 4 == 3 then n / 4 * 3 + 2
    else if data[n - 2] == '=' then n / 4 * 3 - 2
    else if data[n - 1] == '=' then n / 4 * 3 - 1
    else n / 4 * 3
  }

  /** The `n` bytes that the text stands for from `p` on: each four digits are a number, and its bytes are taken. */
  function Decoded(t: string, p: nat, n: nat): (s: seq<byte>)
    requires p + DigitCount(n) <= |t|
    ensures |s| == n
    decreases n
  {
    if n == 0 then []
    else ThreeBytes(ValueAt(t, p, n))[..if n > 3 then 3 else n] + if n > 3 then Decoded(t, p + 4, n - 3) else []
  }

  /** The number that the digits at `p` write, with zeros for those that are not needed for `n` bytes. */
  function ValueAt(t: string, p: nat, n: nat): (v: int)
    requires n > 0 && p + DigitCount(n) <= |t|
    ensures 0 <= v < 0x100_0000
  {
    Key(t[p]) * 0x4_0000 + Key(t[p + 1]) * 0x1000 + (if n > 1 then Key(t[p + 2]) * 64 else 0) + if n > 2 then Key(t[p + 3]) else 0
  }

  function ThreeBytes(v: int): (s: seq<byte>)
    requires 0 <= v < 0x100_0000
    ensures |s| == 3
  {
    [v / 0x1_0000, v / 256 % 256, v % 256]
  }

  lemma Glue(a: int, b: int, c: int, d: int)
    requires 0 <= a < 64 && 0 <= b < 64 && 0 <= c < 64 && 0 <= d < 64
    ensures var v := a * 0x4_0000 + b * 0x1000 + c * 64 + d;
            && v / 0x1_0000 == a * 4 + b / 16 && v / 256 % 256 == b % 16 * 16 + c / 4 && v % 256 == c % 4 * 64 + d
  {
    var v := a * 0x4_0000 + b * 0x1000 + c * 64 + d;
    Quotient(v, 0x1_0000, a * 4 + b / 16, b % 16 * 0x1000 + c * 64 + d);
    Quotient(v, 256, a * 1024 + b * 16 + c / 4, c % 4 * 64 + d);
    Quotient(a * 1024 + b * 16 + c / 4, 256, a * 4 + b / 16, b % 16 * 16 + c / 4);
  }

  lemma Quotient(v: int, m: int, q: int, r: int)
    requires m > 0 && 0 <= r < m && v == q * m + r
    ensures v / m == q && v % m == r
  {
    var d := v / m - q;
    assert v == v / m * m + v % m;
    assert d * m == r - v % m;
    if d > 0 {
      AtLeast(d, m);
    }
  }

  lemma {:induction false} AtLeast(d: nat, m: nat)
    requires d > 0
    ensures d * m >= m
  {
    if d > 1 {
      AtLeast(d - 1, m);
      assert d * m == (d - 1) * m + m;
    }
  }

  /** The bytes of four digits, put together one by one. */
  function Joined(a: int, b: int, c: int, d: int): seq<byte>
    requires 0 <= a < 64 && 0 <= b < 64 && 0 <= c < 64 && 0 <= d < 64
  {
    [a * 4 + b / 16, b % 16 * 16 + c / 4, c % 4 * 64 + d]
  }

  lemma JoinedIs(a: int, b: int, c: int, d: int)
    requires 0 <= a < 64 && 0 <= b < 64 && 0 <= c < 64 && 0 <= d < 64
    ensures var v := a * 0x4_0000 + b * 0x1000 + c * 64 + d;
            ThreeBytes(v) == Joined(a, b, c, d)
  {
    Glue(a, b, c, d);
  }

  lemma FourDecoded(t: string, p: nat, n: nat, ret: seq<byte>)
    requires n >= 3 && p + DigitCount(n) <= |t|
    ensures p + 4 + DigitCount(n - 3) <= |t|
    ensures ret + Decoded(t, p, n) == ret + Joined(Key(t[p]), Key(t[p + 1]), Key(t[p + 2]), Key(t[p + 3])) + Decoded(t, p + 4, n - 3)
  {
    DecodedStep(t, p, n);
    Grouped(ret, Joined(Key(t[p]), Key(t[p + 1]), Key(t[p + 2]), Key(t[p + 3])), Decoded(t, p + 4, n - 3));
  }

  lemma DecodedStep(t: string, p: nat, n: nat)
    requires n >= 3 && p + DigitCount(n) <= |t|
    ensures p + 4 + DigitCount(n - 3) <= |t|
    ensures Decoded(t, p, n) == Joined(Key(t[p]), Key(t[p + 1]), Key(t[p + 2]), Key(t[p + 3])) + Decoded(t, p + 4, n - 3)
  {
    var g := ThreeBytes(ValueAt(t, p, n));
    JoinedIs(Key(t[p]), Key(t[p + 1]), Key(t[p + 2]), Key(t[p + 3]));
    assert g[..3] == g;
    assert Decoded(t, p, n) == g + Decoded(t, p + 4, n - 3);
  }

  lemma FewDecoded(t: string, p: nat, n: nat)
    requires 1 <= n <= 2 && p + n + 1 <= |t|
    ensures Decoded(t, p, n) == Joined(Key(t[p]), Key(t[p + 1]), if n > 1 then Key(t[p + 2]) else 0, 0)[..n]
  {
    JoinedIs(Key(t[p]), Key(t[p + 1]), if n > 1 then Key(t[p + 2]) else 0, 0);
  }

  /** Four characters become three bytes. */
  method DecodeFour(data: string, p: nat) returns (bytes: seq<byte>)
    requires p + 4 <= |data|
    ensures bytes == Joined(Key(data[p]), Key(data[p + 1]), Key(data[p + 2]), Key(data[p + 3]))
  {
    var odd, even := Key(data[p]), Key(data[p + 1]);
    var first := odd * 4 + even / 16;
    odd := Key(data[p + 2]);
    var second := even % 16 * 16 + odd / 4;
    even := Key(data[p + 3]);
    bytes := [first, second, odd % 4 * 64 + even];
  }

  /** What is left at the end becomes one byte or two. */
  method DecodeLast(data: string, p: nat, size: nat) returns (bytes: seq<byte>)
    requires 1 <= size <= 2 && p + size + 1 <= |data|
    ensures bytes == Joined(Key(data[p]), Key(data[p + 1]), if size > 1 then Key(data[p + 2]) else 0, 0)[..size]
  {
    var odd, even := Key(data[p]), Key(data[p + 1]);
    bytes := [odd * 4 + even / 16];
    if size == 2 {
      odd := Key(data[p + 2]);
      bytes := bytes + [even % 16 * 16 + odd / 4];
    }
  }

  /** `base64decode` */
  method Decode(data: string) returns (ret: seq<byte>)
    requires |data| >= 2
    ensures ret == Decoded(data, 0, Size(data))
  {
    var size, p := Size(data), 0;
    ret := [];
    while size >= 3
      invariant 0 <= size && p + DigitCount(size) <= |data|
      invariant ret + Decoded(data, p, size) == Decoded(data, 0, Size(data))
    {
      FourDecoded(data, p, size, ret);
      var bytes := DecodeFour(data, p);
      ret := ret + bytes;
      p, size := p + 4, size - 3;
    }
    if size > 0 {
      FewDecoded(data, p, size);
      var bytes := DecodeLast(data, p, size);
      ret := ret + bytes;
    }
  }

  // ---------------------------------------------------------------- round trip

  function Padding(n: nat): string {
    if n % 3 == 1 then "==" else if n % 3 == 2 then "=" else ""
  }

  lemma {:induction false} EncodedIsPadded(url: bool, s: seq<byte>)
    ensures Encoded(url, s) == Unpadded(url, s) + Padding(|s|)
    decreases |s|
  {
    if |s| >= 3 {
      EncodedIsPadded(url, s[3..]);
      assert Padding(|s|) == Padding(|s| - 3);
      Grouped(Digits(url, Group(s[..3]), 4), Unpadded(url, s[3..]), Padding(|s| - 3));
    } else if s == [] {
      assert Encoded(url, s) == "" && Unpadded(url, s) == "" && Padding(0) == "";
    }
  }

  /** The length of the digits, and that none of them looks like padding. */
  lemma {:induction false} UnpaddedDigits(url: bool, s: seq<byte>)
    ensures |Unpadded(url, s)| == DigitCount(|s|)
    ensures '=' !in Unpadded(url, s)
    decreases |s|
  {
    if |s| >= 3 {
      UnpaddedDigits(url, s[3..]);
      DigitsPlain(url, Group(s[..3]), 4);
    } else if s != [] {
      DigitsPlain(url, Group(s), |s| + 1);
    }
  }

  lemma DigitsPlain(url: bool, v: int, k: nat)
    requires 0 <= v < 0x100_0000 && k <= 4
    ensures |Digits(url, v, k)| == k && '=' !in Digits(url, v, k)
  {
  }

  lemma SizeFound(url: bool, s: seq<byte>)
    requires s != []
    ensures |Unpadded(url, s)| >= 2
    ensures Size(Unpadded(url, s)) == |s| && Size(Encoded(url, s)) == |s|
  {
    EncodedIsPadded(url, s);
    UnpaddedDigits(url, s);
    SizeOfPadded(Unpadded(url, s), |s|);
  }

  lemma SizeOfPadded(t: string, n: nat)
    requires n > 0 && '=' !in t && |t| == DigitCount(n)
    ensures |t| >= 2 && Size(t) == n && Size(t + Padding(n)) == n
  {
    var q := n / 3;
    assert n == 3 * q + n % 3;
    DigitCountIs(q, n % 3);
    assert |t| / 4 == q;
    assert t[|t| - 1] in t && t[|t| - 2] in t;
    assert |t + Padding(n)| == if n % 3 == 0 then 4 * q else 4 * (q + 1);
  }

  lemma {:induction false} DecodedBack(url: bool, s: seq<byte>, t: string, p: nat)
    requires p + |Unpadded(url, s)| <= |t| && t[p..p + |Unpadded(url, s)|] == Unpadded(url, s)
    ensures p + DigitCount(|s|) <= |t| && Decoded(t, p, |s|) == s
    decreases |s|
  {
    UnpaddedDigits(url, s);
    if |s| > 3 {
      FirstFour(url, s, t, p);
      GroupDecoded(url, s[..3], t, p, |s|);
      DecodedBack(url, s[3..], t, p + 4);
      assert s == s[..3] + s[3..];
    } else if s != [] {
      UnpaddedFirst(url, s);
      GroupDecoded(url, s, t, p, |s|);
    }
  }

  lemma FirstFour(url: bool, s: seq<byte>, t: string, p: nat)
    requires |s| > 3 && p + |Unpadded(url, s)| <= |t| && t[p..p + |Unpadded(url, s)|] == Unpadded(url, s)
    ensures |Unpadded(url, s)| == 4 + |Unpadded(url, s[3..])| && t[p..p + 4] == Digits(url, Group(s[..3]), 4)
    ensures t[p + 4..p + 4 + |Unpadded(url, s[3..])|] == Unpadded(url, s[3..])
  {
    UnpaddedFirst(url, s);
    Sliced(t, p, |Unpadded(url, s)|, 4);
  }

  lemma UnpaddedFirst(url: bool, s: seq<byte>)
    requires s != []
    ensures |s| > 3 ==> Unpadded(url, s)[..4] == Digits(url, Group(s[..3]), 4) && Unpadded(url, s)[4..] == Unpadded(url, s[3..])
    ensures |s| <= 3 ==> Unpadded(url, s) == Digits(url, Group(s), |s| + 1)
  {
    if |s| == 3 {
      assert s[..3] == s && s[3..] == [];
    }
  }

  lemma Sliced(t: string, p: nat, n: nat, k: nat)
    requires k <= n && p + n <= |t|
    ensures t[p..p + n][..k] == t[p..p + k] && t[p..p + n][k..] == t[p + k..p + k + (n - k)]
  {
  }

  lemma GroupDecoded(url: bool, g: seq<byte>, t: string, p: nat, n: nat)
    requires p + DigitCount(n) <= |t| && n > 0 && |g| == if n > 3 then 3 else n
    requires t[p..p + |g| + 1] == Digits(url, Group(g), |g| + 1)
    ensures Decoded(t, p, n) == g + if n > 3 then Decoded(t, p + 4, n - 3) else []
  {
    Put(url, Group(g), |g| + 1, t, p);
    GroupBack(g);
  }

  lemma Put(url: bool, v: int, k: nat, t: string, p: nat)
    requires 0 <= v < 0x100_0000 && 2 <= k <= 4 && p + k <= |t| && t[p..p + k] == Digits(url, v, k)
    ensures Key(t[p]) == v / 0x4_0000 && Key(t[p + 1]) == v / 0x1000 % 64
    ensures k > 2 ==> Key(t[p + 2]) == v / 64 % 64
    ensures k > 3 ==> Key(t[p + 3]) == v % 64
  {
    var d := t[p..p + k];
    assert t[p] == d[0] && t[p + 1] == d[1] && (k > 2 ==> t[p + 2] == d[2]) && (k > 3 ==> t[p + 3] == d[3]);
  }

  /** The digits that are written for a group hold all of its bytes. */
  lemma GroupBack(s: seq<byte>)
    requires 1 <= |s| <= 3
    ensures var v := Group(s);
            var w := v / 0x4_0000 * 0x4_0000 + v / 0x1000 % 64 * 0x1000
                     + (if |s| > 1 then v / 64 % 64 * 64 else 0) + if |s| > 2 then v % 64 else 0;
            [w / 0x1_0000, w / 256 % 256, w % 256][..|s|] == s
  {
    if |s| == 3 {
      DigitsHold(s[0], s[1], s[2]);
    } else if |s| == 2 {
      DigitsHold(s[0], s[1], 0);
    } else {
      DigitsHold(s[0], 0, 0);
    }
  }

  lemma DigitsHold(a: int, b: int, c: int)
    requires 0 <= a < 256 && 0 <= b < 256 && 0 <= c < 256
    ensures var v := a * 0x1_0000 + b * 256 + c;
            && v / 0x4_0000 * 0x4_0000 + v / 0x1000 % 64 * 0x1000 + v / 64 % 64 * 64 + v % 64 == v
            && v / 0x1_0000 == a && v / 256 % 256 == b && v % 256 == c
            && (b == c == 0 ==> v / 64 % 64 == 0) && (c == 0 ==> v % 64 == 0)
  {
    Cut(a, b, c);
    BytesOf(a, b, c);
    var a1, a2, b1, b2, c1, c2 := a / 4, a % 4, b / 16, b % 16, c / 64, c % 64;
    assert a == a1 * 4 + a2 && b == b1 * 16 + b2 && c == c1 * 64 + c2;
  }

  lemma BytesOf(a: int, b: int, c: int)
    requires 0 <= a < 256 && 0 <= b < 256 && 0 <= c < 256
    ensures var v := a * 0x1_0000 + b * 256 + c; v / 0x1_0000 == a && v / 256 % 256 == b && v % 256 == c
  {
    assert (a * 0x1_0000 + b * 256 + c) / 256 == a * 256 + b;
  }

  /** The round trip: in either alphabet, and with or without the padding. */
  lemma RoundTrip(url: bool, s: seq<byte>)
    requires s != []
    ensures |Unpadded(url, s)| >= 2
    ensures Decoded(Encoded(url, s), 0, Size(Encoded(url, s))) == s
    ensures Decoded(Unpadded(url, s), 0, Size(Unpadded(url, s))) == s
  {
    SizeFound(url, s);
    EncodedIsPadded(url, s);
    DecodedBack(url, s, Encoded(url, s), 0);
    DecodedBack(url, s, Unpadded(url, s), 0);
  }
}
