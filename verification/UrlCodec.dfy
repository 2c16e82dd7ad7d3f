/** Keys in URLs: `url_decode` (HttpServerHelpers.cpp), against every percent-encoding of a key, and the
    one that client.py makes. Characters stand for bytes. */
module UrlCodec {
  import opened Options
  import opened Basics

  predicate Byte(c: char) {
    c as int < 256
  }

  predicate Bytes(s: string) {
    forall i | 0 <= i < |s| :: Byte(s[i])
  }

  predicate Space(c: char) {
    c == ' ' || '\t' <= c <= '\r'
  }

  /** `sscanf` with `%x` on these two characters and a NUL: nothing at the end of the input, and
      otherwise the number that it stores, or 0 as before when nothing can be converted. */
  function ScanHex(a: char, b: char): Option<int> {
    if a == '\0' || (Space(a) && (b == '\0' || Space(b))) then None
    else if Space(a) then Some(if HexDigit(b) then HexValue(b) else 0)
    else if HexDigit(a) then Some(if HexDigit(b) then 16 * HexValue(a) + HexValue(b) else HexValue(a))
    else if a == '-' && HexDigit(b) then (var n: int := HexValue(b); Some(-n))
    else if a == '+' && HexDigit(b) then Some(HexValue(b))
    else Some(0)
  }

  function AsByte(n: int): (c: char)
    ensures Byte(c) && c as int == n % 256
  {
    (n % 256) as char
  }

  /** Whether `%` at `i` starts an escape, and what it stands for. */
  function Escape(value: string, i: nat): Option<char>
    requires i < |value|
  {
    if value[i] == '%' && i + 2 < |value| then
      match ScanHex(value[i + 1], value[i + 2])
      case Some(n) => Some(AsByte(n))
      case None => None
    else None
  }

  function Decoded(value: string, i: nat): string
    requires i <= |value|
    decreases |value| - i
  {
    if i == |value| then ""
    else if value[i] == '+' then " " + Decoded(value, i + 1)
    else
      match Escape(value, i)
      case Some(c) => [c] + Decoded(value, i + 3)
      case None => [value[i]] + Decoded(value, i + 1)
  }

  lemma OneDecoded(value: string, i: nat, result: string)
    requires i < |value|
    ensures value[i] == '+' ==> result + Decoded(value, i) == result + " " + Decoded(value, i + 1)
    ensures value[i] != '+' ==>
              match Escape(value, i)
              case Some(c) => result + Decoded(value, i) == result + [c] + Decoded(value, i + 3)
              case None => result + Decoded(value, i) == result + [value[i]] + Decoded(value, i + 1)
  {
    Grouped(result, " ", Decoded(value, i + 1));
    Grouped(result, [value[i]], Decoded(value, i + 1));
    match Escape(value, i)
    case Some(c) => Grouped(result, [c], Decoded(value, i + 3));
    case None =>
  }

  /** `len - 2` is computed without a sign: for the single character `%` it wraps around and the
      source reads past the end, so that input is excluded. */
  method UrlDecode(value: string) returns (result: string)
    requires value != "%"
    ensures result == Decoded(value, 0)
  {
    result := "";
    var i := 0;
    while i < |value|
      invariant i <= |value| && result + Decoded(value, i) == Decoded(value, 0)
    {
      OneDecoded(value, i, result);
      if value[i] == '+' {
        result := result + " ";
        i := i + 1;
        continue;
      }
      if value[i] == '%' && i < |value| - 2 {
        var number := ScanHex(value[i + 1], value[i + 2]);
        if number != None {
          result := result + [AsByte(number.value)];
          i := i + 3;
          continue;
        }
      }
      result := result + [value[i]];
      i := i + 1;
    }
  }

  // ---------------------------------------------------------------- encodings

  /** `e` is a percent-encoding of the key: each byte stands for itself (but `%`, `+` and `/` do not),
      or is a space written as `+`, or is written with two hex digits of either case. */
  ghost predicate Encodes(key: string, e: string)
    decreases |key|
  {
    if key == "" then e == ""
    else
      || (e != "" && e[0] == key[0] && e[0] !in "%+/" && Encodes(key[1..], e[1..]))
      || (e != "" && e[0] == '+' && key[0] == ' ' && Encodes(key[1..], e[1..]))
      || (|e| >= 3 && e[0] == '%' && HexDigit(e[1]) && HexDigit(e[2])
          && 16 * HexValue(e[1]) + HexValue(e[2]) == key[0] as int && Encodes(key[1..], e[3..]))
  }

  lemma {:induction false} DecodeFrom(value: string, i: nat)
    requires i <= |value|
    ensures Decoded(value, i) == Decoded(value[i..], 0)
    decreases |value| - i
  {
    if i < |value| {
      var rest := value[i..];
      assert Escape(rest, 0) == Escape(value, i);
      if Escape(value, i).Some? && value[i] != '+' {
        DecodeFrom(value, i + 3);
        DecodeFrom(rest, 3);
        assert rest[3..] == value[i + 3..];
      } else {
        DecodeFrom(value, i + 1);
        if i > 0 {
          DecodeFrom(rest, 1);
          assert rest[1..] == value[i + 1..];
        } else {
          assert rest == value;
        }
      }
    }
  }

  /** Decoding gives the key back, whatever encoding the client chose, and no encoding has a slash. */
  lemma {:induction false} DecodeEncoded(key: string, e: string)
    requires Encodes(key, e)
    ensures Decoded(e, 0) == key && '/' !in e && e != "%"
    ensures key == "" <==> e == ""
    decreases |key|
  {
    if key != "" {
      if e[0] != '%' {
        DecodeEncoded(key[1..], e[1..]);
        DecodeFrom(e, 1);
        assert e == [e[0]] + e[1..];
      } else {
        DecodeEncoded(key[1..], e[3..]);
        DecodeFrom(e, 3);
        assert e == [e[0], e[1], e[2]] + e[3..];
      }
    }
  }

  /** `urllib.parse.quote_plus`, on the bytes of the key. */
  function QuotePlus(key: string): string
    requires Bytes(key)
  {
    if key == "" then "" else Quoted(key[0]) + QuotePlus(key[1..])
  }

  function Quoted(c: char): string
    requires Byte(c)
  {
    if 'a' <= c <= 'z' || 'A' <= c <= 'Z' || '0' <= c <= '9' || c in "_.-~" then [c]
    else if c == ' ' then "+"
    else ['%', UpperHex(c as int / 16), UpperHex(c as int % 16)]
  }

  function UpperHex(n: nat): (c: char)
    requires n < 16
    ensures HexDigit(c) && HexValue(c) == n
  {
    if n < 10 then ('0' as int + n) as char else ('A' as int + n - 10) as char
  }

  lemma {:induction false} QuotePlusEncodes(key: string)
    requires Bytes(key)
    ensures Encodes(key, QuotePlus(key))
    decreases |key|
  {
    if key != "" {
      QuotePlusEncodes(key[1..]);
      var e := QuotePlus(key);
      if |Quoted(key[0])| == 1 {
        assert e[1..] == QuotePlus(key[1..]);
      } else {
        assert e[3..] == QuotePlus(key[1..]);
      }
    }
  }
}
