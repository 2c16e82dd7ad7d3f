/** JSON text as Crow writes and reads it (json.h): the printer, and what the parser accepts, on values.
    Floating-point numbers and functions are not part of this model. */
module JsonText {
  import opened Options
  import opened Basics

  const MAX_DEPTH := 10000

  /** A number keeps its text, as the reader does. An object keeps the order of its members. */
  datatype Json =
    | Null
    | False
    | True
    | Number(text: string)
    | String(bytes: string)
    | List(items: seq<Json>)
    | Object(members: seq<(string, Json)>)

  // ---------------------------------------------------------------- strings

  function LowerHex(n: nat): char
    requires n < 16
  {
    if n < 10 then ('0' as int + n) as char else ('a' as int + n - 10) as char
  }

  /** One character, as `escape` writes it. */
  function EscapedChar(c: char): string {
    match c
    case '"' => "\\\""
    case '\\' => "\\\\"
    case '\n' => "\\n"
    case '\r' => "\\r"
    case '\t' => "\\t"
    case _ =>
      if c as int == 8 then "\\b"
      else if c as int == 12 then "\\f"
      else if c as int < 32 then "\\u00" + [LowerHex(c as int / 16), LowerHex(c as int % 16)]
      else [c]
  }

  function Escaped(s: string): string {
    if s == "" then "" else EscapedChar(s[0]) + Escaped(s[1..])
  }

  /** The characters that may follow a backslash, other than `u`. */
  predicate Simple(c: char) {
    c == '"' || c == '\\' || c == '/' || c == 'b' || c == 'f' || c == 'n' || c == 'r' || c == 't'
  }

  function SimpleChar(c: char): char
    requires Simple(c)
  {
    match c
    case 'b' => 8 as char
    case 'f' => 12 as char
    case 'n' => '\n'
    case 'r' => '\r'
    case 't' => '\t'
    case _ => c
  }

  /** A code unit in UTF-8. */
  function Utf8(code: nat): (s: string)
    requires code < 0x1_0000
    ensures 1 <= |s| <= 3
  {
    if code >= 0x800 then [(0xE0 + code / 4096) as char, (0x80 + code / 64 % 64) as char, (0x80 + code % 64) as char]
    else if code >= 0x80 then [(0xC0 + code / 64) as char, (0x80 + code % 64) as char]
    else [code as char]
  }

  /** The four digits of a `\u` escape at the start of `raw`. */
  predicate Unicode(raw: string) {
    |raw| >= 6 && raw[1] == 'u' && HexDigit(raw[2]) && HexDigit(raw[3]) && HexDigit(raw[4]) && HexDigit(raw[5])
  }

  function Code(raw: string): (n: nat)
    requires Unicode(raw)
    ensures n < 0x1_0000
  {
    HexValue(raw[2]) * 4096 + HexValue(raw[3]) * 256 + HexValue(raw[4]) * 16 + HexValue(raw[5])
  }

  /** Every backslash begins an escape that the parser lets through. */
  predicate WellEscaped(raw: string) {
    if raw == "" then true
    else if raw[0] != '\\' then WellEscaped(raw[1..])
    else if Unicode(raw) then WellEscaped(raw[6..])
    else |raw| >= 2 && Simple(raw[1]) && WellEscaped(raw[2..])
  }

  /** What `unescape` makes of the raw bytes of a string. */
  function Unescaped(raw: string): string
    requires WellEscaped(raw)
  {
    if raw == "" then ""
    else if raw[0] != '\\' then [raw[0]] + Unescaped(raw[1..])
    else if Unicode(raw) then Utf8(Code(raw)) + Unescaped(raw[6..])
    else [SimpleChar(raw[1])] + Unescaped(raw[2..])
  }

  lemma HexPair(n: nat)
    requires n < 32
    ensures HexDigit(LowerHex(n / 16)) && HexDigit(LowerHex(n % 16))
    ensures HexValue(LowerHex(n / 16)) * 16 + HexValue(LowerHex(n % 16)) == n
  {
  }

  lemma EscapedCharBack(c: char, rest: string)
    requires WellEscaped(rest)
    ensures WellEscaped(EscapedChar(c) + rest) && Unescaped(EscapedChar(c) + rest) == [c] + Unescaped(rest)
  {
    var raw := EscapedChar(c) + rest;
    if |EscapedChar(c)| == 6 {
      HexPair(c as int);
      assert raw[6..] == rest;
    } else if |EscapedChar(c)| == 2 {
      assert raw[2..] == rest;
    } else {
      assert raw[1..] == rest;
    }
  }

  /** Strings: unescaping gives back every byte that was escaped. */
  lemma {:induction false} EscapeRoundTrip(s: string)
    ensures WellEscaped(Escaped(s)) && Unescaped(Escaped(s)) == s
    decreases |s|
  {
    if s != "" {
      EscapeRoundTrip(s[1..]);
      EscapedCharBack(s[0], Escaped(s[1..]));
    }
  }

  /** A string without a backslash stands for itself, and any other one gets shorter. */
  lemma {:induction false} UnescapedLength(raw: string)
    requires WellEscaped(raw)
    ensures |Unescaped(raw)| <= |raw|
    ensures |Unescaped(raw)| == |raw| <==> '\\' !in raw
    ensures '\\' !in raw ==> Unescaped(raw) == raw
    decreases |raw|
  {
    if raw != "" {
      var n := if raw[0] != '\\' then 1 else if Unicode(raw) then 6 else 2;
      UnescapedLength(raw[n..]);
      assert raw == raw[..n] + raw[n..];
    }
  }

  // ---------------------------------------------------------------- numbers

  function Digits(n: nat): string {
    if n < 10 then [('0' as int + n) as char] else Digits(n / 10) + [('0' as int + n % 10) as char]
  }

  /** `std::to_string` */
  function IntText(n: int): string {
    if n < 0 then "-" + Digits(-n) else Digits(n)
  }

  predicate Digit(c: char) {
    '0' <= c <= '9'
  }

  /** The states of `decode_number`; 7 is invalid. */
  function NextState(state: nat, c: char): (next: nat)
    requires state < 7
    ensures next <= 7
  {
    if c == '0' then [2, 2, 7, 3, 4, 6, 6][state]
    else if Digit(c) then [3, 3, 7, 3, 4, 6, 6][state]
    else if c == '.' then [7, 7, 4, 4, 7, 7, 7][state]
    else if c == '-' then [1, 7, 7, 7, 7, 6, 7][state]
    else if c == '+' then [7, 7, 7, 7, 7, 6, 7][state]
    else if c == 'e' || c == 'E' then [7, 7, 7, 5, 5, 7, 7][state]
    else 7
  }

  predicate NumberChar(c: char) {
    Digit(c) || c == '.' || c == '-' || c == '+' || c == 'e' || c == 'E'
  }

  predicate Accepting(state: nat) {
    state == 2 || state == 3 || state == 4 || state == 6
  }

  // ---------------------------------------------------------------- printing

  /** `dump_internal` */
  function Dump(v: Json): string
    decreases v
  {
    match v
    case Null => "null"
    case False => "false"
    case True => "true"
    case Number(text) => text
    case String(bytes) => Quoted(bytes)
    case List(_) => "[" + DumpItems(v, 0)
    case Object(_) => "{" + DumpMembers(v, 0)
  }

  function Quoted(bytes: string): string {
    "\"" + Escaped(bytes) + "\""
  }

  function DumpItems(v: Json, i: nat): string
    requires v.List? && i <= |v.items|
    decreases v, |v.items| - i
  {
    if i == |v.items| then "]" else (if i == 0 then "" else ",") + Dump(v.items[i]) + DumpItems(v, i + 1)
  }

  function DumpMembers(v: Json, i: nat): string
    requires v.Object? && i <= |v.members|
    decreases v, |v.members| - i
  {
    if i == |v.members| then "}"
    else (if i == 0 then "" else ",") + Quoted(v.members[i].0) + ":" + Dump(v.members[i].1) + DumpMembers(v, i + 1)
  }

  // ---------------------------------------------------------------- reading

  /** The text ends in a NUL, and nothing is read beyond it. */
  predicate Terminated(s: string) {
    s != "" && s[|s| - 1] == '\0'
  }

  predicate White(c: char) {
    c == ' ' || c == '\t' || c == '\r' || c == '\n'
  }

  /** `ws_skip` */
  function Skip(s: string, p: nat): (q: nat)
    requires Terminated(s) && p < |s|
    ensures p <= q < |s| && !White(s[q])
    decreases |s| - p
  {
    if White(s[p]) then Skip(s, p + 1) else p
  }

  /** Where the string that has begun before `p` ends: the place of its closing quote. */
  function StringEnd(s: string, p: nat): (r: Option<nat>)
    requires Terminated(s) && p < |s|
    ensures r.Some? ==> p <= r.value < |s| - 1 && s[r.value] == '"'
    decreases |s| - p
  {
    if s[p] == '"' then Some(p)
    else if s[p] == '\0' then None
    else if s[p] != '\\' then StringEnd(s, p + 1)
    else if Unicode(s[p..]) then StringEnd(s, p + 6)
    else if Simple(s[p + 1]) then StringEnd(s, p + 2)
    else None
  }

  /** Where a number ends, for a scan in this state. */
  function NumberEnd(s: string, p: nat, state: nat): (r: Option<nat>)
    requires Terminated(s) && p < |s| && state <= 7
    ensures r.Some? ==> p <= r.value < |s| && (state == 0 ==> p < r.value)
    decreases |s| - p
  {
    if state == 7 then None
    else if NumberChar(s[p]) then NumberEnd(s, p + 1, NextState(state, s[p]))
    else if Accepting(state) then Some(p) else None
  }

  predicate TextAt(s: string, p: nat, text: string) {
    p + |text| <= |s| && s[p..p + |text|] == text
  }

  lemma {:induction false} StringIsEscaped(s: string, p: nat)
    requires Terminated(s) && p < |s| && StringEnd(s, p).Some?
    ensures WellEscaped(s[p..StringEnd(s, p).value])
    decreases |s| - p
  {
    if s[p] != '"' {
      var n := if s[p] != '\\' then 1 else if Unicode(s[p..]) then 6 else 2;
      StringIsEscaped(s, p + n);
      var raw := s[p..StringEnd(s, p).value];
      assert raw[n..] == s[p + n..StringEnd(s, p).value];
    }
  }

  function ParseString(s: string, p: nat): (r: Option<(string, nat)>)
    requires Terminated(s) && p < |s|
    ensures r.Some? ==> p < r.value.1 < |s|
  {
    if s[p] != '"' then None
    else
      match StringEnd(s, p + 1)
      case None => None
      case Some(end) =>
        StringIsEscaped(s, p + 1);
        Some((Unescaped(s[p + 1..end]), end + 1))
  }

  function ParseWord(s: string, p: nat, word: string, v: Json): (r: Option<(Json, nat)>)
    requires Terminated(s) && p < |s| && word != "" && '\0' !in word
    ensures r.Some? ==> p < r.value.1 < |s|
  {
    if TextAt(s, p, word) then
      assert s[p + |word| - 1] == s[p..p + |word|][|word| - 1] == word[|word| - 1];
      Some((v, p + |word|))
    else None
  }

  /** `decode_value` */
  function ParseValue(s: string, p: nat, depth: nat): (r: Option<(Json, nat)>)
    requires Terminated(s) && p < |s|
    ensures r.Some? ==> p < r.value.1 < |s|
    decreases |s| - p, 2
  {
    if s[p] == '[' then ParseList(s, p, depth + 1)
    else if s[p] == '{' then ParseObject(s, p, depth + 1)
    else if s[p] == '"' then
      match ParseString(s, p)
      case Some((bytes, end)) => Some((String(bytes), end))
      case None => None
    else if s[p] == 't' then ParseWord(s, p, "true", True)
    else if s[p] == 'f' then ParseWord(s, p, "false", False)
    else if s[p] == 'n' then ParseWord(s, p, "null", Null)
    else
      match NumberEnd(s, p, 0)
      case Some(end) => Some((Number(s[p..end]), end))
      case None => None
  }

  function ParseList(s: string, p: nat, depth: nat): (r: Option<(Json, nat)>)
    requires Terminated(s) && p < |s| && s[p] == '['
    ensures r.Some? ==> p < r.value.1 < |s|
    decreases |s| - p, 1
  {
    if depth > MAX_DEPTH then None
    else
      var q := Skip(s, p + 1);
      if s[q] == ']' then Some((List([]), q + 1)) else ParseItems(s, q, depth, [])
  }

  function ParseItems(s: string, p: nat, depth: nat, items: seq<Json>): (r: Option<(Json, nat)>)
    requires Terminated(s) && p < |s|
    ensures r.Some? ==> p < r.value.1 < |s|
    decreases |s| - p, 3
  {
    match ParseValue(s, p, depth + 1)
    case None => None
    case Some((v, end)) =>
      var q := Skip(s, end);
      if s[q] == ']' then Some((List(items + [v]), q + 1))
      else if s[q] == ',' then ParseItems(s, Skip(s, q + 1), depth, items + [v])
      else None
  }

  function ParseObject(s: string, p: nat, depth: nat): (r: Option<(Json, nat)>)
    requires Terminated(s) && p < |s| && s[p] == '{'
    ensures r.Some? ==> p < r.value.1 < |s|
    decreases |s| - p, 1
  {
    if depth > MAX_DEPTH then None
    else
      var q := Skip(s, p + 1);
      if s[q] == '}' then Some((Object([]), q + 1)) else ParseMembers(s, q, depth, [])
  }

  function ParseMembers(s: string, p: nat, depth: nat, members: seq<(string, Json)>): (r: Option<(Json, nat)>)
    requires Terminated(s) && p < |s|
    ensures r.Some? ==> p < r.value.1 < |s|
    decreases |s| - p, 3
  {
    match ParseMember(s, p, depth)
    case None => None
    case Some((member, end)) =>
      var q := Skip(s, end);
      if s[q] == '}' then Some((Object(members + [member]), q + 1))
      else if s[q] == ',' then ParseMembers(s, Skip(s, q + 1), depth, members + [member])
      else None
  }

  function ParseMember(s: string, p: nat, depth: nat): (r: Option<((string, Json), nat)>)
    requires Terminated(s) && p < |s|
    ensures r.Some? ==> p < r.value.1 < |s|
    decreases |s| - p, 2
  {
    match ParseString(s, p)
    case None => None
    case Some((key, end)) =>
      var q := Skip(s, end);
      if s[q] != ':' then None
      else
        match ParseValue(s, Skip(s, q + 1), depth + 1)
        case None => None
        case Some((v, end')) => Some(((key, v), end'))
  }

  /** `load`, on a text that has been copied and terminated. */
  function Parse(s: string): Option<Json>
    requires Terminated(s)
  {
    match ParseValue(s, Skip(s, 0), 0)
    case None => None
    case Some((v, end)) => if s[Skip(s, end)] == '\0' then Some(v) else None
  }
}
