/** How a request is written (RFC 7230), in characters only: nothing here speaks of a parser. */
module HttpText {

  // ---------------------------------------------------------------- characters

  predicate Letter(c: char) {
    'a' <= c <= 'z' || 'A' <= c <= 'Z'
  }

  predicate Numeral(c: char) {
    '0' <= c <= '9'
  }

  /** Section 3.2.6. */
  predicate TokenChar(c: char) {
    Letter(c) || Numeral(c) || c in "!#$%&'*+-.^_`|~"
  }

  predicate TargetChar(c: char) {
    '!' <= c <= '~' && c != '#'
  }

  predicate HostChar(c: char) {
    Letter(c) || Numeral(c) || c in "-_.!~*'()%;:&=+$,[]"
  }

  predicate TextChar(c: char) {
    c == '\t' || ' ' <= c <= '~' || c as int >= 128
  }

  predicate Blank(c: char) {
    c == ' ' || c == '\t'
  }

  function Small(c: char): char {
    if 'A' <= c <= 'Z' then (c as int + 32) as char else c
  }

  function LowerCase(s: string): (r: string)
    ensures |r| == |s|
  {
    seq(|s|, i requires 0 <= i < |s| => Small(s[i]))
  }

  function DigitValue(c: char): nat
    requires Numeral(c)
  {
    c as int - '0' as int
  }

  function Decimal(d: string): nat
    requires forall i | 0 <= i < |d| :: Numeral(d[i])
  {
    if d == "" then 0
    else
      assert Numeral(d[|d| - 1]);
      Decimal(d[..|d| - 1]) * 10 + DigitValue(d[|d| - 1])
  }

  // ---------------------------------------------------------------- targets

  /** What is asked for: a path, an absolute URL, or (for CONNECT) a host. A path may hold a query. */
  datatype Target =
    | Path(path: string)
    | Absolute(scheme: string, host: string, path: string)
    | Authority(host: string, path: string)

  function TargetText(t: Target): string {
    match t
    case Path(path) => path
    case Absolute(scheme, host, path) => scheme + ("://" + (host + path))
    case Authority(host, path) => host + path
  }

  predicate PathAfterHost(path: string) {
    path == "" || ((path[0] == '/' || path[0] == '?') && forall i | 0 <= i < |path| :: TargetChar(path[i]))
  }

  /** No two signs `@` stand beside each other. */
  predicate Host(host: string) {
    && (forall i | 0 <= i < |host| :: HostChar(host[i]) || host[i] == '@')
    && (forall i | 1 <= i < |host| :: host[i] == '@' ==> host[i - 1] != '@')
  }

  predicate WellFormedTarget(t: Target) {
    match t
    case Path(path) => path != "" && (path[0] == '/' || path[0] == '*') && forall i | 0 <= i < |path| :: TargetChar(path[i])
    case Absolute(scheme, host, path) =>
      scheme != "" && (forall i | 0 <= i < |scheme| :: Letter(scheme[i])) && Host(host) && PathAfterHost(path) && host + path != ""
    case Authority(host, path) => Host(host) && PathAfterHost(path) && host + path != ""
  }

  /** The version and the end of the first line. */
  function VersionText(major: char, minor: char): (s: string)
    ensures |s| == 10
  {
    "HTTP/" + ([major] + ("." + ([minor] + "\r\n")))
  }

  function LineText(name: string, t: Target, major: char, minor: char): string {
    (name + " ") + ((TargetText(t) + " ") + VersionText(major, minor))
  }

  // ---------------------------------------------------------------- header lines

  /** The line is the name, a colon, blanks, the value, and the end of the line. */
  datatype Header = Header(name: string, blanks: string, value: string)

  function Line(h: Header): string {
    h.name + (":" + (h.blanks + (h.value + "\r\n")))
  }

  function Lines(hs: seq<Header>): string {
    if hs == [] then "" else Lines(hs[..|hs| - 1]) + Line(hs[|hs| - 1])
  }

  predicate Named(h: Header, name: string) {
    LowerCase(h.name) == name
  }

  /** The value is the word, in any letter case, and spaces after it. */
  predicate Word(value: string, word: string) {
    && |value| >= |word| && LowerCase(value[..|word|]) == word
    && forall i | |word| <= i < |value| :: value[i] == ' '
  }

  predicate Connects(h: Header) {
    Named(h, "connection") || Named(h, "proxy-connection")
  }

  predicate KeepsAlive(h: Header) {
    Connects(h) && Word(h.value, "keep-alive")
  }

  predicate Closes(h: Header) {
    Connects(h) && Word(h.value, "close")
  }

  predicate SaysChunked(h: Header) {
    Named(h, "transfer-encoding") && Word(h.value, "chunked")
  }

  predicate Upgrades(h: Header) {
    Named(h, "upgrade") && h.value != ""
  }

  predicate HasLength(h: Header) {
    Named(h, "content-length") && h.value != ""
  }

  /** The name begins like that of a transfer encoding. */
  predicate Encodes(name: string) {
    |name| >= 17 && LowerCase(name[..17]) == "transfer-encoding"
  }

  predicate UsesEncoding(h: Header) {
    Encodes(h.name)
  }

  predicate Exists(hs: seq<Header>, p: Header -> bool) {
    exists i :: 0 <= i < |hs| && p(hs[i])
  }

  /** The digits in front of spaces. */
  function Digits(value: string): (d: string)
    ensures d <= value && forall i | 0 <= i < |d| :: Numeral(d[i])
  {
    if value == "" || !Numeral(value[0]) then "" else [value[0]] + Digits(value[1..])
  }

  const MAX_LENGTH: nat := 0xFFFF_FFFF_FFFF_FFFF

  /** A number, and spaces after it. All its digits but the last are at most (2^64 - 11) / 10. */
  predicate LengthText(value: string) {
    var d := Digits(value);
    && d != "" && Decimal(d[..|d| - 1]) <= (MAX_LENGTH - 10) / 10
    && forall i | |d| <= i < |value| :: value[i] == ' '
  }

  predicate WellFormedHeader(h: Header) {
    && h.name != "" && (forall i | 0 <= i < |h.name| :: TokenChar(h.name[i]))
    && (forall i | 0 <= i < |h.blanks| :: Blank(h.blanks[i]))
    && (h.value != "" ==> !Blank(h.value[0])) && (forall i | 0 <= i < |h.value| :: TextChar(h.value[i]))
    && (Named(h, "transfer-encoding") ==> Word(h.value, "chunked"))
    && (HasLength(h) ==> LengthText(h.value))
  }

  /** The lines are well formed, and at most one of them gives a length. */
  predicate WellFormedHeaders(hs: seq<Header>) {
    && (forall i | 0 <= i < |hs| :: WellFormedHeader(hs[i]))
    && (forall i, j | 0 <= i < j < |hs| :: !(HasLength(hs[i]) && HasLength(hs[j])))
  }
}
