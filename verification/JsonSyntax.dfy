/** What the reader makes of strings and numbers that are not written as the printer writes them. */
module JsonSyntax {
  import opened Options
  import opened Basics
  import opened JsonText
  import opened JsonRoundTrip

  // ---------------------------------------------------------------- strings

  /** A part of a string: a character, a short escape, or a code unit in four hexadecimal digits. */
  datatype Piece = Char(c: char) | Short(c: char) | Unit(digits: string)

  function PieceText(p: Piece): string {
    match p
    case Char(c) => [c]
    case Short(c) => "\\" + [c]
    case Unit(digits) => "\\u" + digits
  }

  predicate WellFormedPiece(p: Piece) {
    match p
    case Char(c) => c != '"' && c != '\\' && c != '\0'
    case Short(c) => c in "\"\\/bfnrt"
    case Unit(digits) => |digits| == 4 && forall i | 0 <= i < 4 :: HexDigit(digits[i])
  }

  /** What a part stands for (section 7 of RFC 8259); a code unit stands for its UTF-8 bytes. */
  function PieceBytes(p: Piece): string
    requires WellFormedPiece(p)
  {
    match p
    case Char(c) => [c]
    case Short(c) =>
      if c == 'b' then "\U{8}" else if c == 'f' then "\U{C}" else if c == 'n' then "\n" else if c == 'r' then "\r"
      else if c == 't' then "\t" else [c]
    case Unit(digits) =>
      Utf8(HexValue(digits[0]) * 4096 + HexValue(digits[1]) * 256 + HexValue(digits[2]) * 16 + HexValue(digits[3]))
  }

  predicate WellFormedPieces(ps: seq<Piece>) {
    forall i | 0 <= i < |ps| :: WellFormedPiece(ps[i])
  }

  function PiecesText(ps: seq<Piece>): string {
    if ps == [] then "" else PieceText(ps[0]) + PiecesText(ps[1..])
  }

  function PiecesBytes(ps: seq<Piece>): string
    requires WellFormedPieces(ps)
  {
    if ps == [] then "" else PieceBytes(ps[0]) + PiecesBytes(ps[1..])
  }

  /** The bytes of a code unit determine it: they are read as section 3 of RFC 3629 says. */
  function FromUtf8(s: string): int {
    if |s| == 1 then s[0] as int
    else if |s| == 2 then (s[0] as int - 0xC0) * 64 + (s[1] as int - 0x80)
    else if |s| == 3 then (s[0] as int - 0xE0) * 4096 + (s[1] as int - 0x80) * 64 + (s[2] as int - 0x80)
    else -1
  }

  predicate Continues(c: char) {
    0x80 <= c as int < 0xC0
  }

  lemma Utf8Back(code: nat)
    requires code < 0x1_0000
    ensures FromUtf8(Utf8(code)) == code
    ensures var s := Utf8(code);
            match |s|
            case 1 => code < 0x80
            case 2 => 0x80 <= code < 0x800 && 0xC0 <= s[0] as int < 0xE0 && Continues(s[1])
            case _ => 0x800 <= code && 0xE0 <= s[0] as int < 0xF0 && Continues(s[1]) && Continues(s[2])
  {
  }

  const SHORT := "\"\\\U{8}\U{C}\n\r\t"
  const SHORT_NAMES := "\"\\bfnrt"

  /** How the printer writes a character: seven have a short escape, other control characters are written as code
      units, and all others stand for themselves. */
  lemma CharacterPrinted(c: char, k: nat)
    requires k < 7
    ensures |SHORT| == |SHORT_NAMES| == 7
    ensures c == SHORT[k] ==> EscapedChar(c) == "\\" + [SHORT_NAMES[k]]
    ensures c !in SHORT && c < ' ' ==>
              var e := EscapedChar(c);
              && |e| == 6 && e[..4] == "\\u00" && HexDigit(e[4]) && HexDigit(e[5]) && HexValue(e[4]) * 16 + HexValue(e[5]) == c as int
    ensures c !in SHORT && c >= ' ' ==> EscapedChar(c) == [c]
  {
    if c !in SHORT {
      assert c != SHORT[0] && c != SHORT[1] && c != SHORT[2] && c != SHORT[3] && c != SHORT[4] && c != SHORT[5] && c != SHORT[6];
    }
  }

  lemma PieceRead(p: Piece, rest: string)
    requires WellFormedPiece(p) && WellEscaped(rest)
    ensures WellEscaped(PieceText(p) + rest) && Unescaped(PieceText(p) + rest) == PieceBytes(p) + Unescaped(rest)
  {
    var raw := PieceText(p) + rest;
    match p
    case Char(c) => assert raw[1..] == rest;
    case Short(c) =>
      assert raw[1] == c && raw[2..] == rest;
    case Unit(digits) =>
      assert raw[2] == digits[0] && raw[3] == digits[1] && raw[4] == digits[2] && raw[5] == digits[3] && raw[6..] == rest;
  }

  lemma {:induction false} PiecesRead(ps: seq<Piece>)
    requires WellFormedPieces(ps)
    ensures WellEscaped(PiecesText(ps)) && Unescaped(PiecesText(ps)) == PiecesBytes(ps)
    decreases |ps|
  {
    if ps != [] {
      PiecesRead(ps[1..]);
      PieceRead(ps[0], PiecesText(ps[1..]));
    }
  }

  lemma PieceScanned(s: string, p: nat, x: Piece)
    requires Terminated(s) && WellFormedPiece(x) && TextAt(s, p, PieceText(x)) && p + |PieceText(x)| < |s|
    ensures StringEnd(s, p) == StringEnd(s, p + |PieceText(x)|)
  {
    var t, raw := PieceText(x), s[p..];
    assert forall i | 0 <= i < |t| :: s[p + i] == s[p..p + |t|][i] == t[i];
    match x
    case Char(c) => assert t[0] == c;
    case Short(c) => assert t[0] == '\\' && t[1] == c && raw[1] == s[p + 1] && Simple(c) && c != 'u';
    case Unit(digits) =>
      assert t[0] == '\\' && t[1] == 'u' && t[2] == digits[0] && t[3] == digits[1] && t[4] == digits[2] && t[5] == digits[3];
      assert raw[1] == s[p + 1] && raw[2] == s[p + 2] && raw[3] == s[p + 3] && raw[4] == s[p + 4] && raw[5] == s[p + 5];
      assert Unicode(raw);
  }

  /** The parts stand at `p`, and then the quote. */
  predicate Quoted(s: string, p: nat, ps: seq<Piece>, end: nat) {
    p <= end < |s| && s[p..end] == PiecesText(ps) && s[end] == '"'
  }

  lemma {:induction false} PiecesScanned(s: string, p: nat, ps: seq<Piece>, end: nat)
    requires Terminated(s) && WellFormedPieces(ps) && Quoted(s, p, ps, end)
    ensures StringEnd(s, p) == Some(end)
    decreases |ps|
  {
    if ps != [] {
      var q := FirstPiece(s, p, ps, end);
      PiecesScanned(s, q, ps[1..], end);
    }
  }

  lemma FirstPiece(s: string, p: nat, ps: seq<Piece>, end: nat) returns (q: nat)
    requires Terminated(s) && ps != [] && WellFormedPieces(ps) && Quoted(s, p, ps, end)
    ensures Quoted(s, q, ps[1..], end) && q <= end && StringEnd(s, p) == StringEnd(s, q)
  {
    q := p + |PieceText(ps[0])|;
    TextSplit(s, p, PieceText(ps[0]), PiecesText(ps[1..]));
    PieceScanned(s, p, ps[0]);
  }

  /** Any string that is written in these parts, and ends with a quote, is read as what the parts stand for. */
  lemma StringRead(s: string, p: nat, ps: seq<Piece>, end: nat)
    requires Terminated(s) && WellFormedPieces(ps) && p < |s| && s[p] == '"' && Quoted(s, p + 1, ps, end)
    ensures ParseString(s, p) == Some((PiecesBytes(ps), end + 1))
  {
    QuotedIs(s, p + 1, ps, end);
    ParsedTo(s, p, end, s[p + 1..end], PiecesBytes(ps));
  }

  lemma QuotedIs(s: string, p: nat, ps: seq<Piece>, end: nat)
    requires Terminated(s) && WellFormedPieces(ps) && Quoted(s, p, ps, end)
    ensures StringEnd(s, p) == Some(end) && WellEscaped(s[p..end]) && Unescaped(s[p..end]) == PiecesBytes(ps)
  {
    PiecesScanned(s, p, ps, end);
    PiecesRead(ps);
  }

  // ---------------------------------------------------------------- numbers

  /** A number as section 6 of RFC 8259 takes it apart. */
  datatype NumberText = NumberText(minus: bool, whole: string, point: Option<string>, exponent: Option<Exponent>)

  datatype Exponent = Exponent(e: char, sign: string, digits: string)

  predicate AllDigits(s: string) {
    forall i | 0 <= i < |s| :: '0' <= s[i] <= '9'
  }

  predicate ExponentShape(e: Exponent) {
    (e.e == 'e' || e.e == 'E') && (e.sign == "" || e.sign == "+" || e.sign == "-") && AllDigits(e.digits)
  }

  predicate Shape(n: NumberText) {
    && (n.whole == "0" || (n.whole != "" && n.whole[0] != '0')) && AllDigits(n.whole)
    && (n.point.Some? ==> AllDigits(n.point.value)) && (n.exponent.Some? ==> ExponentShape(n.exponent.value))
  }

  /** The numbers of the standard: there are digits after the point and in the exponent. */
  predicate Standard(n: NumberText) {
    && Shape(n) && (n.point.Some? ==> n.point.value != "")
    && (n.exponent.Some? ==> n.exponent.value.digits != "")
  }

  function PointText(n: NumberText): string {
    if n.point.Some? then "." + n.point.value else ""
  }

  function ExponentText(n: NumberText): string {
    if n.exponent.Some? then [n.exponent.value.e] + (n.exponent.value.sign + n.exponent.value.digits) else ""
  }

  function TextOf(n: NumberText): string {
    (if n.minus then "-" else "") + (n.whole + (PointText(n) + ExponentText(n)))
  }

  /** What the reader accepts: a zero is not followed by an exponent at once, and an exponent has a sign or a digit. */
  predicate Readable(n: NumberText) {
    && !(n.whole == "0" && n.point.None? && n.exponent.Some?)
    && (n.exponent.Some? ==> n.exponent.value.sign + n.exponent.value.digits != "")
  }

  lemma {:induction false} DigitsPassed(s: string, p: nat, d: string, state: nat)
    requires Terminated(s) && TextAt(s, p, d) && AllDigits(d) && p + |d| < |s| && (state == 3 || state == 4 || state == 6)
    ensures NumberEnd(s, p, state) == NumberEnd(s, p + |d|, state)
    decreases |d|
  {
    if d != "" {
      assert d == d[..1] + d[1..] && s[p..p + |d|][0] == d[0];
      TextSplit(s, p, d[..1], d[1..]);
      assert NextState(state, s[p]) == state;
      DigitsPassed(s, p + 1, d[1..], state);
    }
  }

  lemma {:induction false} Invalid(s: string, p: nat)
    requires Terminated(s) && p < |s|
    ensures NumberEnd(s, p, 7) == None
  {
  }

  /** The exponent, after a whole part or a point. */
  lemma ExponentPassed(s: string, p: nat, e: Exponent, state: nat)
    requires Terminated(s) && ExponentShape(e) && (state == 2 || state == 3 || state == 4)
    requires TextAt(s, p, [e.e] + (e.sign + e.digits)) && p + 1 + |e.sign| + |e.digits| < |s| && !NumberChar(s[p + 1 + |e.sign| + |e.digits|])
    ensures NumberEnd(s, p, state)
            == if state != 2 && e.sign + e.digits != "" then Some(p + 1 + |e.sign| + |e.digits|) else None
  {
    TextSplit(s, p, [e.e], e.sign + e.digits);
    TextFirst(s, p, [e.e]);
    TextSplit(s, p + 1, e.sign, e.digits);
    if state == 2 {
      Invalid(s, p + 1);
    } else {
      assert NextState(state, s[p]) == 5;
      AfterE(s, p + 1, e.sign, e.digits);
    }
  }

  lemma AfterE(s: string, p: nat, sign: string, digits: string)
    requires Terminated(s) && (sign == "" || sign == "+" || sign == "-") && AllDigits(digits)
    requires TextAt(s, p, sign) && TextAt(s, p + |sign|, digits) && p + |sign| + |digits| < |s| && !NumberChar(s[p + |sign| + |digits|])
    ensures NumberEnd(s, p, 5) == if sign + digits != "" then Some(p + |sign| + |digits|) else None
  {
    if sign != "" {
      TextFirst(s, p, sign);
      assert NextState(5, s[p]) == 6;
      DigitsPassed(s, p + 1, digits, 6);
    } else if digits != "" {
      TextFirst(s, p, digits);
      assert digits == digits[..1] + digits[1..] && NextState(5, s[p]) == 6;
      TextSplit(s, p, digits[..1], digits[1..]);
      DigitsPassed(s, p + 1, digits[1..], 6);
    }
  }

  lemma PointPassed(s: string, p: nat, frac: string, state: nat)
    requires Terminated(s) && AllDigits(frac) && (state == 2 || state == 3) && TextAt(s, p, "." + frac) && p + 1 + |frac| < |s|
    ensures NumberEnd(s, p, state) == NumberEnd(s, p + 1 + |frac|, 4)
  {
    TextSplit(s, p, ".", frac);
    TextFirst(s, p, ".");
    assert NextState(state, s[p]) == 4;
    DigitsPassed(s, p + 1, frac, 4);
  }

  lemma WholePassed(s: string, p: nat, whole: string, state: nat)
    requires Terminated(s) && (whole == "0" || (whole != "" && whole[0] != '0')) && AllDigits(whole) && state <= 1
    requires TextAt(s, p, whole) && p + |whole| < |s|
    ensures NumberEnd(s, p, state) == NumberEnd(s, p + |whole|, if whole == "0" then 2 else 3)
  {
    TextFirst(s, p, whole);
    if whole != "0" {
      assert whole == whole[..1] + whole[1..] && NextState(state, s[p]) == 3;
      TextSplit(s, p, whole[..1], whole[1..]);
      DigitsPassed(s, p + 1, whole[1..], 3);
    }
  }

  lemma AfterWhole(s: string, p: nat, n: NumberText)
    requires Terminated(s) && Shape(n) && TextAt(s, p, PointText(n) + ExponentText(n))
    requires var e := p + |PointText(n)| + |ExponentText(n)|; e < |s| && !NumberChar(s[e])
    ensures NumberEnd(s, p, if n.whole == "0" then 2 else 3)
            == if Readable(n) then Some(p + |PointText(n)| + |ExponentText(n)|) else None
  {
    TextSplit(s, p, PointText(n), ExponentText(n));
    var state := if n.whole == "0" then 2 else 3;
    if n.point.Some? {
      PointPassed(s, p, n.point.value, state);
    }
    if n.exponent.Some? {
      ExponentPassed(s, p + |PointText(n)|, n.exponent.value, if n.point.Some? then 4 else state);
    }
  }

  function Unsigned(n: NumberText): string {
    n.whole + (PointText(n) + ExponentText(n))
  }

  lemma UnsignedRead(s: string, p: nat, n: NumberText, state: nat)
    requires Terminated(s) && Shape(n) && state <= 1 && TextAt(s, p, Unsigned(n))
    requires p + |Unsigned(n)| < |s| && !NumberChar(s[p + |Unsigned(n)|])
    ensures NumberEnd(s, p, state) == if Readable(n) then Some(p + |Unsigned(n)|) else None
  {
    TextSplit(s, p, n.whole, PointText(n) + ExponentText(n));
    WholePassed(s, p, n.whole, state);
    AfterWhole(s, p + |n.whole|, n);
  }

  /** A number is read to its end if and only if it is readable. */
  lemma NumberRead(s: string, p: nat, n: NumberText)
    requires Terminated(s) && Shape(n) && TextAt(s, p, TextOf(n)) && p + |TextOf(n)| < |s| && !NumberChar(s[p + |TextOf(n)|])
    ensures NumberEnd(s, p, 0) == if Readable(n) then Some(p + |TextOf(n)|) else None
  {
    if n.minus {
      TextSplit(s, p, "-", Unsigned(n));
      TextFirst(s, p, "-");
      assert NextState(0, s[p]) == 1;
      UnsignedRead(s, p + 1, n, 1);
    } else {
      assert TextOf(n) == Unsigned(n);
      UnsignedRead(s, p, n, 0);
    }
  }

  /** Of the numbers of the standard, exactly those are not read that have an exponent right after a zero. */
  lemma StandardNumbers(n: NumberText)
    requires Standard(n)
    ensures Parse(TextOf(n) + "\0") == (if n.whole == "0" && n.point.None? && n.exponent.Some? then None else Some(Number(TextOf(n))))
  {
    var s, e := TextOf(n) + "\0", |TextOf(n)|;
    assert s[0..e] == TextOf(n) && s[e] == '\0';
    NumberRead(s, 0, n);
    NumberBegins(n);
    assert s[0] == TextOf(n)[0];
    WholeNumber(s, e, Readable(n));
  }

  /** A text that is a number only. */
  lemma WholeNumber(s: string, e: nat, readable: bool)
    requires Terminated(s) && 0 < e == |s| - 1 && (Digit(s[0]) || s[0] == '-')
    requires NumberEnd(s, 0, 0) == if readable then Some(e) else None
    ensures Parse(s) == if readable then Some(Number(s[..e])) else None
  {
    SkipsGap(s, 0);
    GapEnds(s, 0, 0);
    assert ParseValue(s, 0, 0) == if readable then Some((Number(s[0..e]), e)) else None;
    SkipsGap(s, e);
    GapEnds(s, e, e);
  }

  lemma NumberBegins(n: NumberText)
    requires Shape(n)
    ensures TextOf(n) != "" && (Digit(TextOf(n)[0]) || TextOf(n)[0] == '-')
  {
    assert n.whole == "0" || '0' <= n.whole[0] <= '9';
    assert TextOf(n)[0] == if n.minus then '-' else n.whole[0];
  }
}
