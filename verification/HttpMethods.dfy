/** The methods by their numbers (`HTTPMethod` and `method_strings` in common.h), and how the parser tells them
    apart letter by letter. */
module HttpMethods {
  import opened Options

  const METHODS := [
    "DELETE", "GET", "HEAD", "POST", "PUT", "CONNECT", "OPTIONS", "TRACE", "PATCH", "PURGE", "COPY", "LOCK",
    "MKCOL", "MOVE", "PROPFIND", "PROPPATCH", "SEARCH", "UNLOCK", "BIND", "REBIND", "UNBIND", "ACL", "REPORT",
    "MKACTIVITY", "CHECKOUT", "MERGE", "M-SEARCH", "NOTIFY", "SUBSCRIBE", "UNSUBSCRIBE", "MKCALENDAR", "LINK",
    "UNLINK", "SOURCE"]

  const DELETE := 0
  const GET := 1
  const HEAD := 2
  const POST := 3
  const PUT := 4
  const CONNECT := 5
  const OPTIONS := 6
  const TRACE := 7
  const PATCH := 8
  const PURGE := 9
  const COPY := 10
  const LOCK := 11
  const MKCOL := 12
  const MOVE := 13
  const PROPFIND := 14
  const PROPPATCH := 15
  const SEARCH := 16
  const UNLOCK := 17
  const BIND := 18
  const REBIND := 19
  const UNBIND := 20
  const ACL := 21
  const REPORT := 22
  const MKACTIVITY := 23
  const CHECKOUT := 24
  const MERGE := 25
  const MSEARCH := 26
  const NOTIFY := 27
  const SUBSCRIBE := 28
  const UNSUBSCRIBE := 29
  const MKCALENDAR := 30
  const LINK := 31
  const UNLINK := 32
  const SOURCE := 33

  function FirstMethod(c: char): Option<nat> {
    match c
    case 'A' => Some(ACL)
    case 'B' => Some(BIND)
    case 'C' => Some(CONNECT)
    case 'D' => Some(DELETE)
    case 'G' => Some(GET)
    case 'H' => Some(HEAD)
    case 'L' => Some(LOCK)
    case 'M' => Some(MKCOL)
    case 'N' => Some(NOTIFY)
    case 'O' => Some(OPTIONS)
    case 'P' => Some(POST)
    case 'R' => Some(REPORT)
    case 'S' => Some(SUBSCRIBE)
    case 'T' => Some(TRACE)
    case 'U' => Some(UNLOCK)
    case _ => None
  }

  function OtherMethod(m: nat, index: nat, c: char): Option<nat> {
    if m == POST && index == 1 then
      if c == 'U' then Some(PUT) else if c == 'A' then Some(PATCH) else if c == 'R' then Some(PROPFIND) else None
    else if m == PUT && index == 2 && c == 'R' then Some(PURGE)
    else if m == CONNECT && index == 1 && c == 'H' then Some(CHECKOUT)
    else if m == CONNECT && index == 2 && c == 'P' then Some(COPY)
    else if m == MKCOL && index == 1 then
      if c == 'O' then Some(MOVE) else if c == 'E' then Some(MERGE) else if c == '-' then Some(MSEARCH) else None
    else if m == MKCOL && index == 2 && c == 'A' then Some(MKACTIVITY)
    else if m == MKCOL && index == 3 && c == 'A' then Some(MKCALENDAR)
    else if m == SUBSCRIBE && index == 1 then if c == 'E' then Some(SEARCH) else if c == 'O' then Some(SOURCE) else None
    else if m == REPORT && index == 2 && c == 'B' then Some(REBIND)
    else if m == PROPFIND && index == 4 && c == 'P' then Some(PROPPATCH)
    else if m == LOCK && index == 1 && c == 'I' then Some(LINK)
    else if m == UNLOCK && index == 2 then if c == 'S' then Some(UNSUBSCRIBE) else if c == 'B' then Some(UNBIND) else None
    else if m == UNLOCK && index == 3 && c == 'I' then Some(UNLINK)
    else None
  }

  /** `matcher[index]`: the character of the method's name, or NUL at its end. */
  function MethodChar(m: nat, index: nat): char {
    if m < |METHODS| && index < |METHODS[m]| then METHODS[m][index] else '\0'
  }

  // ---------------------------------------------------------------- every name is recognised

  /** From place `i` of a name on, with `guess` for its method so far, the parser comes to method `m`. */
  predicate Guesses(name: string, i: nat, guess: nat, m: nat)
    requires i <= |name|
    decreases |name| - i
  {
    if i == |name| then guess == m && MethodChar(m, i) == '\0'
    else
      && ('A' <= name[i] <= 'Z' || name[i] == '-')
      && if name[i] == MethodChar(guess, i) then Guesses(name, i + 1, guess, m)
         else OtherMethod(guess, i, name[i]).Some? && Guesses(name, i + 1, OtherMethod(guess, i, name[i]).value, m)
  }

  predicate Known(m: nat)
    requires m < |METHODS|
  {
    var name := METHODS[m];
    0 < |name| < 31 && FirstMethod(name[0]).Some? && Guesses(name, 1, FirstMethod(name[0]).value, m)
  }

  lemma KnownBy(m: nat, name: string, guess: nat)
    requires m < |METHODS| && METHODS[m] == name && 0 < |name| < 31 && FirstMethod(name[0]) == Some(guess)
    requires Guesses(name, 1, guess, m)
    ensures Known(m)
  {
  }

  lemma Methods0(m: nat)
    requires 0 <= m < 6
    ensures Known(m)
  {
    if m == DELETE {
      KnownBy(m, "DELETE", DELETE);
    } else if m == GET {
      KnownBy(m, "GET", GET);
    } else if m == HEAD {
      KnownBy(m, "HEAD", HEAD);
    } else if m == POST {
      KnownBy(m, "POST", POST);
    } else if m == PUT {
      KnownBy(m, "PUT", POST);
    } else {
      KnownBy(m, "CONNECT", CONNECT);
    }
  }

  lemma Methods6(m: nat)
    requires 6 <= m < 12
    ensures Known(m)
  {
    if m == OPTIONS {
      KnownBy(m, "OPTIONS", OPTIONS);
    } else if m == TRACE {
      KnownBy(m, "TRACE", TRACE);
    } else if m == PATCH {
      KnownBy(m, "PATCH", POST);
    } else if m == PURGE {
      KnownBy(m, "PURGE", POST);
    } else if m == COPY {
      KnownBy(m, "COPY", CONNECT);
    } else {
      KnownBy(m, "LOCK", LOCK);
    }
  }

  lemma Methods12(m: nat)
    requires 12 <= m < 18
    ensures Known(m)
  {
    if m == MKCOL {
      KnownBy(m, "MKCOL", MKCOL);
    } else if m == MOVE {
      KnownBy(m, "MOVE", MKCOL);
    } else if m == PROPFIND {
      KnownBy(m, "PROPFIND", POST);
    } else if m == PROPPATCH {
      KnownBy(m, "PROPPATCH", POST);
    } else if m == SEARCH {
      KnownBy(m, "SEARCH", SUBSCRIBE);
    } else {
      KnownBy(m, "UNLOCK", UNLOCK);
    }
  }

  lemma Methods18(m: nat)
    requires 18 <= m < 24
    ensures Known(m)
  {
    if m == BIND {
      KnownBy(m, "BIND", BIND);
    } else if m == REBIND {
      KnownBy(m, "REBIND", REPORT);
    } else if m == UNBIND {
      KnownBy(m, "UNBIND", UNLOCK);
    } else if m == ACL {
      KnownBy(m, "ACL", ACL);
    } else if m == REPORT {
      KnownBy(m, "REPORT", REPORT);
    } else {
      KnownBy(m, "MKACTIVITY", MKCOL);
    }
  }

  lemma Methods24(m: nat)
    requires 24 <= m < 30
    ensures Known(m)
  {
    if m == CHECKOUT {
      KnownBy(m, "CHECKOUT", CONNECT);
    } else if m == MERGE {
      KnownBy(m, "MERGE", MKCOL);
    } else if m == MSEARCH {
      KnownBy(m, "M-SEARCH", MKCOL);
    } else if m == NOTIFY {
      KnownBy(m, "NOTIFY", NOTIFY);
    } else if m == SUBSCRIBE {
      KnownBy(m, "SUBSCRIBE", SUBSCRIBE);
    } else {
      KnownBy(m, "UNSUBSCRIBE", UNLOCK);
    }
  }

  lemma Methods30(m: nat)
    requires 30 <= m < 34
    ensures Known(m)
  {
    if m == MKCALENDAR {
      KnownBy(m, "MKCALENDAR", MKCOL);
    } else if m == LINK {
      KnownBy(m, "LINK", LOCK);
    } else if m == UNLINK {
      KnownBy(m, "UNLINK", UNLOCK);
    } else {
      KnownBy(m, "SOURCE", SUBSCRIBE);
    }
  }

  /** The parser knows every method by its name. */
  lemma MethodKnown(m: nat)
    requires m < |METHODS|
    ensures Known(m)
  {
    if m < 6 {
      Methods0(m);
    } else if m < 12 {
      Methods6(m);
    } else if m < 18 {
      Methods12(m);
    } else if m < 24 {
      Methods18(m);
    } else if m < 30 {
      Methods24(m);
    } else {
      Methods30(m);
    }
  }

  lemma {:induction false} OneMethod(name: string, i: nat, guess: nat, m: nat, k: nat)
    requires i <= |name| && Guesses(name, i, guess, m) && Guesses(name, i, guess, k)
    ensures m == k
    decreases |name| - i
  {
    if i < |name| {
      OneMethod(name, i + 1, if name[i] == MethodChar(guess, i) then guess else OtherMethod(guess, i, name[i]).value, m, k);
    }
  }

  /** No two methods have one name. */
  lemma NamesDiffer(m: nat, k: nat)
    requires m < |METHODS| && k < |METHODS| && METHODS[m] == METHODS[k]
    ensures m == k
  {
    MethodKnown(m);
    MethodKnown(k);
    OneMethod(METHODS[m], 1, FirstMethod(METHODS[m][0]).value, m, k);
  }

  lemma ConnectIs(m: nat)
    requires m < |METHODS|
    ensures METHODS[m] == "CONNECT" <==> m == CONNECT
  {
    assert METHODS[CONNECT] == "CONNECT";
    if METHODS[m] == "CONNECT" {
      NamesDiffer(m, CONNECT);
    }
  }

  lemma {:induction false} NoSpaceFrom(name: string, i: nat, guess: nat, m: nat)
    requires i <= |name| && Guesses(name, i, guess, m)
    ensures ' ' !in name[i..]
    decreases |name| - i
  {
    if i < |name| {
      NoSpaceFrom(name, i + 1, if name[i] == MethodChar(guess, i) then guess else OtherMethod(guess, i, name[i]).value, m);
      assert name[i..] == [name[i]] + name[i + 1..];
    }
  }

  lemma NoSpace(m: nat)
    requires m < |METHODS|
    ensures METHODS[m] != "" && ' ' !in METHODS[m]
  {
    MethodKnown(m);
    NoSpaceIn(METHODS[m], m);
  }

  lemma NoSpaceIn(name: string, m: nat)
    requires name != "" && FirstMethod(name[0]).Some? && Guesses(name, 1, FirstMethod(name[0]).value, m)
    ensures ' ' !in name
  {
    NoSpaceFrom(name, 1, FirstMethod(name[0]).value, m);
    assert name == [name[0]] + name[1..];
  }
}
