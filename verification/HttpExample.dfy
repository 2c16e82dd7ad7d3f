/** One request, from its text to what the handler gets. */
module HttpExample {
  import opened HttpText
  import opened HttpMethods
  import opened HttpMachine
  import opened HttpParser
  import opened HttpRequests
  import opened HttpBodies
  import opened HttpHeaders
  import opened HttpMessages
  import opened HttpServed

  const PATH := "/api/records/k"
  const LENGTH := Header("Content-Length", " ", "5")
  const WRITE := Message(3, Path(PATH), '1', '1', [LENGTH], Sized("hello"))

  lemma LengthIsFive()
    ensures HasLength(LENGTH) && WellFormedHeader(LENGTH) && Digits("5") == "5" && Decimal("5") == 5
    ensures !UsesEncoding(LENGTH) && !SaysChunked(LENGTH) && !Connects(LENGTH) && !Upgrades(LENGTH)
  {
    assert LowerCase("Content-Length") == "content-length";
    assert "5"[1..] == "" && Digits("5") == "5";
    assert "5"[..0] == "" && Decimal("") == 0;
  }

  lemma OnlyLength(p: Header -> bool)
    ensures Exists([LENGTH], p) <==> p(LENGTH)
  {
    if p(LENGTH) {
      assert p([LENGTH][0]);
    }
  }

  lemma WriteIsWellFormed()
    ensures WellFormed(WRITE) && !Upgrading(WRITE)
  {
    LengthIsFive();
    OnlyLength(UsesEncoding);
    OnlyLength(Upgrades);
    assert METHODS[3] == "POST";
    assert WellFormedTarget(Path(PATH));
    assert WellFormedHeaders([LENGTH]);
    assert HasLength(WRITE.headers[0]) && Decimal(Digits(WRITE.headers[0].value)) == |"hello"|;
  }

  lemma WriteLine()
    ensures LineText("POST", Path(PATH), '1', '1') == "POST /api/records/k HTTP/1.1\r\n"
    ensures Line(LENGTH) == "Content-Length: 5\r\n"
  {
  }

  lemma WriteText()
    ensures MessageText(WRITE) == "POST /api/records/k HTTP/1.1\r\n" + ("Content-Length: 5\r\n" + "\r\n") + "hello"
  {
    WriteLine();
    assert METHODS[3] == "POST" && [LENGTH][..0] == [];
    assert Lines([LENGTH]) == Lines([]) + Line(LENGTH) == Line(LENGTH);
  }

  /** What the callbacks see. */
  lemma WriteEvents()
    requires WellFormed(WRITE)
    ensures Events(WRITE) == [MessageBegin, Data(Url, PATH), Data(Field, "Content-Length"), Data(Value, "5"),
                              HeadersComplete(3, 1, 1, NO_FLAGS.(contentLength := true), false), Data(Body, "hello"), MessageComplete]
  {
    LengthIsFive();
    WriteIsWellFormed();
    OnlyLength(SaysChunked);
    OnlyLength(KeepsAlive);
    OnlyLength(Closes);
    OnlyLength(Upgrades);
    OnlyLength(HasLength);
    assert [LENGTH][..0] == [];
    assert HeadersOf([LENGTH]) == HeadersOf([]) + [Data(Field, "Content-Length"), Data(Value, "5")];
  }

  /** What the handler gets. */
  lemma WriteRequest()
    requires WellFormed(WRITE)
    ensures RequestOf(WRITE) == Request(3, PATH, [("Content-Length", "5")], "hello", 1, 1, true, false, false)
  {
    LengthIsFive();
    OnlyLength(Closes);
    assert [LENGTH][..0] == [];
    assert Kept([]) + [("Content-Length", "5")] == [("Content-Length", "5")];
  }

  /** A write of five bytes: the text is that of a request, and these are the events and the request it stands for. */
  lemma WriteIsServed()
    ensures WellFormed(WRITE) && !Upgrading(WRITE)
    ensures MessageText(WRITE) == "POST /api/records/k HTTP/1.1\r\n" + ("Content-Length: 5\r\n" + "\r\n") + "hello"
    ensures Events(WRITE) == [MessageBegin, Data(Url, PATH), Data(Field, "Content-Length"), Data(Value, "5"),
                              HeadersComplete(3, 1, 1, NO_FLAGS.(contentLength := true), false), Data(Body, "hello"), MessageComplete]
    ensures RequestOf(WRITE) == Request(3, PATH, [("Content-Length", "5")], "hello", 1, 1, true, false, false)
  {
    WriteIsWellFormed();
    WriteText();
    WriteEvents();
    WriteRequest();
  }
}
