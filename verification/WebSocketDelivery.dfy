/** From the bytes that were read to the messages that are delivered. */
module WebSocketDelivery {
  import opened Basics
  import opened Options
  import opened WebSocketFrames
  import opened WebSocketMessages
  import opened WebSocket

  /** Of two streams of frames that agree as far as both go, one begins with the frames of the other. */
  lemma {:induction false} CommonFrames(a: seq<Frame>, x: seq<byte>, b: seq<Frame>, y: seq<byte>)
    requires AllWellFormed(a) && AllWellFormed(b) && |b| <= |a| && Wire(a) + x == Wire(b) + y
    ensures a[..|b|] == b && Wire(a[|b|..]) + x == y
    decreases |b|
  {
    if b != [] {
      Grouped(FrameBytes(a[0]), Wire(a[1..]), x);
      Grouped(FrameBytes(b[0]), Wire(b[1..]), y);
      SameFrame(a[0], b[0], Wire(a[1..]) + x, Wire(b[1..]) + y);
      CommonFrames(a[1..], x, b[1..], y);
      assert a[1..][|b[1..]|..] == a[|b|..];
      assert a[..|b|] == [a[0]] + a[1..][..|b| - 1] && b == [b[0]] + b[1..];
    } else {
      assert Wire(b) + y == y && a[0..] == a;
    }
  }

  /** Frames cannot end within a frame. */
  lemma NoneWithin(done: seq<Frame>, part: seq<byte>, g: Frame, rest: seq<byte>, fs: seq<Frame>)
    requires AllWellFormed(done) && AllWellFormed(fs) && WellFormed(g)
    requires part + rest == FrameBytes(g) && part != [] && rest != []
    ensures Wire(done) + part != Wire(fs)
  {
    if Wire(done) + part == Wire(fs) {
      WireAppend(done, g);
      Grouped(Wire(done), part, rest);
      var a := done + [g];
      assert Wire(a) + [] == Wire(a) == Wire(fs) + rest;
      if |fs| <= |done| {
        assert Wire(fs) + [] == Wire(fs);
        CommonFrames(done, part, fs, []);
      } else {
        CommonFrames(fs, rest, a, []);
      }
    }
  }

  /** Some frame that begins with what was read of one. */
  ghost function Completed(c: Connection): (g: Frame)
    requires c.Shape() && c.state != MiniHeader
    reads c
    ensures WellFormed(g)
  {
    var zeros := Some(Zeros(4));
    match c.state
    case Len16 => Frame(c.First(), Medium, if c.hasMask then zeros else None, [])
    case Len64 => Frame(c.First(), Long, if c.hasMask then zeros else None, [])
    case MaskStage => Frame(c.First(), c.form, zeros, Zeros(c.remainingLength))
    case Payload =>
      var m := if c.hasMask then Some(c.mask) else None;
      Frame(c.First(), c.form, m, Masked(m, c.fragment + Zeros(c.remainingLength)))
  }

  lemma PartOfFrame(c: Connection) returns (rest: seq<byte>)
    requires c.Shape() && c.state != MiniHeader
    ensures c.Partial() + rest == FrameBytes(Completed(c)) && c.Partial() != []
    ensures rest == [] ==> c.state == Payload && c.remainingLength == 0
  {
    match c.state
    case Payload =>
      rest := AfterPayload(c);
    case MaskStage =>
      rest := Zeros(4) + Masked(Some(Zeros(4)), Zeros(c.remainingLength));
    case Len16 =>
      rest := AfterTwo(c, Medium);
    case Len64 =>
      rest := AfterTwo(c, Long);
  }

  lemma AfterPayload(c: Connection) returns (rest: seq<byte>)
    requires c.Shape() && c.state == Payload
    ensures c.Partial() + rest == FrameBytes(Completed(c)) && c.Partial() != [] && rest == Zeros(c.remainingLength)
  {
    MaskedTwice(Completed(c).mask, c.fragment + Zeros(c.remainingLength));
    rest := Zeros(c.remainingLength);
  }

  lemma AfterTwo(c: Connection, form: Form) returns (rest: seq<byte>)
    requires c.Shape() && c.state == (if form == Medium then Len16 else Len64) && form != Short
    ensures c.Partial() + rest == FrameBytes(Completed(c)) && c.Partial() != [] && rest != []
  {
    rest := LengthBytes(form, 0) + (MaskBytes(Completed(c).mask) + Masked(Completed(c).mask, []));
    assert Header(c.First(), form, c.hasMask, 0) == c.Partial() + LengthBytes(form, 0);
  }

  /** Once the bytes of some frames have been read, those frames are complete, and they are what was handled:
      only a read of no bytes can be outstanding, that of an empty payload. */
  lemma FramesRead(c: Connection, fs: seq<Frame>)
    requires c.Reading() && AllWellFormed(fs) && c.wire == Wire(fs)
    ensures c.state == MiniHeader || c.ToRead() == 0
    ensures c.state == MiniHeader ==> c.done == fs && Seen(c.events, c.message, c.isBinary) == Meaning(fs)
  {
    assert Look(0);
    if c.state == MiniHeader {
      assert Wire(c.done) + [] == Wire(c.done);
      WireInjective(c.done, fs);
    } else if c.ToRead() > 0 {
      var rest := PartOfFrame(c);
      NoneWithin(c.done, c.Partial(), Completed(c), rest, fs);
    }
  }

  /** However the bytes were cut and whatever came between its fragments, each message that was sent has been
      delivered once, whole and in order, and for each ping a pong with its payload has been sent. */
  lemma MessagesDelivered(c: Connection, fs: seq<Frame>, ms: seq<Outgoing>)
    requires c.Reading() && c.Answering() && c.state == MiniHeader && AllWellFormed(fs) && c.wire == Wire(fs) && Sent(DataFrames(fs), ms)
    ensures Messages(c.events) == AllReceived(ms) && c.message == []
    ensures Pongs(c.events) == Pings(fs)
    ensures PongsSent(c.sent, c.answers) == PongsFor(fs)
  {
    FramesRead(c, fs);
    Reassembled(fs, ms);
    PingsAnswered(fs);
    assert Look(0);
  }

  /** What one side sends is what the other handles, when nothing is left to be written or to be read. */
  lemma BothSides(writer: Connection, reader: Connection)
    requires writer.Writing() && writer.writeBuffers == []
    requires reader.Reading() && reader.state == MiniHeader && reader.wire == writer.handed
    ensures reader.done == writer.sent
  {
    assert Look(0);
    assert writer.handed + [] == writer.handed;
    FramesRead(reader, writer.sent);
  }

  /** A message that is sent whole is received as it is, in any of the three length encodings. */
  lemma SentWhole(before: seq<Frame>, binary: bool, msg: seq<byte>)
    requires |msg| < 0x1_0000_0000_0000_0000 && Meaning(before).message == []
    ensures Meaning(before + [Sending(if binary then 2 else 1, msg)])
            == Seen(Meaning(before).events + [Message(msg, binary)], [], binary)
  {
    MeaningAppend(before, Sending(if binary then 2 else 1, msg));
    assert [] + msg == msg;
  }
}
