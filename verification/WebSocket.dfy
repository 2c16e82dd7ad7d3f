/** A WebSocket connection (websocket.h): reading by pieces, and writing with two lists of buffers. */
module WebSocket {
  import opened Basics
  import opened Options
  import opened WebSocketFrames
  import opened WebSocketNumbers
  import WebSocketMessages

  /** Always true. It stands in front of the invariants of a connection, so that they are taken apart only in
      the lemmas that mention it. */
  predicate Look(k: int) {
    true
  }

  datatype Stage = MiniHeader | Len16 | Len64 | MaskStage | Payload

  function Concat(buffers: seq<seq<byte>>): seq<byte> {
    if buffers == [] then [] else Concat(buffers[..|buffers| - 1]) + buffers[|buffers| - 1]
  }

  lemma ConcatTwo(buffers: seq<seq<byte>>, a: seq<byte>, b: seq<byte>)
    ensures Concat(buffers + [a, b]) == Concat(buffers) + a + b
  {
    assert (buffers + [a, b])[..|buffers| + 1] == buffers + [a];
    assert (buffers + [a])[..|buffers|] == buffers;
  }

  /** The form that is chosen for a length: the shortest. */
  function Shortest(n: nat): (form: Form)
    requires n < 0x1_0000_0000_0000_0000
    ensures Fits(form, n)
    ensures forall other: Form :: Fits(other, n) ==> |LengthBytes(form, n)| <= |LengthBytes(other, n)|
  {
    if n < 126 then Short else if n < 0x1_0000 then Medium else Long
  }

  /** A message as the server sends it: whole, and without a mask. */
  function Sending(opcode: nat, msg: seq<byte>): Frame
    requires opcode < 16 && |msg| < 0x1_0000_0000_0000_0000
  {
    Frame(0x80 + opcode, Shortest(|msg|), None, msg)
  }

  /** `build_header` */
  method BuildHeader(opcode: nat, size: nat) returns (r: seq<byte>)
    requires opcode < 16 && size < 0x1_0000_0000_0000_0000
    ensures r == Header(0x80 + opcode, Shortest(size), false, size)
  {
    var first := 0x80 + opcode;
    if size < 126 {
      r := [first, size];
    } else if size < 0x1_0000 {
      StoredSwapped(size, 2);
      r := [first, 126] + Memory(Swapped(size, 2), 2);
    } else {
      Stored64(size);
      r := [first, 127] + Memory(Swapped64(size), 8);
    }
  }

  lemma JoinFour(a: seq<byte>, b: seq<byte>, c: seq<byte>, d: seq<byte>)
    ensures a + b + (c + d) == a + (b + c + d)
  {
  }

  lemma JoinPayload(h: seq<byte>, m: seq<byte>, fragment: seq<byte>, bytes: seq<byte>)
    ensures h + (m + fragment) + bytes == h + (m + (fragment + bytes))
  {
  }

  lemma PayloadGrows(done: seq<Frame>, wire: seq<byte>, h: seq<byte>, m: seq<byte>, fragment: seq<byte>, seen: Seen, bytes: seq<byte>)
    requires ReadUpTo(done, wire, h + (m + fragment), seen)
    ensures ReadUpTo(done, wire + bytes, h + (m + (fragment + bytes)), seen)
  {
    ReadOn(done, wire, h + (m + fragment), seen, bytes);
    JoinPayload(h, m, fragment, bytes);
  }

  /** The frames that were sent are what was handed over and what waits in the buffers. */
  ghost predicate QueuedUp(sent: seq<Frame>, handed: seq<byte>, buffers: seq<seq<byte>>) {
    forall k {:trigger Look(k)} :: Look(k) ==> AllWellFormed(sent) && Wire(sent) == handed + Concat(buffers)
  }

  lemma QueueOne(sent: seq<Frame>, handed: seq<byte>, buffers: seq<seq<byte>>, opcode: nat, msg: seq<byte>)
    requires QueuedUp(sent, handed, buffers) && opcode < 16 && |msg| < 0x1_0000_0000_0000_0000
    ensures QueuedUp(sent + [Sending(opcode, msg)], handed, buffers + [Header(0x80 + opcode, Shortest(|msg|), false, |msg|), msg])
  {
    assert Look(0);
    var header := Header(0x80 + opcode, Shortest(|msg|), false, |msg|);
    WireAppend(sent, Sending(opcode, msg));
    ConcatTwo(buffers, header, msg);
    SendingBytes(opcode, msg);
    JoinFour(handed, Concat(buffers), header, msg);
  }

  lemma QueueHandedOver(sent: seq<Frame>, handed: seq<byte>, buffers: seq<seq<byte>>)
    requires QueuedUp(sent, handed, buffers)
    ensures QueuedUp(sent, handed + Concat(buffers), [])
  {
    assert Look(0);
    assert handed + Concat(buffers) + [] == handed + Concat(buffers);
  }

  /** What was read is the bytes of some frames and the rest, and what has happened is what the frames mean. */
  ghost predicate ReadUpTo(done: seq<Frame>, wire: seq<byte>, rest: seq<byte>, seen: Seen) {
    forall k {:trigger Look(k)} :: Look(k) ==> AllWellFormed(done) && wire == Wire(done) + rest && seen == Meaning(done)
  }

  lemma ReadOn(done: seq<Frame>, wire: seq<byte>, rest: seq<byte>, seen: Seen, bytes: seq<byte>)
    requires ReadUpTo(done, wire, rest, seen)
    ensures ReadUpTo(done, wire + bytes, rest + bytes, seen)
  {
    assert Look(0);
    Grouped(Wire(done), rest, bytes);
  }

  lemma FrameDone(done: seq<Frame>, wire: seq<byte>, seen: Seen, f: Frame)
    requires WellFormed(f) && ReadUpTo(done, wire, FrameBytes(f), seen)
    ensures ReadUpTo(done + [f], wire, [], After(seen, f.first, f.payload))
  {
    assert Look(0);
    WireAppend(done, f);
    assert wire + [] == wire;
    WebSocketMessages.MeaningAppend(done, f);
  }

  lemma SendingBytes(opcode: nat, msg: seq<byte>)
    requires opcode < 16 && |msg| < 0x1_0000_0000_0000_0000
    ensures FrameBytes(Sending(opcode, msg)) == Header(0x80 + opcode, Shortest(|msg|), false, |msg|) + msg
  {
    assert [] + msg == msg;
  }

  lemma ShortHeader(bytes: seq<byte>)
    requires |bytes| == 2 && bytes[1] % 128 < 126
    ensures Header(bytes[0], Short, bytes[1] >= 128, bytes[1] % 128) == bytes
  {
  }

  lemma LongerHeader(first: byte, form: Form, second: byte, bytes: seq<byte>)
    requires form != Short && |bytes| == (if form == Medium then 2 else 8) && second % 128 == if form == Medium then 126 else 127
    ensures Fits(form, FromBig(bytes)) && Header(first, form, second >= 128, FromBig(bytes)) == [first, second] + bytes
  {
    var n := FromBig(bytes);
    BigEndianBack(bytes);
    Powers();
    SecondByte(form, n, second);
  }

  lemma SecondByte(form: Form, n: nat, second: byte)
    requires Fits(form, n) && form != Short && second % 128 == if form == Medium then 126 else 127
    ensures (if second >= 128 then 0x80 else 0) + LengthCode(form, n) == second
  {
  }

  lemma Powers()
    ensures Pow256(2) == 0x1_0000 && Pow256(8) == 0x1_0000_0000_0000_0000
  {
  }

  lemma CurrentBytes(first: byte, form: Form, mask: Option<seq<byte>>, fragment: seq<byte>)
    requires Fits(form, |fragment|) && (mask.Some? ==> |mask.value| == 4)
    ensures FrameBytes(Frame(first, form, mask, Masked(mask, fragment)))
            == Header(first, form, mask.Some?, |fragment|) + (MaskBytes(mask) + fragment)
  {
    MaskedTwice(mask, fragment);
  }

  /** What is sent in answer to a frame: a pong to a ping, and a close frame to the first one, with the same payload. */
  function Reply(opcode: nat, payload: seq<byte>, hasSentClose: bool): seq<Frame>
    requires |payload| < 0x1_0000_0000_0000_0000
  {
    if opcode == 9 then [Sending(10, payload)] else if opcode == 8 && !hasSentClose then [Sending(8, payload)] else []
  }

  /** The pongs among the frames that were sent in answer. */
  function PongsSent(sent: seq<Frame>, answers: seq<bool>): seq<Frame>
    requires |answers| == |sent|
  {
    if sent == [] then []
    else
      var n := |sent| - 1;
      PongsSent(sent[..n], answers[..n]) + if answers[n] && Opcode(sent[n].first) == 10 then [sent[n]] else []
  }

  /** The pongs that these frames ask for: one for each ping, with its payload. */
  ghost function PongsFor(fs: seq<Frame>): seq<Frame>
    requires AllWellFormed(fs)
  {
    if fs == [] then []
    else
      var f := fs[|fs| - 1];
      PongsFor(fs[..|fs| - 1]) + if Opcode(f.first) == 9 then [Sending(10, f.payload)] else []
  }

  lemma OnePongMore(sent: seq<Frame>, answers: seq<bool>, f: Frame, answer: bool)
    requires |answers| == |sent|
    ensures PongsSent(sent + [f], answers + [answer])
            == PongsSent(sent, answers) + if answer && Opcode(f.first) == 10 then [f] else []
  {
    assert (sent + [f])[..|sent|] == sent && (answers + [answer])[..|sent|] == answers;
  }

  lemma OnePingMore(fs: seq<Frame>, f: Frame)
    requires AllWellFormed(fs) && WellFormed(f) && AllWellFormed(fs + [f])
    ensures PongsFor(fs + [f]) == PongsFor(fs) + if Opcode(f.first) == 9 then [Sending(10, f.payload)] else []
  {
    assert (fs + [f])[..|fs|] == fs;
  }

  /** Each ping was answered by a pong with its payload, in order. */
  ghost predicate Answered(sent: seq<Frame>, answers: seq<bool>, done: seq<Frame>) {
    && |answers| == |sent|
    && forall k {:trigger Look(k)} :: Look(k) ==> AllWellFormed(done) && PongsSent(sent, answers) == PongsFor(done)
  }

  /** A frame that the program sends is no answer. */
  lemma SentUnasked(sent: seq<Frame>, answers: seq<bool>, done: seq<Frame>, f: Frame)
    requires Answered(sent, answers, done)
    ensures Answered(sent + [f], answers + [false], done)
  {
    assert Look(0);
    OnePongMore(sent, answers, f, false);
  }

  lemma FrameAnswered(sent: seq<Frame>, answers: seq<bool>, done: seq<Frame>, f: Frame, hasSentClose: bool)
    requires Answered(sent, answers, done) && WellFormed(f)
    ensures var reply := Reply(Opcode(f.first), f.payload, hasSentClose);
            Answered(sent + reply, answers + Yes(|reply|), done + [f])
  {
    var reply := Reply(Opcode(f.first), f.payload, hasSentClose);
    if reply == [] {
      assert sent + [] == sent && answers + Yes(0) == answers;
      OneAnswered(sent, answers, sent, answers, done, f, []);
    } else {
      assert Yes(1) == [true];
      PongOrClose(sent, answers, reply[0]);
      OneAnswered(sent, answers, sent + [reply[0]], answers + [true], done, f, if Opcode(f.first) == 9 then [reply[0]] else []);
    }
  }

  lemma PongOrClose(sent: seq<Frame>, answers: seq<bool>, f: Frame)
    requires |answers| == |sent|
    ensures Opcode(f.first) == 10 ==> PongsSent(sent + [f], answers + [true]) == PongsSent(sent, answers) + [f]
    ensures Opcode(f.first) != 10 ==> PongsSent(sent + [f], answers + [true]) == PongsSent(sent, answers) + []
  {
    OnePongMore(sent, answers, f, true);
  }

  lemma OneAnswered(sent: seq<Frame>, answers: seq<bool>, sent': seq<Frame>, answers': seq<bool>, done: seq<Frame>, f: Frame, pong: seq<Frame>)
    requires Answered(sent, answers, done) && WellFormed(f) && |answers'| == |sent'|
    requires pong == if Opcode(f.first) == 9 then [Sending(10, f.payload)] else []
    requires PongsSent(sent', answers') == PongsSent(sent, answers) + pong
    ensures Answered(sent', answers', done + [f])
  {
    assert Look(0);
    OnePingMore(done, f);
  }

  function Yes(n: nat): (s: seq<bool>)
    ensures |s| == n
  {
    seq(n, _ => true)
  }

  lemma HeaderNumber(bytes: seq<byte>)
    requires |bytes| == 2
    ensures var n := FromBig(bytes);
            && n < 0x1_0000 && n / 256 == bytes[0] && n % 256 == bytes[1] && n % 128 == bytes[1] % 128
            && (n / 0x80 % 2 == 1 <==> bytes[1] >= 128)
  {
    assert bytes[..1][..0] == [];
    assert FromBig(bytes[..1]) == bytes[0];
  }

  class Connection {
    // reading
    var state: Stage
    var miniHeader: nat
    var remainingLength: nat
    var hasMask: bool
    var mask: seq<byte>
    var fragment: seq<byte>
    var message: seq<byte>
    var isBinary: bool
    // writing
    var sendingBuffers: seq<seq<byte>>
    var writeBuffers: seq<seq<byte>>
    var hasSentClose: bool
    var hasRecvClose: bool
    var closeConnection: bool

    /** What the handlers were told. */
    ghost var events: seq<Event>
    /** All that was read, and the frames that are complete in it. */
    ghost var wire: seq<byte>
    ghost var done: seq<Frame>
    ghost var form: Form
    /** The frames that were to be sent, and the bytes that were handed over to be written. */
    ghost var sent: seq<Frame>
    /** Which of them are answers to frames. */
    ghost var answers: seq<bool>
    ghost var handed: seq<byte>

    ghost function First(): byte
      reads this
      requires miniHeader < 0x1_0000
    {
      miniHeader / 256
    }

    /** The part of a frame that was read after the complete ones. */
    ghost function Partial(): seq<byte>
      reads this
      requires miniHeader < 0x1_0000 && (state in {MaskStage, Payload} ==> Fits(form, remainingLength + |fragment|))
    {
      match state
      case MiniHeader => []
      case Len16 => [First(), miniHeader % 256]
      case Len64 => [First(), miniHeader % 256]
      case MaskStage => Header(First(), form, true, remainingLength)
      case Payload => Header(First(), form, hasMask, remainingLength + |fragment|) + ((if hasMask then mask else []) + fragment)
    }

    ghost predicate Shape()
      reads this
    {
      && miniHeader < 0x1_0000 && |mask| == 4
      && (state in {MaskStage, Payload} ==> Fits(form, remainingLength + |fragment|))
      && (state != Payload ==> fragment == [])
      && (state == MaskStage ==> hasMask)
      && (state == Len16 ==> miniHeader % 128 == 126 && hasMask == (miniHeader % 256 >= 128))
      && (state == Len64 ==> miniHeader % 128 == 127 && hasMask == (miniHeader % 256 >= 128))
    }

    /** What was read is the bytes of the complete frames and a part of one more, and what has happened is what
        the complete frames mean. */
    ghost predicate Reading()
      reads this
    {
      Shape() && Complete(Partial())
    }

    ghost predicate Complete(rest: seq<byte>)
      reads this`done, this`wire, this`events, this`message, this`isBinary
    {
      ReadUpTo(done, wire, rest, Seen(events, message, isBinary))
    }

    /** Each ping was answered. The program may send pongs of its own. */
    ghost predicate Answering()
      reads this`sent, this`answers, this`done
    {
      Answered(sent, answers, done)
    }

    /** Nothing is lost or overtaken. */
    ghost predicate Queued()
      reads this`sent, this`handed, this`writeBuffers
    {
      QueuedUp(sent, handed, writeBuffers)
    }

    /** And what waits is not left behind without a write under way. */
    ghost predicate Writing()
      reads this`sent, this`handed, this`writeBuffers, this`sendingBuffers, this`closeConnection
    {
      && Queued()
      && (writeBuffers != [] ==> sendingBuffers != [] || closeConnection)
    }

    constructor ()
      ensures Reading() && Writing() && Answering() && wire == [] && sent == [] && handed == []
    {
      state, miniHeader, remainingLength, hasMask, mask, fragment := MiniHeader, 0, 0, false, [0, 0, 0, 0], [];
      message, isBinary := [], false;
      sendingBuffers, writeBuffers, hasSentClose, hasRecvClose, closeConnection := [], [], false, false, false;
      events, wire, done, form, sent, answers, handed := [], [], [], Short, [], [], [];
    }

    // ------------------------------------------------------------ writing

    method DoWrite()
      requires Queued()
      modifies this`sendingBuffers, this`writeBuffers, this`handed
      ensures Writing()
      ensures old(sendingBuffers) != [] ==> sendingBuffers == old(sendingBuffers) && writeBuffers == old(writeBuffers) && handed == old(handed)
      ensures old(sendingBuffers) == [] ==> sendingBuffers == old(writeBuffers) && writeBuffers == [] && handed == old(handed + Concat(writeBuffers))
    {
      if sendingBuffers == [] {
        QueueHandedOver(sent, handed, writeBuffers);
        sendingBuffers, writeBuffers := writeBuffers, sendingBuffers;
        handed := handed + Concat(sendingBuffers);
      }
    }

    /** The end of a write. */
    method OnWritten(failed: bool)
      requires Writing()
      modifies this`sendingBuffers, this`writeBuffers, this`handed, this`closeConnection
      ensures Writing()
      ensures !failed && !old(closeConnection) ==> writeBuffers == [] && QueuedUp(sent, handed, []) && closeConnection == hasSentClose
      ensures failed || old(closeConnection) ==> closeConnection && writeBuffers == old(writeBuffers) && handed == old(handed)
    {
      sendingBuffers := [];
      if !failed && !closeConnection {
        if writeBuffers != [] {
          DoWrite();
        }
        if hasSentClose {
          closeConnection := true;
        }
      } else {
        closeConnection := true;
      }
    }

    /** `send_text`, `send_binary`, `send_ping` and `send_pong`, for their opcodes. */
    method Send(opcode: nat, msg: seq<byte>, ghost answer: bool := false)
      requires Writing() && |answers| == |sent| && opcode < 16 && |msg| < 0x1_0000_0000_0000_0000
      modifies this`sendingBuffers, this`writeBuffers, this`handed, this`sent, this`answers
      ensures Writing() && sent == old(sent) + [Sending(opcode, msg)] && answers == old(answers) + [answer]
      ensures old(Answering()) && !answer ==> Answering()
      ensures old(sendingBuffers) == [] ==> QueuedUp(sent, handed, [])
    {
      var header := BuildHeader(opcode, |msg|);
      QueueOne(sent, handed, writeBuffers, opcode, msg);
      assert writeBuffers + [header] + [msg] == writeBuffers + [header, msg];
      writeBuffers := writeBuffers + [header];
      writeBuffers := writeBuffers + [msg];
      if Answering() {
        SentUnasked(sent, answers, done, Sending(opcode, msg));
      }
      sent := sent + [Sending(opcode, msg)];
      answers := answers + [answer];
      DoWrite();
    }

    method Close(msg: seq<byte>, ghost answer: bool := false)
      requires Writing() && |answers| == |sent| && |msg| < 0x1_0000_0000_0000_0000
      modifies this`sendingBuffers, this`writeBuffers, this`handed, this`sent, this`answers, this`hasSentClose
      ensures Writing() && hasSentClose && sent == old(sent) + [Sending(8, msg)] && answers == old(answers) + [answer]
      ensures old(Answering()) && !answer ==> Answering()
    {
      hasSentClose := true;
      Send(8, msg, answer);
    }

    // ------------------------------------------------------------ reading

    /** How many bytes the next read may bring. All other reads bring exactly so many; that of a payload may bring fewer. */
    function ToRead(): nat
      reads this
    {
      match state
      case MiniHeader => 2
      case Len16 => 2
      case Len64 => 8
      case MaskStage => 4
      case Payload => if remainingLength < 4096 then remainingLength else 4096
    }

    method SetMiniHeader(bytes: seq<byte>)
      requires |bytes| == 2
      modifies this`miniHeader, this`hasMask
      ensures miniHeader < 0x1_0000 && First() == bytes[0] && miniHeader % 256 == bytes[1]
      ensures miniHeader % 128 == bytes[1] % 128 && hasMask == (bytes[1] >= 128)
    {
      ReadSwapped(bytes);
      HeaderNumber(bytes);
      miniHeader := Swapped(FromMemory(bytes), 2);
      hasMask := miniHeader / 0x80 % 2 == 1;
    }

    /** The length is known: a mask is read, if there is one, and then the payload. */
    method OnLength()
      requires miniHeader < 0x1_0000 && |mask| == 4 && Fits(form, remainingLength) && fragment == []
      requires Complete(Header(First(), form, hasMask, remainingLength))
      modifies this`state
      ensures Reading() && state in {MaskStage, Payload}
    {
      ghost var h := Header(First(), form, hasMask, remainingLength);
      assert h + ([] + []) == h;
      if hasMask {
        state := MaskStage;
      } else {
        state := Payload;
        assert Partial() == h + ([] + []);
      }
    }

    method OnMiniHeader(bytes: seq<byte>)
      requires Reading() && state == MiniHeader && |bytes| == 2
      modifies this`state, this`miniHeader, this`hasMask, this`remainingLength, this`wire, this`form
      ensures Reading() && wire == old(wire) + bytes && state != MiniHeader
    {
      ReadOn(done, wire, [], Seen(events, message, isBinary), bytes);
      assert [] + bytes == bytes;
      SetMiniHeader(bytes);
      wire := wire + bytes;
      if miniHeader % 128 == 127 {
        state := Len64;
        assert Partial() == bytes;
      } else if miniHeader % 128 == 126 {
        state := Len16;
        assert Partial() == bytes;
      } else {
        remainingLength := miniHeader % 128;
        form := Short;
        ShortHeader(bytes);
        OnLength();
      }
    }

    method OnLen16(bytes: seq<byte>)
      requires Reading() && state == Len16 && |bytes| == 2
      modifies this`state, this`remainingLength, this`wire, this`form
      ensures Reading() && wire == old(wire) + bytes && state in {MaskStage, Payload}
    {
      ReadSwapped(bytes);
      LongerHeader(First(), Medium, miniHeader % 256, bytes);
      ReadOn(done, wire, Partial(), Seen(events, message, isBinary), bytes);
      remainingLength := Swapped(FromMemory(bytes), 2);
      form := Medium;
      wire := wire + bytes;
      OnLength();
    }

    method OnLen64(bytes: seq<byte>)
      requires Reading() && state == Len64 && |bytes| == 8
      modifies this`state, this`remainingLength, this`wire, this`form
      ensures Reading() && wire == old(wire) + bytes && state in {MaskStage, Payload}
    {
      Read64(bytes);
      LongerHeader(First(), Long, miniHeader % 256, bytes);
      ReadOn(done, wire, Partial(), Seen(events, message, isBinary), bytes);
      remainingLength := Swapped64(FromMemory(bytes));
      form := Long;
      wire := wire + bytes;
      OnLength();
    }

    method OnMask(bytes: seq<byte>)
      requires Reading() && state == MaskStage && |bytes| == 4
      modifies this`state, this`mask, this`wire
      ensures Reading() && wire == old(wire) + bytes && state == Payload
    {
      ghost var h := Partial();
      ReadOn(done, wire, h, Seen(events, message, isBinary), bytes);
      mask := bytes;
      wire := wire + bytes;
      state := Payload;
      assert Partial() == h + (bytes + []) == h + bytes;
    }

    method TakePayload(bytes: seq<byte>)
      requires |bytes| <= remainingLength
      modifies this`fragment, this`remainingLength
      ensures fragment == old(fragment) + bytes && remainingLength == old(remainingLength) - |bytes|
    {
      fragment := fragment + bytes;
      remainingLength := remainingLength - |bytes|;
    }

    method AddPayload(bytes: seq<byte>)
      requires Reading() && state == Payload && |bytes| <= remainingLength
      modifies this`fragment, this`remainingLength, this`wire
      ensures Reading() && wire == old(wire) + bytes && remainingLength == old(remainingLength) - |bytes|
    {
      ghost var n := remainingLength + |fragment|;
      ghost var h, m := Header(First(), form, hasMask, n), if hasMask then mask else [];
      PayloadGrows(done, wire, h, m, fragment, Seen(events, message, isBinary), bytes);
      wire := wire + bytes;
      TakePayload(bytes);
      assert remainingLength + |fragment| == n;
      assert Partial() == h + (m + fragment);
      assert Complete(Partial());
    }

    /** A part of the payload. The last one completes the frame. */
    method OnPayload(bytes: seq<byte>)
      requires Reading() && Writing() && Answering() && state == Payload && |bytes| <= ToRead()
      modifies this
      ensures Reading() && Writing() && Answering() && wire == old(wire) + bytes
      ensures |bytes| < old(remainingLength) ==> state == Payload && done == old(done) && remainingLength == old(remainingLength) - |bytes|
      ensures |bytes| == old(remainingLength) ==> state == MiniHeader && |done| == |old(done)| + 1
    {
      AddPayload(bytes);
      if remainingLength == 0 {
        EndPayload();
      }
    }

    method EndPayload()
      requires Reading() && Writing() && Answering() && state == Payload && remainingLength == 0
      modifies this
      ensures Reading() && Writing() && Answering() && state == MiniHeader && wire == old(wire) && |done| == |old(done)| + 1
    {
      CurrentBytes(First(), form, if hasMask then Some(mask) else None, fragment);
      FinishFrame();
    }

    method FinishFrame()
      requires miniHeader < 0x1_0000 && |mask| == 4 && |fragment| < 0x1_0000_0000_0000_0000
      requires WellFormed(Current()) && Complete(FrameBytes(Current())) && Writing() && Answering()
      modifies this
      ensures Reading() && Writing() && Answering() && state == MiniHeader && wire == old(wire) && |done| == |old(done)| + 1
    {
      HandleFragment(Current());
      state := MiniHeader;
    }

    /** The payload is unmasked where it is. */
    method Unmask()
      requires |mask| == 4
      modifies this`fragment
      ensures fragment == Masked(Some(mask), old(fragment))
    {
      var i := 0;
      while i < |fragment|
        invariant i <= |fragment| == |old(fragment)|
        invariant forall j | 0 <= j < |fragment| :: fragment[j] == if j < i then Masked(Some(mask), old(fragment))[j] else old(fragment)[j]
      {
        fragment := fragment[i := Xor(fragment[i], mask[i % 4])];
        i := i + 1;
      }
    }

    /** The frame that was read, unmasked. */
    ghost function Current(): Frame
      reads this
      requires miniHeader < 0x1_0000 && |mask| == 4
    {
      var m := if hasMask then Some(mask) else None;
      Frame(First(), form, m, Masked(m, fragment))
    }

    /** The frame is handed on, according to its opcode. */
    method Dispatch()
      requires miniHeader < 0x1_0000 && Writing() && |answers| == |sent| && |fragment| < 0x1_0000_0000_0000_0000
      modifies this`message, this`isBinary, this`events, this`sendingBuffers, this`writeBuffers, this`handed, this`sent,
               this`answers, this`hasSentClose, this`hasRecvClose, this`closeConnection
      ensures Writing()
      ensures Seen(events, message, isBinary) == After(old(Seen(events, message, isBinary)), First(), fragment)
      ensures Replied(Opcode(First()), fragment, old(hasSentClose), old(sent), old(answers))
    {
      var opcode := miniHeader / 256 % 16;
      if opcode == 0 {
        AddData();
      } else if opcode == 1 {
        isBinary := false;
        AddData();
      } else if opcode == 2 {
        isBinary := true;
        AddData();
      } else {
        DispatchControl(opcode);
      }
    }

    method DispatchControl(opcode: nat)
      requires miniHeader < 0x1_0000 && Writing() && |answers| == |sent| && |fragment| < 0x1_0000_0000_0000_0000
      requires opcode == Opcode(First()) > 2
      modifies this`events, this`sendingBuffers, this`writeBuffers, this`handed, this`sent,
               this`answers, this`hasSentClose, this`hasRecvClose, this`closeConnection
      ensures Writing() && events == old(events) + Control(First(), fragment)
      ensures Replied(opcode, fragment, old(hasSentClose), old(sent), old(answers))
    {
      if opcode == 8 {
        events := events + [CloseSeen(fragment)];
        OnClose();
      } else if opcode == 9 {
        events := events + [Ponged(fragment)];
        Send(10, fragment, true);
      } else if opcode == 10 {
        events := events + [PongSeen];
      }
    }

    method OnClose()
      requires Writing() && |answers| == |sent| && |fragment| < 0x1_0000_0000_0000_0000
      modifies this`sendingBuffers, this`writeBuffers, this`handed, this`sent, this`answers,
               this`hasSentClose, this`hasRecvClose, this`closeConnection
      ensures Writing() && hasRecvClose && hasSentClose
      ensures Replied(8, fragment, old(hasSentClose), old(sent), old(answers))
      ensures old(hasSentClose) ==> closeConnection
    {
      hasRecvClose := true;
      if !hasSentClose {
        Close(fragment, true);
      } else {
        closeConnection := true;
      }
    }

    method AddData()
      requires miniHeader < 0x1_0000
      modifies this`message, this`events
      ensures Seen(events, message, isBinary) == Data(old(Seen(events, message, isBinary)), Fin(First()), fragment, isBinary)
    {
      message := message + fragment;
      if miniHeader / 0x8000 % 2 == 1 {
        events := events + [Message(message, isBinary)];
        message := [];
      }
    }

    /** `handle_fragment` */
    method HandleFragment(ghost f: Frame)
      requires miniHeader < 0x1_0000 && |mask| == 4 && f == Current() && |fragment| < 0x1_0000_0000_0000_0000
      requires WellFormed(f) && Complete(FrameBytes(f)) && Writing() && Answering()
      modifies this`fragment, this`message, this`isBinary, this`events, this`done, this`sendingBuffers, this`writeBuffers,
               this`handed, this`sent, this`answers, this`hasSentClose, this`hasRecvClose, this`closeConnection
      ensures Writing() && Answering() && fragment == [] && done == old(done) + [f] && Complete([])
      ensures Replied(Opcode(f.first), f.payload, old(hasSentClose), old(sent), old(answers))
    {
      if hasMask {
        Unmask();
      }
      assert f.first == First() && f.payload == fragment;
      FrameDone(done, wire, Seen(events, message, isBinary), f);
      FrameAnswered(sent, answers, done, f, hasSentClose);
      Dispatch();
      done := done + [f];
      fragment := [];
    }

    /** What was sent in answer to a frame. */
    ghost predicate Replied(opcode: nat, payload: seq<byte>, hasSentClose: bool, sent0: seq<Frame>, answers0: seq<bool>)
      requires |payload| < 0x1_0000_0000_0000_0000
      reads this`sent, this`answers
    {
      var reply := Reply(opcode, payload, hasSentClose);
      sent == sent0 + reply && answers == answers0 + Yes(|reply|)
    }
  }
}
