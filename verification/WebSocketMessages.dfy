/** Messages cut into frames, with other frames between them, and put together again. */
module WebSocketMessages {
  import opened Basics
  import opened WebSocketFrames

  /** A message, as the parts in which it is sent. */
  datatype Outgoing = Outgoing(binary: bool, parts: seq<seq<byte>>)

  function Flatten(parts: seq<seq<byte>>): seq<byte> {
    if parts == [] then [] else Flatten(parts[..|parts| - 1]) + parts[|parts| - 1]
  }

  /** The frame carries part `i`: the first names the kind of the message, and the last has the FIN bit. */
  predicate Carries(f: Frame, m: Outgoing, i: nat)
    requires i < |m.parts|
  {
    && f.payload == m.parts[i]
    && Fin(f.first) == (i == |m.parts| - 1)
    && Opcode(f.first) == if i > 0 then 0 else if m.binary then 2 else 1
  }

  ghost predicate CarriesAll(fs: seq<Frame>, m: Outgoing) {
    |fs| == |m.parts| && forall i | 0 <= i < |fs| :: Carries(fs[i], m, i)
  }

  /** These are the frames of these messages, one after the other. */
  ghost predicate Sent(fs: seq<Frame>, ms: seq<Outgoing>) {
    if ms == [] then fs == []
    else
      var m := ms[|ms| - 1];
      var from := |fs| - |m.parts|;
      m.parts != [] && from >= 0 && CarriesAll(fs[from..], m) && Sent(fs[..from], ms[..|ms| - 1])
  }

  function DataFrames(fs: seq<Frame>): seq<Frame> {
    if fs == [] then []
    else DataFrames(fs[..|fs| - 1]) + if IsData(fs[|fs| - 1].first) then [fs[|fs| - 1]] else []
  }

  function Messages(events: seq<Event>): seq<Event> {
    if events == [] then []
    else Messages(events[..|events| - 1]) + if events[|events| - 1].Message? then [events[|events| - 1]] else []
  }

  lemma MessagesAppend(events: seq<Event>, e: Event)
    ensures Messages(events + [e]) == if e.Message? then Messages(events) + [e] else Messages(events)
  {
    assert (events + [e])[..|events|] == events;
  }

  lemma MeaningAppend(fs: seq<Frame>, f: Frame)
    ensures Meaning(fs + [f]) == After(Meaning(fs), f.first, f.payload)
  {
    assert (fs + [f])[..|fs|] == fs;
  }

  lemma NoMessage(s: Seen, f: Frame)
    requires !IsData(f.first)
    ensures Messages(After(s, f.first, f.payload).events) == Messages(s.events)
  {
    if Control(f.first, f.payload) == [] {
      assert s.events + [] == s.events;
    } else {
      MessagesAppend(s.events, Control(f.first, f.payload)[0]);
    }
  }

  lemma SameData(s: Seen, d: Seen, f: Frame)
    requires IsData(f.first) && s.message == d.message && s.binary == d.binary && Messages(s.events) == Messages(d.events)
    ensures var s', d' := After(s, f.first, f.payload), After(d, f.first, f.payload);
            s'.message == d'.message && s'.binary == d'.binary && Messages(s'.events) == Messages(d'.events)
  {
    var e := Message(s.message + f.payload, Binary(s, f.first));
    MessagesAppend(s.events, e);
    MessagesAppend(d.events, e);
  }

  /** Frames that carry no data are nothing to the messages, wherever they are. */
  lemma {:induction false} OnlyDataMatters(fs: seq<Frame>)
    ensures Messages(Meaning(fs).events) == Messages(Meaning(DataFrames(fs)).events)
    ensures Meaning(fs).message == Meaning(DataFrames(fs)).message && Meaning(fs).binary == Meaning(DataFrames(fs)).binary
    decreases |fs|
  {
    if fs != [] {
      var init, f := fs[..|fs| - 1], fs[|fs| - 1];
      OnlyDataMatters(init);
      if IsData(f.first) {
        MeaningAppend(DataFrames(init), f);
        SameData(Meaning(init), Meaning(DataFrames(init)), f);
      } else {
        assert DataFrames(fs) == DataFrames(init);
        NoMessage(Meaning(init), f);
      }
    }
  }

  /** While the parts of a message arrive, they are collected. */
  lemma {:induction false} PartsCollected(before: seq<Frame>, fs: seq<Frame>, m: Outgoing, k: nat)
    requires CarriesAll(fs, m) && k < |fs| && Meaning(before).message == []
    ensures var s := Meaning(before + fs[..k]);
            && s.events == Meaning(before).events && s.message == Flatten(m.parts[..k]) && (k > 0 ==> s.binary == m.binary)
    decreases k
  {
    if k == 0 {
      assert before + fs[..0] == before;
    } else {
      PartsCollected(before, fs, m, k - 1);
      assert Carries(fs[k - 1], m, k - 1);
      assert before + fs[..k] == before + fs[..k - 1] + [fs[k - 1]];
      MeaningAppend(before + fs[..k - 1], fs[k - 1]);
      assert m.parts[..k][..k - 1] == m.parts[..k - 1];
    }
  }

  lemma MessageCollected(before: seq<Frame>, fs: seq<Frame>, m: Outgoing)
    requires CarriesAll(fs, m) && m.parts != [] && Meaning(before).message == []
    ensures Meaning(before + fs) == Seen(Meaning(before).events + [Received(m)], [], m.binary)
  {
    var k := |fs| - 1;
    PartsCollected(before, fs, m, k);
    assert Carries(fs[k], m, k);
    assert before + fs == before + fs[..k] + [fs[k]];
    MeaningAppend(before + fs[..k], fs[k]);
    assert m.parts[..k] + [m.parts[k]] == m.parts;
  }

  function Received(m: Outgoing): Event {
    Message(Flatten(m.parts), m.binary)
  }

  function AllReceived(ms: seq<Outgoing>): seq<Event> {
    seq(|ms|, i requires 0 <= i < |ms| => Received(ms[i]))
  }

  /** What was sent is received: each message once, in order, whole, and with its kind. */
  lemma {:induction false} Reassembled(fs: seq<Frame>, ms: seq<Outgoing>)
    requires Sent(DataFrames(fs), ms)
    ensures Messages(Meaning(fs).events) == AllReceived(ms)
    ensures Meaning(fs).message == []
  {
    OnlyDataMatters(fs);
    DataReassembled(DataFrames(fs), ms);
  }

  lemma {:induction false} DataReassembled(fs: seq<Frame>, ms: seq<Outgoing>)
    requires Sent(fs, ms)
    ensures Messages(Meaning(fs).events) == AllReceived(ms)
    ensures Meaning(fs).message == []
    decreases |ms|
  {
    if ms != [] {
      var m := ms[|ms| - 1];
      var from := |fs| - |m.parts|;
      DataReassembled(fs[..from], ms[..|ms| - 1]);
      MessageCollected(fs[..from], fs[from..], m);
      assert fs[..from] + fs[from..] == fs;
      MessagesAppend(Meaning(fs[..from]).events, Received(m));
      OneReceived(ms);
    }
  }

  lemma OneReceived(ms: seq<Outgoing>)
    requires ms != []
    ensures AllReceived(ms) == AllReceived(ms[..|ms| - 1]) + [Received(ms[|ms| - 1])]
  {
  }

  // ---------------------------------------------------------------- pings

  function Pings(fs: seq<Frame>): seq<Event> {
    if fs == [] then []
    else Pings(fs[..|fs| - 1]) + if Opcode(fs[|fs| - 1].first) == 9 then [Ponged(fs[|fs| - 1].payload)] else []
  }

  function Pongs(events: seq<Event>): seq<Event> {
    if events == [] then []
    else Pongs(events[..|events| - 1]) + if events[|events| - 1].Ponged? then [events[|events| - 1]] else []
  }

  lemma PongsAppend(events: seq<Event>, e: Event)
    ensures Pongs(events + [e]) == if e.Ponged? then Pongs(events) + [e] else Pongs(events)
  {
    assert (events + [e])[..|events|] == events;
  }

  /** Every ping is answered once, in order and with its own payload, whatever message it interrupts. */
  lemma {:induction false} PingsAnswered(fs: seq<Frame>)
    ensures Pongs(Meaning(fs).events) == Pings(fs)
    decreases |fs|
  {
    if fs != [] {
      var s, f := Meaning(fs[..|fs| - 1]), fs[|fs| - 1];
      PingsAnswered(fs[..|fs| - 1]);
      PongsAppend(s.events, if IsData(f.first) || Control(f.first, f.payload) == [] then Message(s.message + f.payload, Binary(s, f.first)) else Control(f.first, f.payload)[0]);
      assert s.events + [] == s.events;
    }
  }
}
