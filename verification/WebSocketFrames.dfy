/** WebSocket frames (websocket.h; sections 5.2 to 5.4 of RFC 6455): their bytes, and what a sequence of them means. */
module WebSocketFrames {
  import opened Basics
  import opened Options

  // ---------------------------------------------------------------- numbers and bytes

  function FromBig(s: seq<byte>): nat {
    if s == [] then 0 else FromBig(s[..|s| - 1]) * 256 + s[|s| - 1]
  }

  /** The memory of a number, on a host that keeps the lowest byte first. */
  function Memory(n: nat, k: nat): (s: seq<byte>)
    ensures |s| == k
  {
    if k == 0 then [] else [n % 256] + Memory(n / 256, k - 1)
  }

  function FromMemory(s: seq<byte>): nat {
    if s == [] then 0 else s[0] + 256 * FromMemory(s[1..])
  }

  /** `htons`, `htonl` and their inverses, for `k` bytes. */
  function Swapped(n: nat, k: nat): nat {
    FromBig(Memory(n, k))
  }

  function Pow256(k: nat): (p: nat)
    ensures p > 0
  {
    if k == 0 then 1 else 256 * Pow256(k - 1)
  }

  lemma {:induction false} FromBigBack(n: nat, k: nat)
    requires n < Pow256(k)
    ensures FromBig(BigEndian(n, k)) == n
    decreases k
  {
    if k > 0 {
      FromBigBack(n / 256, k - 1);
      assert BigEndian(n, k)[..k - 1] == BigEndian(n / 256, k - 1);
    }
  }

  lemma {:induction false} BigEndianBack(s: seq<byte>)
    ensures FromBig(s) < Pow256(|s|) && BigEndian(FromBig(s), |s|) == s
    decreases |s|
  {
    if s != [] {
      BigEndianBack(s[..|s| - 1]);
      assert s == s[..|s| - 1] + [s[|s| - 1]];
    }
  }

  lemma LowByte(low: nat, n: nat)
    requires low < 256
    ensures (low + 256 * n) % 256 == low && (low + 256 * n) / 256 == n
  {
  }

  lemma {:induction false} MemoryBack(s: seq<byte>)
    ensures FromMemory(s) < Pow256(|s|) && Memory(FromMemory(s), |s|) == s
    decreases |s|
  {
    if s != [] {
      MemoryBack(s[1..]);
      LowByte(s[0], FromMemory(s[1..]));
      assert s == [s[0]] + s[1..];
    }
  }

  lemma {:induction false} FromMemoryBack(n: nat, k: nat)
    requires n < Pow256(k)
    ensures FromMemory(Memory(n, k)) == n
    decreases k
  {
    if k > 0 {
      FromMemoryBack(n / 256, k - 1);
      assert Memory(n, k)[1..] == Memory(n / 256, k - 1);
    }
  }

  // ---------------------------------------------------------------- masks

  /** Exclusive or, from the lowest bit up. */
  function XorBits(a: nat, b: nat, bits: nat): (r: nat)
    requires a < Pow2(bits) && b < Pow2(bits)
    ensures r < Pow2(bits)
  {
    if bits == 0 then 0 else (a + b) % 2 + 2 * XorBits(a / 2, b / 2, bits - 1)
  }

  function Pow2(n: nat): nat {
    if n == 0 then 1 else 2 * Pow2(n - 1)
  }

  lemma {:induction false} XorBitsTwice(a: nat, b: nat, bits: nat)
    requires a < Pow2(bits) && b < Pow2(bits)
    ensures XorBits(XorBits(a, b, bits), b, bits) == a
    decreases bits
  {
    if bits > 0 {
      XorBitsTwice(a / 2, b / 2, bits - 1);
      var low, high := (a + b) % 2, XorBits(a / 2, b / 2, bits - 1);
      assert XorBits(a, b, bits) == low + 2 * high;
      OneBit(a, b);
      HalfOf(low, high, b);
    }
  }

  lemma OneBit(a: nat, b: nat)
    ensures ((a + b) % 2 + b) % 2 == a % 2
  {
  }

  lemma HalfOf(low: nat, high: nat, b: nat)
    requires low < 2
    ensures (low + 2 * high) / 2 == high && (low + 2 * high + b) % 2 == (low + b) % 2
  {
  }

  function Xor(a: byte, b: byte): byte {
    assert Pow2(8) == 256;
    XorBits(a, b, 8)
  }

  /** Bit `i` of a number, from the lowest up. */
  predicate Bit(n: nat, i: nat) {
    if i == 0 then n % 2 == 1 else Bit(n / 2, i - 1)
  }

  lemma {:induction false} XorBitAt(a: nat, b: nat, bits: nat, i: nat)
    requires a < Pow2(bits) && b < Pow2(bits) && i < bits
    ensures Bit(XorBits(a, b, bits), i) <==> Bit(a, i) != Bit(b, i)
    decreases bits
  {
    var low, high := (a + b) % 2, XorBits(a / 2, b / 2, bits - 1);
    HalfOf(low, high, 0);
    if i > 0 {
      XorBitAt(a / 2, b / 2, bits - 1, i - 1);
    } else {
      LowBits(a, b);
    }
  }

  lemma LowBits(a: nat, b: nat)
    ensures (a + b) % 2 == 1 <==> a % 2 != b % 2
  {
  }

  /** Each bit of the exclusive or is set exactly when the two bits differ. */
  lemma XorDiffers(a: byte, b: byte, i: nat)
    requires i < 8
    ensures Bit(Xor(a, b), i) <==> Bit(a, i) != Bit(b, i)
  {
    assert Pow2(8) == 256;
    XorBitAt(a, b, 8, i);
  }

  lemma XorTwice(a: byte, b: byte)
    ensures Xor(Xor(a, b), b) == a
  {
    assert Pow2(8) == 256;
    XorBitsTwice(a, b, 8);
  }

  /** A payload under its mask, whose four bytes are used in turn. */
  function Masked(mask: Option<seq<byte>>, s: seq<byte>): (r: seq<byte>)
    requires mask.Some? ==> |mask.value| == 4
    ensures |r| == |s|
  {
    if mask.None? then s else seq(|s|, i requires 0 <= i < |s| => Xor(s[i], mask.value[i % 4]))
  }

  lemma MaskedTwice(mask: Option<seq<byte>>, s: seq<byte>)
    requires mask.Some? ==> |mask.value| == 4
    ensures Masked(mask, Masked(mask, s)) == s
  {
    if mask.Some? {
      forall i | 0 <= i < |s| ensures Masked(mask, Masked(mask, s))[i] == s[i] {
        XorTwice(s[i], mask.value[i % 4]);
      }
    }
  }

  // ---------------------------------------------------------------- frames

  /** The three ways to write a length: in the second byte, or in 16 or 64 bits after it. */
  datatype Form = Short | Medium | Long

  datatype Frame = Frame(first: byte, form: Form, mask: Option<seq<byte>>, payload: seq<byte>)

  function Fin(first: byte): bool {
    first >= 0x80
  }

  function Opcode(first: byte): nat {
    first % 16
  }

  predicate Fits(form: Form, n: nat) {
    n < if form == Short then 126 else if form == Medium then 0x1_0000 else 0x1_0000_0000_0000_0000
  }

  predicate WellFormed(f: Frame) {
    (f.mask.Some? ==> |f.mask.value| == 4) && Fits(f.form, |f.payload|)
  }

  function LengthCode(form: Form, n: nat): (c: nat)
    requires Fits(form, n)
    ensures c < 128
  {
    if form == Short then n else if form == Medium then 126 else 127
  }

  function LengthBytes(form: Form, n: nat): seq<byte> {
    if form == Short then [] else if form == Medium then BigEndian(n, 2) else BigEndian(n, 8)
  }

  function MaskBytes(mask: Option<seq<byte>>): seq<byte> {
    if mask.Some? then mask.value else []
  }

  function Header(first: byte, form: Form, masked: bool, n: nat): seq<byte>
    requires Fits(form, n)
  {
    [first, (if masked then 0x80 else 0) + LengthCode(form, n)] + LengthBytes(form, n)
  }

  function FrameBytes(f: Frame): seq<byte>
    requires WellFormed(f)
  {
    Header(f.first, f.form, f.mask.Some?, |f.payload|) + (MaskBytes(f.mask) + Masked(f.mask, f.payload))
  }

  ghost predicate AllWellFormed(fs: seq<Frame>) {
    forall i | 0 <= i < |fs| :: WellFormed(fs[i])
  }

  function Wire(fs: seq<Frame>): seq<byte>
    requires AllWellFormed(fs)
  {
    if fs == [] then [] else FrameBytes(fs[0]) + Wire(fs[1..])
  }

  lemma {:induction false} WireAppend(fs: seq<Frame>, f: Frame)
    requires AllWellFormed(fs) && WellFormed(f)
    ensures AllWellFormed(fs + [f]) && Wire(fs + [f]) == Wire(fs) + FrameBytes(f)
    decreases |fs|
  {
    if fs == [] {
      assert (fs + [f])[1..] == [];
    } else {
      WireAppend(fs[1..], f);
      assert (fs + [f])[1..] == fs[1..] + [f];
      Grouped(FrameBytes(fs[0]), Wire(fs[1..]), FrameBytes(f));
    }
  }

  /** Two frames that begin the same bytes are the same frame. */
  lemma SameFrame(f: Frame, g: Frame, a: seq<byte>, b: seq<byte>)
    requires WellFormed(f) && WellFormed(g) && FrameBytes(f) + a == FrameBytes(g) + b
    ensures f == g && a == b
  {
    var mf, mg := MaskBytes(f.mask) + Masked(f.mask, f.payload), MaskBytes(g.mask) + Masked(g.mask, g.payload);
    var hf, hg := Header(f.first, f.form, f.mask.Some?, |f.payload|), Header(g.first, g.form, g.mask.Some?, |g.payload|);
    Grouped(hf, mf, a);
    Grouped(hg, mg, b);
    SameHeader(f.first, f.form, f.mask.Some?, |f.payload|, g.first, g.form, g.mask.Some?, |g.payload|, mf + a, mg + b);
    SameThree(MaskBytes(f.mask), Masked(f.mask, f.payload), a, MaskBytes(g.mask), Masked(g.mask, g.payload), b);
    MaskedTwice(f.mask, f.payload);
    MaskedTwice(g.mask, g.payload);
  }

  lemma SameThree(a: seq<byte>, b: seq<byte>, c: seq<byte>, a': seq<byte>, b': seq<byte>, c': seq<byte>)
    requires |a| == |a'| && |b| == |b'| && a + b + c == a' + b' + c'
    ensures a == a' && b == b' && c == c'
  {
    var s, s' := a + b + c, a' + b' + c';
    assert s[..|a|] == a && s'[..|a|] == a';
    assert s[|a|..|a| + |b|] == b && s'[|a|..|a| + |b|] == b';
    assert s[|a| + |b|..] == c && s'[|a| + |b|..] == c';
  }

  lemma SameHeader(first: byte, form: Form, masked: bool, n: nat, first': byte, form': Form, masked': bool, n': nat,
                   a: seq<byte>, b: seq<byte>)
    requires Fits(form, n) && Fits(form', n')
    requires Header(first, form, masked, n) + a == Header(first', form', masked', n') + b
    ensures first == first' && form == form' && masked == masked' && n == n' && a == b
  {
    var s, s' := Header(first, form, masked, n) + a, Header(first', form', masked', n') + b;
    assert s[0] == first && s'[0] == first' && s[1] == (if masked then 0x80 else 0) + LengthCode(form, n)
           && s'[1] == (if masked' then 0x80 else 0) + LengthCode(form', n');
    var k := |LengthBytes(form, n)|;
    assert LengthBytes(form, n) == s[2..2 + k] == s'[2..2 + k] == LengthBytes(form', n');
    if form != Short {
      assert Pow256(2) == 0x1_0000 && Pow256(8) == 0x1_0000_0000_0000_0000;
      FromBigBack(n, k);
      FromBigBack(n', k);
    }
    assert a == s[2 + k..] == s'[2 + k..] == b;
  }

  /** No sequence of frames has the bytes of another. */
  lemma {:induction false} WireInjective(fs: seq<Frame>, gs: seq<Frame>)
    requires AllWellFormed(fs) && AllWellFormed(gs) && Wire(fs) == Wire(gs)
    ensures fs == gs
    decreases |fs|
  {
    if fs != [] && gs != [] {
      SameFrame(fs[0], gs[0], Wire(fs[1..]), Wire(gs[1..]));
      WireInjective(fs[1..], gs[1..]);
      assert fs == [fs[0]] + fs[1..] && gs == [gs[0]] + gs[1..];
    }
  }

  // ---------------------------------------------------------------- meaning

  datatype Event =
    | Message(bytes: seq<byte>, binary: bool)
    | Ponged(bytes: seq<byte>)
    | CloseSeen(bytes: seq<byte>)
    | PongSeen

  /** What the frames so far have caused, and the message that they have begun. */
  datatype Seen = Seen(events: seq<Event>, message: seq<byte>, binary: bool)

  function Data(s: Seen, fin: bool, payload: seq<byte>, binary: bool): Seen {
    if fin then Seen(s.events + [Message(s.message + payload, binary)], [], binary)
    else Seen(s.events, s.message + payload, binary)
  }

  predicate IsData(first: byte) {
    Opcode(first) <= 2
  }

  /** A frame with data continues the message that was begun, or says of which kind it is. */
  function Binary(s: Seen, first: byte): bool {
    if Opcode(first) == 0 then s.binary else Opcode(first) == 2
  }

  /** What a frame without data causes. */
  function Control(first: byte, payload: seq<byte>): seq<Event> {
    if Opcode(first) == 8 then [CloseSeen(payload)]
    else if Opcode(first) == 9 then [Ponged(payload)]
    else if Opcode(first) == 10 then [PongSeen]
    else []
  }

  function After(s: Seen, first: byte, payload: seq<byte>): Seen {
    if IsData(first) then Data(s, Fin(first), payload, Binary(s, first)) else s.(events := s.events + Control(first, payload))
  }

  function Meaning(fs: seq<Frame>): Seen {
    if fs == [] then Seen([], [], false) else After(Meaning(fs[..|fs| - 1]), fs[|fs| - 1].first, fs[|fs| - 1].payload)
  }
}
