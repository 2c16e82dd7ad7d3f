/** The examples that the standards give. */
module CodecExamples {
  import opened Options
  import opened Basics
  import opened WebSocketFrames
  import Base64

  /** Section 10 of RFC 4648. The bytes spell `foobar`. */
  const FOOBAR: seq<byte> := [0x66, 0x6f, 0x6f, 0x62, 0x61, 0x72]

  lemma GroupsOfFoobar()
    ensures Base64.Encoded(false, FOOBAR[..3]) == "Zm9v" && Base64.Encoded(false, FOOBAR[3..]) == "YmFy"
  {
    assert FOOBAR[..3] == [0x66, 0x6f, 0x6f] && FOOBAR[3..] == [0x62, 0x61, 0x72];
  }

  lemma TestVectors()
    ensures Base64.Encoded(false, []) == ""
    ensures Base64.Encoded(false, FOOBAR[..1]) == "Zg==" && Base64.Encoded(false, FOOBAR[..2]) == "Zm8="
    ensures Base64.Encoded(false, FOOBAR[..3]) == "Zm9v" && Base64.Encoded(false, FOOBAR) == "Zm9vYmFy"
  {
    GroupsOfFoobar();
    assert FOOBAR[..1] == [0x66] && FOOBAR[..2] == [0x66, 0x6f];
    assert FOOBAR[..3][..3] == FOOBAR[..3] && FOOBAR[..3][3..] == [];
  }

  // ---------------------------------------------------------------- frames

  /** Section 5.7 of RFC 6455. The bytes spell `Hello`. */
  const HELLO: seq<byte> := [0x48, 0x65, 0x6c, 0x6c, 0x6f]
  const MASK: seq<byte> := [0x37, 0xfa, 0x21, 0x3d]

  /** A text and a ping, whole; the text also with a mask. */
  lemma SmallFrames()
    ensures FrameBytes(Frame(0x81, Short, None, HELLO)) == [0x81, 0x05] + HELLO
    ensures FrameBytes(Frame(0x81, Short, Some(MASK), HELLO)) == [0x81, 0x85, 0x37, 0xfa, 0x21, 0x3d] + Masked(Some(MASK), HELLO)
    ensures FrameBytes(Frame(0x89, Short, None, HELLO)) == [0x89, 0x05] + HELLO
  {
    assert Header(0x81, Short, true, 5) == [0x81, 0x85];
  }

  /** Longer data, with the length in two and in eight bytes. */
  lemma LargeFrames(payload: seq<byte>)
    ensures |payload| == 256 ==> FrameBytes(Frame(0x82, Medium, None, payload)) == [0x82, 0x7e, 0x01, 0x00] + payload
    ensures |payload| == 65536 ==> FrameBytes(Frame(0x82, Long, None, payload)) == [0x82, 0x7f, 0, 0, 0, 0, 0, 1, 0, 0] + payload
  {
  }
}
