/**
 * Decoding of one notification payload sent by the sensor: a 2-byte
 * little-endian frame counter, one reserved byte, then the PCM payload.
 */
module Frame {
  import opened Wrappers

  type byte = bv8

  /** Bytes in front of the payload: counter low, counter high, reserved. */
  const HeaderLength: nat := 3
  /** Samples the sensor puts in one frame (the receiver's `samples_per_frame`). */
  const SamplesPerFrame: nat := 160
  /** Bytes per 16-bit sample. */
  const SampleWidth: nat := 2
  /** Payload length the receiver expects of every frame. */
  const ExpectedPayloadLength: nat := SamplesPerFrame * SampleWidth

  /** A decoded frame: its 16-bit counter and the bytes after the header. */
  datatype Frame = Frame(sequence: bv16, payload: seq<byte>)

  /** The counter as the receiver assembles it: `lo | (hi << 8)`; its low byte is `lo`, its high byte `hi`. */
  function SequenceOf(lo: byte, hi: byte): (n: bv16)
    ensures (n & 0xFF) as byte == lo
    ensures (n >> 8) as byte == hi
  {
    (lo as bv16) | ((hi as bv16) << 8)
  }

  /** The counter is little-endian: low byte first. */
  lemma SequenceOfLittleEndian(lo: byte, hi: byte)
    ensures SequenceOf(lo, hi) as int == lo as int + 256 * hi as int
  {
    OrIsSum(lo, hi);
    SumAsInt(lo, hi);
  }

  lemma OrIsSum(lo: byte, hi: byte)
    ensures (lo as bv16) | ((hi as bv16) << 8) == (lo as bv16) + 256 * (hi as bv16)
  {
  }

  lemma SumAsInt(lo: byte, hi: byte)
    ensures ((lo as bv16) + 256 * (hi as bv16)) as int == lo as int + 256 * hi as int
  {
  }

  /**
   * The counter the receiver expects after `last`: `(last + 1) & 0xFFFF`,
   * which is addition in 16 bits.
   */
  function Successor(last: bv16): (next: bv16)
    ensures next - 1 == last
    ensures next != last
  {
    last + 1
  }

  /** A notification shorter than the header is refused; nothing else is checked. */
  function Decode(data: seq<byte>): (r: Option<Frame>)
    ensures r.None? <==> |data| < HeaderLength
    ensures r.Some? ==> r.value == Frame(SequenceOf(data[0], data[1]), data[HeaderLength..])
  {
    if |data| < HeaderLength then None
    else Some(Frame(SequenceOf(data[0], data[1]), data[HeaderLength..]))
  }

  /** The notification the sensor sends for a frame, with the given reserved byte. */
  function Encode(f: Frame, reserved: byte): (data: seq<byte>)
    ensures |data| == HeaderLength + |f.payload|
    ensures data[HeaderLength..] == f.payload
  {
    [(f.sequence & 0xFF) as byte, (f.sequence >> 8) as byte, reserved] + f.payload
  }

  lemma SplitCounter(n: bv16)
    ensures SequenceOf((n & 0xFF) as byte, (n >> 8) as byte) == n
  {
  }

  /** Decoding what the sensor encodes gives the frame back, whatever the reserved byte. */
  lemma DecodeEncode(f: Frame, reserved: byte)
    ensures Decode(Encode(f, reserved)) == Some(f)
  {
    var data := Encode(f, reserved);
    assert SequenceOf(data[0], data[1]) == f.sequence by {
      SplitCounter(f.sequence);
    }
  }

  /** Every notification of header length is the encoding of what it decodes to. */
  lemma EncodeDecode(data: seq<byte>)
    requires |data| >= HeaderLength
    ensures Decode(data).Some? && Encode(Decode(data).value, data[2]) == data
  {
    var f := Decode(data).value;
    assert Encode(f, data[2]) == data[..HeaderLength] + data[HeaderLength..];
  }

  /** The wrap from 65535 to 0 is the expected next counter, not a gap. */
  lemma SuccessorWraps()
    ensures Successor(0xFFFF) == 0
  {
  }

  /** Exactly one counter precedes each counter, and only 65535 wraps. */
  lemma SuccessorInjective(a: bv16, b: bv16)
    ensures Successor(a) == Successor(b) <==> a == b
    ensures exists p: bv16 :: Successor(p) == a
    ensures Successor(a) == 0 <==> a == 0xFFFF
  {
    assert Successor(a - 1) == a;
  }
}
