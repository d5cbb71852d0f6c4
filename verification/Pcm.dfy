/** 16-bit signed little-endian PCM, the format of both directions of the pipe. */
module Pcm {
  import opened Bytes

  type Sample = v: int | -0x8000 <= v < 0x8000

  /** Low byte of the two's complement encoding. */
  function Lo(v: Sample): Byte { v % 256 }

  /** High byte of the two's complement encoding. */
  function Hi(v: Sample): Byte { (v / 256) % 256 }

  /** Little-endian decoding of two bytes. */
  function FromLe(lo: Byte, hi: Byte): Sample
  {
    if hi < 128 then 256 * hi + lo else 256 * hi + lo - 0x1_0000
  }

  /** The byte stream of a list of samples: byte `2i` is low, byte `2i + 1` is high. */
  function Encode(samples: seq<Sample>): (bytes: seq<Byte>)
    ensures |bytes| == 2 * |samples|
  {
    seq(2 * |samples|, k requires 0 <= k < 2 * |samples| => ByteAt(samples, k))
  }

  function ByteAt(samples: seq<Sample>, k: nat): Byte
    requires k < 2 * |samples|
  {
    if k % 2 == 0 then Lo(samples[k / 2]) else Hi(samples[k / 2])
  }

  /** Whole samples held by a byte string that starts on a sample boundary. */
  function Decode(bytes: seq<Byte>): (samples: seq<Sample>)
    ensures |samples| == |bytes| / 2
  {
    seq(|bytes| / 2, i requires 0 <= i < |bytes| / 2 => FromLe(bytes[2 * i], bytes[2 * i + 1]))
  }

  /** Decoding inverts encoding, sample by sample and byte pair by byte pair. */
  lemma LittleEndianRoundTrip(v: Sample, lo: Byte, hi: Byte)
    ensures FromLe(Lo(v), Hi(v)) == v
    ensures Lo(FromLe(lo, hi)) == lo && Hi(FromLe(lo, hi)) == hi
    ensures Lo(v) + 256 * Hi(v) == if v >= 0 then v as int else v as int + 0x1_0000
  {
    assert v == 256 * (v / 256) + v % 256;
  }

  /** The low byte of a sample comes first, then its high byte. */
  lemma LowByteFirst(samples: seq<Sample>, i: nat)
    requires i < |samples|
    ensures var bytes, v := Encode(samples), samples[i];
            bytes[2 * i] as int + 256 * bytes[2 * i + 1] as int == if v >= 0 then v as int else v as int + 0x1_0000
  {
    LittleEndianRoundTrip(samples[i], 0, 0);
    assert ByteAt(samples, 2 * i) == Lo(samples[i]) && ByteAt(samples, 2 * i + 1) == Hi(samples[i]);
  }

  lemma EncodeConcat(a: seq<Sample>, b: seq<Sample>)
    ensures Encode(a + b) == Encode(a) + Encode(b)
  {
  }

  /** Decoding a stream that may end in half a sample returns the encoded samples. */
  lemma DecodeEncode(samples: seq<Sample>, tail: seq<Byte>)
    requires |tail| <= 1
    ensures Decode(Encode(samples) + tail) == samples
  {
    var bytes := Encode(samples) + tail;
    forall i | 0 <= i < |samples|
      ensures Decode(bytes)[i] == samples[i]
    {
      assert bytes[2 * i] == ByteAt(samples, 2 * i) && bytes[2 * i + 1] == ByteAt(samples, 2 * i + 1);
      LittleEndianRoundTrip(samples[i], 0, 0);
    }
  }
}
