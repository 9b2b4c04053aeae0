/**
 * The audio payload of a `transcribe` command: the float32 samples'
 * bytes (`audio.tobytes()`, little-endian), base64-encoded; the worker
 * reverses both steps (`base64.b64decode`, `np.frombuffer(..., float32)`).
 * A sample is represented by its 32-bit pattern; converting a real to the
 * nearest float32 is not part of this model.
 */
module Payload {
  import opened Wrappers
  import Base64

  type Byte = bv8
  type Float32Bits = bv32

  /** One sample's four bytes, least significant first. */
  function SampleBytes(w: Float32Bits): seq<Byte> {
    [(w & 0xFF) as bv8, ((w >> 8) & 0xFF) as bv8, ((w >> 16) & 0xFF) as bv8, ((w >> 24) & 0xFF) as bv8]
  }

  /** Four bytes, least significant first, as one sample. */
  function JoinBytes(b0: Byte, b1: Byte, b2: Byte, b3: Byte): Float32Bits {
    (b0 as bv32) | ((b1 as bv32) << 8) | ((b2 as bv32) << 16) | ((b3 as bv32) << 24)
  }

  /** `audio.tobytes()`. */
  function ToBytes(samples: seq<Float32Bits>): (bytes: seq<Byte>)
    ensures |bytes| == 4 * |samples|
  {
    if samples == [] then [] else SampleBytes(samples[0]) + ToBytes(samples[1..])
  }

  /** `np.frombuffer(bytes, dtype=np.float32)`; `None` when the length is not a multiple of four. */
  function FromBytes(bytes: seq<Byte>): (r: Option<seq<Float32Bits>>)
    ensures r.Some? ==> 4 * |r.value| == |bytes|
    decreases |bytes|
  {
    if bytes == [] then Some([])
    else if |bytes| < 4 then None
    else match FromBytes(bytes[4..])
      case None => None
      case Some(rest) => Some([JoinBytes(bytes[0], bytes[1], bytes[2], bytes[3])] + rest)
  }

  /** The base64 text the supervisor puts in the command. */
  function EncodeSamples(samples: seq<Float32Bits>): string {
    Base64.Encode(ToBytes(samples))
  }

  /** What the worker recovers from the command's audio text. */
  function DecodeSamples(text: string): Option<seq<Float32Bits>> {
    match Base64.Decode(text)
    case None => None
    case Some(bytes) => FromBytes(bytes)
  }

  /** Splitting a sample into bytes and joining them again gives the sample back. */
  lemma SampleRoundTrip(w: Float32Bits)
    ensures var b := SampleBytes(w); JoinBytes(b[0], b[1], b[2], b[3]) == w
  {
  }

  lemma {:induction false} BytesRoundTrip(samples: seq<Float32Bits>)
    ensures FromBytes(ToBytes(samples)) == Some(samples)
  {
    if samples != [] {
      var b := ToBytes(samples);
      assert b[4..] == ToBytes(samples[1..]);
      BytesRoundTrip(samples[1..]);
      SampleRoundTrip(samples[0]);
      assert b[..4] == SampleBytes(samples[0]);
      assert [samples[0]] + samples[1..] == samples;
    }
  }

  /** The worker decodes exactly the samples the supervisor sent, and so counts the same number of them. */
  lemma PayloadRoundTrip(samples: seq<Float32Bits>)
    ensures DecodeSamples(EncodeSamples(samples)) == Some(samples)
  {
    Base64.DecodeEncode(ToBytes(samples));
    BytesRoundTrip(samples);
  }
}
