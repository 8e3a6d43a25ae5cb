/** The PCM decoding in `speakText` (services/geminiService.ts): the binary
    string that `atob` returns becomes bytes, the bytes are read as signed
    16-bit little-endian samples, and the samples are scaled into the single
    channel of a 24 kHz audio buffer. */
module Tts {
  import opened Types

  newtype byte = x: int | 0 <= x < 256

  /** `createBuffer(1, dataInt16.length, 24000)`. */
  const Channels: nat := 1
  const SampleRate: nat := 24000

  /** The divisor `32768.0` that maps a 16-bit sample into [-1, 1). */
  const Scale: real := 32768.0

  /** Storing a number into a `Uint8Array` keeps it modulo 2^8. */
  function ToUint8(code: int): (b: byte)
    ensures b as int == code % 256
    ensures 0 <= code < 256 ==> b as int == code
  {
    (code % 256) as byte
  }

  /** A string whose every character code fits in a byte, which is what
      `atob` produces. */
  predicate IsBinaryString(s: string)
  {
    forall i :: 0 <= i < |s| ==> s[i] as int < 256
  }

  /** The content of `bytes` after the first loop. */
  function Bytes(binary: string): (r: seq<byte>)
    ensures |r| == |binary|
  {
    seq(|binary|, i requires 0 <= i < |binary| => ToUint8(binary[i] as int))
  }

  /** The first loop: one byte per character. */
  method BinaryToBytes(binary: string) returns (bytes: array<byte>)
    ensures bytes.Length == |binary| && bytes[..] == Bytes(binary)
    ensures IsBinaryString(binary) ==> forall i :: 0 <= i < |binary| ==> bytes[i] as int == binary[i] as int
  {
    bytes := new byte[|binary|];
    for i := 0 to |binary|
      invariant forall k :: 0 <= k < i ==> bytes[k] == ToUint8(binary[k] as int)
    {
      bytes[i] := ToUint8(binary[i] as int);
    }
  }

  predicate IsInt16(v: int)
  {
    -32768 <= v < 32768
  }

  /** One `Int16Array` element over the bytes `lo`, `hi` (little-endian):
      the two's-complement reading of `lo + 256 * hi`. */
  function Int16At(lo: byte, hi: byte): (v: int)
    ensures IsInt16(v)
  {
    var u := lo as int + 256 * hi as int;
    if u >= 32768 then u - 65536 else u
  }

  /** `new Int16Array(bytes.buffer)`: sample i is made of bytes 2i and 2i+1.
      The view exists only over an even number of bytes. */
  function Int16View(bytes: seq<byte>): (r: seq<int>)
    requires |bytes| % 2 == 0
    ensures |r| == |bytes| / 2
    ensures forall i :: 0 <= i < |r| ==> IsInt16(r[i])
  {
    seq(|bytes| / 2, i requires 0 <= i < |bytes| / 2 => Int16At(bytes[2 * i], bytes[2 * i + 1]))
  }

  /** The two little-endian bytes of a 16-bit sample. */
  function EncodeInt16(v: int): seq<byte>
    requires IsInt16(v)
  {
    var u := if v < 0 then v + 65536 else v;
    [(u % 256) as byte, (u / 256) as byte]
  }

  /** The bytes of a series of samples, in order. */
  function EncodeSamples(samples: seq<int>): (r: seq<byte>)
    requires forall i :: 0 <= i < |samples| ==> IsInt16(samples[i])
    ensures |r| == 2 * |samples|
    decreases |samples|
  {
    if samples == [] then [] else EncodeInt16(samples[0]) + EncodeSamples(samples[1..])
  }

  /** Reading back the bytes of a sample gives the sample. */
  lemma Int16RoundTrip(v: int)
    requires IsInt16(v)
    ensures Int16At(EncodeInt16(v)[0], EncodeInt16(v)[1]) == v
  {
  }

  /** Every pair of bytes is the encoding of the sample it is read as. */
  lemma BytePairRoundTrip(lo: byte, hi: byte)
    ensures EncodeInt16(Int16At(lo, hi)) == [lo, hi]
  {
  }

  /** The view decodes any encoded series of samples. */
  lemma {:induction false} ViewOfEncoded(samples: seq<int>)
    requires forall i :: 0 <= i < |samples| ==> IsInt16(samples[i])
    ensures Int16View(EncodeSamples(samples)) == samples
    decreases |samples|
  {
    if samples != [] {
      var e := EncodeSamples(samples);
      var rest := samples[1..];
      ViewOfEncoded(rest);
      Int16RoundTrip(samples[0]);
      forall i | 0 <= i < |samples|
        ensures Int16View(e)[i] == samples[i]
      {
        if i > 0 {
          assert e[2 * i] == EncodeSamples(rest)[2 * (i - 1)];
          assert e[2 * i + 1] == EncodeSamples(rest)[2 * (i - 1) + 1];
          assert Int16View(EncodeSamples(rest))[i - 1] == rest[i - 1];
        }
      }
    }
  }

  /** The view loses nothing: re-encoding the samples gives the bytes back. */
  lemma {:induction false} EncodedOfView(bytes: seq<byte>)
    requires |bytes| % 2 == 0
    ensures EncodeSamples(Int16View(bytes)) == bytes
    decreases |bytes|
  {
    if bytes != [] {
      var v := Int16View(bytes);
      var rest := bytes[2..];
      EncodedOfView(rest);
      BytePairRoundTrip(bytes[0], bytes[1]);
      assert v[1..] == Int16View(rest);
      assert bytes == [bytes[0], bytes[1]] + rest;
    }
  }

  /** The content of the channel after the second loop. */
  function Normalise(samples: seq<int>): (r: seq<real>)
    ensures |r| == |samples|
  {
    seq(|samples|, i requires 0 <= i < |samples| => samples[i] as real / Scale)
  }

  /** Scaled 16-bit samples lie in [-1, 1), and scaling back recovers the
      sample exactly. */
  lemma NormalisedInRange(samples: seq<int>, i: nat)
    requires forall k :: 0 <= k < |samples| ==> IsInt16(samples[k])
    requires i < |samples|
    ensures -1.0 <= Normalise(samples)[i] < 1.0
    ensures Normalise(samples)[i] * Scale == samples[i] as real
  {
  }

  /** The second loop, over the buffer's channel 0. */
  method FillChannel(samples: seq<int>, channel: array<real>)
    requires channel.Length == |samples|
    modifies channel
    ensures channel[..] == Normalise(samples)
  {
    for i := 0 to |samples|
      invariant forall k :: 0 <= k < i ==> channel[k] == samples[k] as real / Scale
    {
      channel[i] := samples[i] as real / Scale;
    }
  }

  /** The audio buffer handed to the source node. */
  datatype AudioBufferData = AudioBufferData(
    numberOfChannels: nat,
    length: nat,
    sampleRate: nat,
    channel0: seq<real>)

  /** How `speakText` ends: nothing to play, the `RangeError` that
      `new Int16Array` throws over an odd number of bytes, the
      `NotSupportedError` that `createBuffer` throws for a buffer of zero
      frames, or a buffer to play. */
  datatype SpeakOutcome = NoAudio | RangeError | NotSupportedError | Played(buffer: AudioBufferData)

  /** `audio` is `None` when the response carries no (or an empty) base64
      payload; otherwise it holds what `atob` made of the payload, which is
      empty for a payload of whitespace only. */
  method SpeakText(audio: Option<string>) returns (outcome: SpeakOutcome)
    ensures audio.None? <==> outcome == NoAudio
    ensures audio.Some? && |audio.value| % 2 == 1 <==> outcome == RangeError
    ensures audio == Some("") <==> outcome == NotSupportedError
    ensures audio.Some? && |audio.value| % 2 == 0 && audio.value != "" ==>
              outcome == Played(AudioBufferData(Channels, |audio.value| / 2, SampleRate,
                                                Normalise(Int16View(Bytes(audio.value)))))
    ensures outcome.Played? ==>
              0 < outcome.buffer.length == |outcome.buffer.channel0| &&
              forall i :: 0 <= i < outcome.buffer.length ==> -1.0 <= outcome.buffer.channel0[i] < 1.0
  {
    if audio.None? {
      return NoAudio;
    }
    var bytes := BinaryToBytes(audio.value);
    if bytes.Length % 2 != 0 {
      return RangeError;
    }
    var dataInt16 := Int16View(bytes[..]);
    if |dataInt16| == 0 {
      return NotSupportedError;
    }
    var channel := new real[|dataInt16|];
    FillChannel(dataInt16, channel);
    outcome := Played(AudioBufferData(Channels, |dataInt16|, SampleRate, channel[..]));
    forall i | 0 <= i < |dataInt16|
      ensures -1.0 <= channel[..][i] < 1.0
    {
      NormalisedInRange(dataInt16, i);
    }
  }
}
