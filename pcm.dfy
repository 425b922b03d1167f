/**
 * The wire codec of the live tutor (services/geminiService.ts): captured
 * frames become base64 text of little-endian signed 16-bit PCM tagged
 * `audio/pcm;rate=16000`, and inbound base64 PCM becomes a one-channel
 * 24 kHz buffer of values v / 32768.
 *
 * A captured sample is modelled by its scaled value trunc(x * 32768), an
 * integer; storing it into an `Int16Array` wraps it modulo 2^16 (ToInt16).
 * The decoded values v / 32768 are exact in single precision, so they are
 * modelled as reals.
 */
module Pcm {
  import opened Wrappers
  import opened Base64

  type Int16 = v: int | -32768 <= v < 32768

  /** The MIME descriptor sent with every captured frame. */
  const CaptureMime: string := "audio/pcm;rate=16000"
  /** Sample rate of the synthesized speech the backend sends back. */
  const PlaybackRate: nat := 24000

  /** The `Int16Array` store: the integer wrapped into [-32768, 32767]. */
  function ToInt16(v: int): (r: Int16)
    ensures (r - v) % 65536 == 0
    ensures -32768 <= v < 32768 ==> r == v
  {
    var m := v % 65536;
    if m >= 32768 then m - 65536 else m
  }

  /** The two bytes of a sample in memory, low byte first: typed array
      views use the platform's byte order, taken to be little-endian. */
  function LeBytes(v: Int16): (b: seq<Byte>)
    ensures |b| == 2 && b[0] as int + 256 * (b[1] as int) == v % 65536
  {
    var u := v % 65536;
    [u % 256, u / 256]
  }

  /** The sample an `Int16Array` view reads from a low and a high byte. */
  function FromLe(lo: Byte, hi: Byte): (v: Int16)
    ensures v % 65536 == lo as int + 256 * (hi as int)
  {
    var u := lo + 256 * hi;
    if u >= 32768 then u - 65536 else u
  }

  lemma FromLeOfLeBytes(v: Int16)
    ensures FromLe(LeBytes(v)[0], LeBytes(v)[1]) == v
  {
  }

  lemma LeBytesOfFromLe(lo: Byte, hi: Byte)
    ensures LeBytes(FromLe(lo, hi)) == [lo, hi]
  {
  }

  /** The bytes behind an `Int16Array` (`new Uint8Array(int16.buffer)`). */
  function Pack(s: seq<Int16>): (b: seq<Byte>)
    ensures |b| == 2 * |s|
  {
    if s == [] then [] else LeBytes(s[0]) + Pack(s[1..])
  }

  /** The samples of an `Int16Array` laid over an even number of bytes. */
  function UnpackEven(b: seq<Byte>): (s: seq<Int16>)
    requires |b| % 2 == 0
    ensures |s| == |b| / 2
  {
    if b == [] then [] else [FromLe(b[0], b[1])] + UnpackEven(b[2..])
  }

  /** `new Int16Array(buffer)`: None is the RangeError thrown for an odd
      byte length. */
  function Unpack(b: seq<Byte>): (r: Option<seq<Int16>>)
    ensures r.Some? <==> |b| % 2 == 0
  {
    if |b| % 2 != 0 then None else Some(UnpackEven(b))
  }

  /** Byte pair 2i, 2i+1 is sample i, low byte first. */
  lemma {:induction false} PackAt(s: seq<Int16>, i: nat)
    requires i < |s|
    ensures Pack(s)[2 * i] == LeBytes(s[i])[0] && Pack(s)[2 * i + 1] == LeBytes(s[i])[1]
  {
    if i > 0 {
      PackAt(s[1..], i - 1);
    }
  }

  /** Sample i of the view is read from byte pair 2i, 2i+1. */
  lemma {:induction false} UnpackAt(b: seq<Byte>, i: nat)
    requires |b| % 2 == 0 && i < |b| / 2
    ensures UnpackEven(b)[i] == FromLe(b[2 * i], b[2 * i + 1])
  {
    if i > 0 {
      UnpackAt(b[2..], i - 1);
    }
  }

  lemma {:induction false} UnpackPack(s: seq<Int16>)
    ensures Unpack(Pack(s)) == Some(s)
  {
    if s != [] {
      UnpackPack(s[1..]);
      var b := Pack(s);
      assert b == LeBytes(s[0]) + Pack(s[1..]);
      assert b[0] == LeBytes(s[0])[0] && b[1] == LeBytes(s[0])[1] && b[2..] == Pack(s[1..]);
      FromLeOfLeBytes(s[0]);
      assert UnpackEven(b) == [s[0]] + UnpackEven(Pack(s[1..]));
      assert s == [s[0]] + s[1..];
    }
  }

  lemma {:induction false} PackUnpack(b: seq<Byte>)
    requires |b| % 2 == 0
    ensures Pack(UnpackEven(b)) == b
  {
    if b != [] {
      PackUnpack(b[2..]);
      LeBytesOfFromLe(b[0], b[1]);
      assert b == [b[0], b[1]] + b[2..];
    }
  }

  /** The samples as the capture loop stores them. */
  function Quantize(samples: seq<int>): (q: seq<Int16>)
    ensures |q| == |samples|
    ensures forall i :: 0 <= i < |q| ==> (q[i] - samples[i]) % 65536 == 0
    ensures forall i :: 0 <= i < |q| && -32768 <= samples[i] < 32768 ==> q[i] == samples[i]
  {
    seq(|samples|, i requires 0 <= i < |samples| => ToInt16(samples[i]))
  }

  datatype Blob = Blob(data: string, mimeType: string)

  /** What `createPcmBlob` returns for a frame of scaled samples. */
  function PcmBlob(samples: seq<int>): (blob: Blob)
    ensures blob.mimeType == CaptureMime
    ensures |blob.data| == 4 * ((2 * |samples| + 2) / 3)
    ensures forall i :: 0 <= i < |blob.data| ==> IsSymbol(blob.data[i]) || blob.data[i] == '='
  {
    var binary := BinaryString(Pack(Quantize(samples)));
    assert CharCodes(binary) == Pack(Quantize(samples));
    Blob(Btoa(binary), CaptureMime)
  }

  /** The base64 text of a blob stands for exactly 2n bytes, byte pair
      2i, 2i+1 being ToInt16 of sample i, low byte first. */
  lemma PcmBlobBytes(samples: seq<int>)
    ensures var bytes := ForgivingDecode(PcmBlob(samples).data);
      && bytes.Some? && |bytes.value| == 2 * |samples|
      && forall i :: 0 <= i < |samples| ==>
           bytes.value[2 * i..2 * i + 2] == LeBytes(ToInt16(samples[i]))
  {
    var p := Pack(Quantize(samples));
    assert CharCodes(BinaryString(p)) == p;
    DecodeEncode(p);
    forall i | 0 <= i < |samples|
      ensures p[2 * i..2 * i + 2] == LeBytes(ToInt16(samples[i]))
    {
      PackAt(Quantize(samples), i);
    }
  }

  datatype AudioBuffer = AudioBuffer(numberOfChannels: nat, sampleRate: nat, channel: seq<real>)
  {
    /** Length in frames over the sample rate, in seconds. */
    function Duration(): real
      requires sampleRate > 0
    {
      |channel| as real / sampleRate as real
    }
  }

  /** The three ways `decodeAudioData` throws: `atob`'s
      InvalidCharacterError, the `Int16Array` view's RangeError on an odd
      byte count, and `createBuffer`'s NotSupportedError for a buffer of
      zero frames. */
  datatype DecodeError = InvalidCharacter | OddByteLength | EmptyBuffer

  /** Each sample over 32768. */
  function Normalize(pcm: seq<Int16>): (c: seq<real>)
    ensures |c| == |pcm|
    ensures forall i :: 0 <= i < |c| ==> -1.0 <= c[i] < 1.0 && c[i] * 32768.0 == pcm[i] as real
  {
    seq(|pcm|, i requires 0 <= i < |pcm| => pcm[i] as real / 32768.0)
  }

  /** What `decodeAudioData` yields for a base64 payload. */
  function DecodeAudio(base64: string): (r: Result<AudioBuffer, DecodeError>)
    ensures r.Success? ==>
      r.value.numberOfChannels == 1 && r.value.sampleRate == PlaybackRate && |r.value.channel| > 0
  {
    match Atob(base64)
    case None => Failure(InvalidCharacter)
    case Some(binary) =>
      match Unpack(CharCodes(binary))
      case None => Failure(OddByteLength)
      case Some(pcm) =>
        if |pcm| == 0 then Failure(EmptyBuffer)
        else Success(AudioBuffer(1, PlaybackRate, Normalize(pcm)))
  }

  /** Decoding fails exactly when `atob` throws, when it yields an odd
      number of bytes, or when it yields none (a payload of whitespace or
      padding only); otherwise the buffer is one channel at 24 kHz of
      bytes/2 frames, frame i being the little-endian sample at bytes 2i,
      2i+1 over 32768, which lies in [-1, 1). */
  lemma DecodeAudioOutcome(base64: string)
    ensures Atob(base64).None? ==> DecodeAudio(base64) == Failure(InvalidCharacter)
    ensures Atob(base64).Some? && |Atob(base64).value| % 2 == 1 ==>
      DecodeAudio(base64) == Failure(OddByteLength)
    ensures Atob(base64) == Some("") ==> DecodeAudio(base64) == Failure(EmptyBuffer)
    ensures Atob(base64).Some? && |Atob(base64).value| % 2 == 0 && |Atob(base64).value| > 0 ==>
      var b := CharCodes(Atob(base64).value);
      var r := DecodeAudio(base64);
      && r.Success?
      && r.value.numberOfChannels == 1 && r.value.sampleRate == 24000
      && |r.value.channel| == |b| / 2
      && r.value.Duration() == (|b| / 2) as real / 24000.0
      && (forall i :: 0 <= i < |b| / 2 ==>
            r.value.channel[i] == FromLe(b[2 * i], b[2 * i + 1]) as real / 32768.0
            && -1.0 <= r.value.channel[i] < 1.0)
  {
    if bin :| Atob(base64) == Some(bin) && |bin| % 2 == 0 && |bin| > 0 {
      var b := CharCodes(bin);
      forall i | 0 <= i < |b| / 2
        ensures UnpackEven(b)[i] == FromLe(b[2 * i], b[2 * i + 1])
      {
        UnpackAt(b, i);
      }
    }
  }

  /** Decoding what the encoder produced recovers the stored int16 samples,
      each over 32768: the wire round trip. An empty frame encodes to the
      empty text, on which `createBuffer` throws. */
  lemma PcmRoundTrip(samples: seq<int>)
    ensures |samples| == 0 ==> DecodeAudio(PcmBlob(samples).data) == Failure(EmptyBuffer)
    ensures |samples| > 0 ==>
      DecodeAudio(PcmBlob(samples).data) == Success(AudioBuffer(1, PlaybackRate, Normalize(Quantize(samples))))
    ensures forall i :: 0 <= i < |samples| ==>
      Normalize(Quantize(samples))[i] == ToInt16(samples[i]) as real / 32768.0
  {
    var p := Pack(Quantize(samples));
    var binary := BinaryString(p);
    assert CharCodes(binary) == p;
    AtobBtoa(binary);
    UnpackPack(Quantize(samples));
  }

  // ---------------------------------------------------------------------
  // Quantization of the floating-point samples

  /** `x * 32768` truncated toward zero, the value the `Int16Array` store
      starts from. */
  function ScaledSample(x: real): (t: int)
    ensures x >= 0.0 ==> 0.0 <= t as real <= x * 32768.0 < t as real + 1.0
    ensures x < 0.0 ==> t as real - 1.0 < x * 32768.0 <= t as real <= 0.0
  {
    var y := x * 32768.0;
    if y >= 0.0 then y.Floor else -((-y).Floor)
  }

  /** For x in [-1, 1) the decoded value lies within one quantization step
      (1/32768) of x. */
  lemma QuantizationError(x: real)
    requires -1.0 <= x < 1.0
    ensures var q := ToInt16(ScaledSample(x)) as real / 32768.0;
      -1.0 / 32768.0 < x - q < 1.0 / 32768.0
  {
    var y := x * 32768.0;
    var t := ScaledSample(x);
    assert t as real - 1.0 < y < t as real + 1.0;
    assert -32768 <= t < 32768;
  }

  /** Full scale 1.0 scales to 32768, which the store wraps to -32768: the
      sample comes back as -1.0. */
  lemma FullScaleWraps()
    ensures ToInt16(ScaledSample(1.0)) == -32768
  {
  }

  // ---------------------------------------------------------------------
  // The two helpers as the source runs them

  /** `createPcmBlob`: store each scaled sample into an int16 array, append
      the bytes of its buffer one character at a time, and base64 the
      resulting binary string. */
  method CreatePcmBlob(data: array<int>) returns (blob: Blob)
    ensures blob == PcmBlob(data[..])
  {
    var l := data.Length;
    var int16 := new Int16[l];
    for i := 0 to l
      invariant forall k :: 0 <= k < i ==> int16[k] == ToInt16(data[k])
    {
      int16[i] := ToInt16(data[i]);
    }
    assert int16[..] == Quantize(data[..]);

    var binary: string := "";
    var bytes := Pack(int16[..]);
    var len := |bytes|;
    for i := 0 to len
      invariant binary == BinaryString(bytes[..i])
    {
      binary := binary + [bytes[i] as char];
    }
    assert bytes[..len] == bytes;
    var base64 := Btoa(binary);
    blob := Blob(base64, CaptureMime);
  }

  /** `decodeAudioData`: `atob`, copy the character codes into a byte
      array, view it as int16 samples and divide each by 32768 into a
      one-channel 24 kHz buffer. */
  method DecodeAudioData(base64: string) returns (r: Result<AudioBuffer, DecodeError>)
    ensures r == DecodeAudio(base64)
  {
    var decoded := Atob(base64);
    if decoded.None? {
      return Failure(InvalidCharacter);
    }
    var binaryString := decoded.value;
    var len := |binaryString|;
    var bytes := new Byte[len];
    for i := 0 to len
      invariant forall k :: 0 <= k < i ==> bytes[k] == binaryString[k] as int
    {
      bytes[i] := binaryString[i] as int;
    }
    assert bytes[..] == CharCodes(binaryString);

    var view := Unpack(bytes[..]);
    if view.None? {
      return Failure(OddByteLength);
    }
    var dataInt16 := view.value;
    var frameCount := |dataInt16|;
    if frameCount == 0 {
      return Failure(EmptyBuffer);
    }
    var channelData := new real[frameCount];
    for i := 0 to frameCount
      invariant forall k :: 0 <= k < i ==> channelData[k] == dataInt16[k] as real / 32768.0
    {
      channelData[i] := dataInt16[i] as real / 32768.0;
    }
    assert channelData[..] == Normalize(dataInt16);
    r := Success(AudioBuffer(1, PlaybackRate, channelData[..]));
  }
}
