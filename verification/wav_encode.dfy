/** The WAV serialiser (src/wavEncode.ts).

    `encode` writes a mono 16-bit PCM file in the RIFF WAVE form of the
    Multimedia Programming Interface and Data Specifications 1.0: a 44-byte
    header of a RIFF chunk holding a `fmt ` chunk with WAVE_FORMAT_PCM and a
    `data` chunk, followed by the samples as little-endian two's-complement
    16-bit integers.  The DataView over the output ArrayBuffer is an array
    of bytes; its setUint16/setUint32/setInt16 calls reduce their argument
    modulo 2^16 or 2^32 as JavaScript's ToUint16/ToUint32 do. */
module WavEncode {

  newtype uint8 = x: int | 0 <= x < 256

  const HeaderSize: nat := 44

  /** The low byte of v, as DataView.setUint8 stores it. */
  function Byte(v: int): uint8 {
    (v % 256) as uint8
  }

  /** The two bytes setUint16(offset, v, true) and setInt16 store:
      v mod 2^16, least significant byte first. */
  function Uint16Bytes(v: int): (b: seq<uint8>)
    ensures |b| == 2
  {
    var w := v % 0x1_0000;
    [Byte(w), Byte(w / 0x100)]
  }

  /** The four bytes setUint32(offset, v, true) stores: v mod 2^32,
      least significant byte first. */
  function Uint32Bytes(v: int): (b: seq<uint8>)
    ensures |b| == 4
  {
    var w := v % 0x1_0000_0000;
    [Byte(w), Byte(w / 0x100), Byte(w / 0x1_0000), Byte(w / 0x100_0000)]
  }

  /** The bytes writeString stores: each character code reduced to a byte. */
  function Ascii(s: string): (b: seq<uint8>)
    ensures |b| == |s|
  {
    seq(|s|, i requires 0 <= i < |s| => Byte(s[i] as int))
  }

  /** Reading two bytes back as a little-endian unsigned integer. */
  function Uint16Value(b: seq<uint8>): nat
    requires |b| == 2
  {
    b[0] as nat + 0x100 * b[1] as nat
  }

  /** Reading two bytes back as a little-endian two's-complement integer. */
  function Int16Value(b: seq<uint8>): int
    requires |b| == 2
  {
    var u := Uint16Value(b);
    if u >= 0x8000 then u - 0x1_0000 else u
  }

  /** Reading four bytes back as a little-endian unsigned integer. */
  function Uint32Value(b: seq<uint8>): nat
    requires |b| == 4
  {
    b[0] as nat + 0x100 * b[1] as nat + 0x1_0000 * b[2] as nat + 0x100_0000 * b[3] as nat
  }

  /** A 16-bit field reads back as v mod 2^16. */
  lemma Uint16RoundTrip(v: int)
    ensures Uint16Value(Uint16Bytes(v)) == v % 0x1_0000
  {
  }

  /** A value in the int16 range reads back unchanged as two's complement. */
  lemma Int16RoundTrip(v: int)
    requires -0x8000 <= v < 0x8000
    ensures Int16Value(Uint16Bytes(v)) == v
  {
    Uint16RoundTrip(v);
  }

  /** A 32-bit field reads back as v mod 2^32. */
  lemma Uint32RoundTrip(v: int)
    ensures Uint32Value(Uint32Bytes(v)) == v % 0x1_0000_0000
  {
    var w := v % 0x1_0000_0000;
    var q := w / 0x100;
    var r := q / 0x100;
    assert w == w % 0x100 + 0x100 * q;
    assert q == q % 0x100 + 0x100 * r;
    assert r == r % 0x100 + 0x100 * (r / 0x100);
    assert w / 0x1_0000 == r;
    assert w / 0x100_0000 == r / 0x100;
  }

  /** JavaScript's conversion of a number to an integer: towards zero. */
  function Truncate(x: real): int {
    if x >= 0.0 then x.Floor else -((-x).Floor)
  }

  /** Math.max(-1, Math.min(1, x)). */
  function Clamp(x: real): real {
    var upper := if 1.0 <= x then 1.0 else x;
    if -1.0 >= upper then -1.0 else upper
  }

  /** The integer a sample is stored as (wavEncode.ts:76-77). */
  function Pcm(x: real): int {
    Truncate(Clamp(x) * 32767.0)
  }

  /** Stored samples lie in [−32767, 32767]; the full-scale values and 0 map
      to the ends and the middle, and the conversion keeps the order. */
  lemma PcmRange(x: real, y: real)
    ensures -32767 <= Pcm(x) <= 32767
    ensures Pcm(1.0) == 32767 && Pcm(-1.0) == -32767 && Pcm(0.0) == 0
    ensures x <= y ==> Pcm(x) <= Pcm(y)
  {
  }

  /** The four chunk tags as byte values. */
  lemma Tags()
    ensures Ascii("RIFF") == [82, 73, 70, 70] && Ascii("WAVE") == [87, 65, 86, 69]
    ensures Ascii("fmt ") == [102, 109, 116, 32] && Ascii("data") == [100, 97, 116, 97]
  {
  }

  /** The RIFF chunk header (wavEncode.ts:31-35): the tag, the length of
      what follows it in the file, and the form type. */
  function RiffHeader(n: nat): (h: seq<uint8>)
    ensures |h| == 12
  {
    Ascii("RIFF") + Uint32Bytes(36 + 2 * n) + Ascii("WAVE")
  }

  /** The format chunk (wavEncode.ts:37-51) for format 1 (PCM), one
      channel and 16 bits per sample. */
  function FmtChunk(sampleRate: int): (h: seq<uint8>)
    ensures |h| == 24
  {
    Ascii("fmt ")                    // format chunk identifier
    + Uint32Bytes(16)                // format chunk length
    + Uint16Bytes(1)                 // sample format: PCM
    + Uint16Bytes(1)                 // channel count
    + Uint32Bytes(sampleRate)        // sample rate
    + Uint32Bytes(sampleRate * 2)    // byte rate: rate times block align
    + Uint16Bytes(2)                 // block align: channels times 2 bytes
    + Uint16Bytes(16)                // bits per sample
  }

  /** The data chunk header (wavEncode.ts:53-55). */
  function DataHeader(n: nat): (h: seq<uint8>)
    ensures |h| == 8
  {
    Ascii("data") + Uint32Bytes(2 * n)
  }

  /** The 44-byte header for n samples at the given rate. */
  function Header(n: nat, sampleRate: int): (h: seq<uint8>)
    ensures |h| == HeaderSize
  {
    RiffHeader(n) + FmtChunk(sampleRate) + DataHeader(n)
  }

  /** The RIFF header holds its tags and a length reading back as 36 + 2n
      modulo 2^32. */
  lemma RiffLayout(n: nat)
    ensures var h := RiffHeader(n);
      && h[0..4] == [82, 73, 70, 70]
      && Uint32Value(h[4..8]) == (36 + 2 * n) % 0x1_0000_0000
      && h[8..12] == [87, 65, 86, 69]
  {
    var h := RiffHeader(n);
    assert h[4..8] == Uint32Bytes(36 + 2 * n);
    Uint32RoundTrip(36 + 2 * n);
  }

  /** Where each field of the format chunk lies. */
  lemma FmtFields(sampleRate: int)
    ensures var h := FmtChunk(sampleRate);
      && h[0..4] == Ascii("fmt ")
      && h[4..8] == Uint32Bytes(16)
      && h[8..10] == Uint16Bytes(1)
      && h[10..12] == Uint16Bytes(1)
      && h[12..16] == Uint32Bytes(sampleRate)
      && h[16..20] == Uint32Bytes(sampleRate * 2)
      && h[20..22] == Uint16Bytes(2)
      && h[22..24] == Uint16Bytes(16)
  {
  }

  /** Every field of the format chunk reads back as the value written. */
  lemma FmtLayout(sampleRate: int)
    ensures var h := FmtChunk(sampleRate);
      && h[0..4] == [102, 109, 116, 32]
      && Uint32Value(h[4..8]) == 16
      && Uint16Value(h[8..10]) == 1
      && Uint16Value(h[10..12]) == 1
      && Uint32Value(h[12..16]) == sampleRate % 0x1_0000_0000
      && Uint32Value(h[16..20]) == (2 * sampleRate) % 0x1_0000_0000
      && Uint16Value(h[20..22]) == 2
      && Uint16Value(h[22..24]) == 16
  {
    FmtFields(sampleRate);
    Tags();
    Uint32RoundTrip(sampleRate);
    Uint32RoundTrip(sampleRate * 2);
  }

  /** The data header holds its tag and the data size 2n modulo 2^32. */
  lemma DataLayout(n: nat)
    ensures var h := DataHeader(n);
      && h[0..4] == [100, 97, 116, 97]
      && Uint32Value(h[4..8]) == (2 * n) % 0x1_0000_0000
  {
    var h := DataHeader(n);
    assert h[4..8] == Uint32Bytes(2 * n);
    Uint32RoundTrip(2 * n);
  }

  /** Byte k of the sample data: byte k mod 2 of sample k / 2. */
  function PcmBytes(samples: seq<real>): (b: seq<uint8>)
    ensures |b| == 2 * |samples|
  {
    seq(2 * |samples|, k requires 0 <= k < 2 * |samples| => Uint16Bytes(Pcm(samples[k / 2]))[k % 2])
  }

  /** The file encode(samples, sampleRate) produces. */
  function Wav(samples: seq<real>, sampleRate: int): seq<uint8> {
    Header(|samples|, sampleRate) + PcmBytes(samples)
  }

  /** The file is 44 + 2n bytes; the tags sit at offsets 0, 8, 12 and 36;
      every header field reads back as the value written; the RIFF size is
      the file length less 8. */
  lemma WavLayout(samples: seq<real>, sampleRate: int)
    ensures var w := Wav(samples, sampleRate); var n := |samples|;
      && |w| == HeaderSize + 2 * n
      && w[0..4] == [82, 73, 70, 70]
      && w[8..12] == [87, 65, 86, 69]
      && w[12..16] == [102, 109, 116, 32]
      && w[36..40] == [100, 97, 116, 97]
      && Uint32Value(w[4..8]) == (|w| - 8) % 0x1_0000_0000
      && Uint32Value(w[16..20]) == 16
      && Uint16Value(w[20..22]) == 1
      && Uint16Value(w[22..24]) == 1
      && Uint32Value(w[24..28]) == sampleRate % 0x1_0000_0000
      && Uint32Value(w[28..32]) == (2 * sampleRate) % 0x1_0000_0000
      && Uint16Value(w[32..34]) == 2
      && Uint16Value(w[34..36]) == 16
      && Uint32Value(w[40..44]) == (2 * n) % 0x1_0000_0000
  {
    var n := |samples|;
    var w := Wav(samples, sampleRate);
    var riff, fmt, data := RiffHeader(n), FmtChunk(sampleRate), DataHeader(n);
    RiffLayout(n);
    FmtLayout(sampleRate);
    DataLayout(n);
    assert w[..12] == riff && w[12..36] == fmt && w[36..44] == data;
    assert w[0..4] == riff[0..4] && w[4..8] == riff[4..8] && w[8..12] == riff[8..12];
    assert w[12..16] == fmt[0..4] && w[16..20] == fmt[4..8] && w[20..22] == fmt[8..10];
    assert w[22..24] == fmt[10..12] && w[24..28] == fmt[12..16] && w[28..32] == fmt[16..20];
    assert w[32..34] == fmt[20..22] && w[34..36] == fmt[22..24];
    assert w[36..40] == data[0..4] && w[40..44] == data[4..8];
  }

  /** Sample k sits at offsets 44 + 2k and 45 + 2k and reads back as its
      stored integer. */
  lemma WavSample(samples: seq<real>, sampleRate: int, k: nat)
    requires k < |samples|
    ensures var w := Wav(samples, sampleRate);
      && HeaderSize + 2 * k + 2 <= |w|
      && Int16Value(w[HeaderSize + 2 * k..HeaderSize + 2 * k + 2]) == Pcm(samples[k])
  {
    var w := Wav(samples, sampleRate);
    var b := PcmBytes(samples);
    assert w[HeaderSize + 2 * k..HeaderSize + 2 * k + 2] == b[2 * k..2 * k + 2];
    assert b[2 * k..2 * k + 2] == Uint16Bytes(Pcm(samples[k]));
    PcmRange(samples[k], samples[k]);
    Int16RoundTrip(Pcm(samples[k]));
  }

  /** `view[..]` is `before` with `bytes` written at `offset`. */
  ghost predicate Spliced(after: seq<uint8>, before: seq<uint8>, offset: nat, bytes: seq<uint8>) {
    && offset + |bytes| <= |before|
    && after == before[..offset] + bytes + before[offset + |bytes|..]
  }

  /** Two writes side by side are one write of both. */
  lemma SplicedThen(a: seq<uint8>, b: seq<uint8>, c: seq<uint8>, offset: nat, x: seq<uint8>, y: seq<uint8>)
    requires Spliced(b, a, offset, x) && Spliced(c, b, offset + |x|, y)
    ensures Spliced(c, a, offset, x + y)
  {
    assert b[..offset + |x|] == a[..offset] + x;
    assert b[offset + |x| + |y|..] == a[offset + |x| + |y|..];
  }

  method SetUint16(view: array<uint8>, offset: nat, value: int)
    requires offset + 2 <= view.Length
    modifies view
    ensures Spliced(view[..], old(view[..]), offset, Uint16Bytes(value))
  {
    var w := value % 0x1_0000;
    view[offset] := Byte(w);
    view[offset + 1] := Byte(w / 0x100);
  }

  /** setInt16 stores the truncated value modulo 2^16, the same bits as
      setUint16. */
  method SetInt16(view: array<uint8>, offset: nat, value: real)
    requires offset + 2 <= view.Length
    modifies view
    ensures Spliced(view[..], old(view[..]), offset, Uint16Bytes(Truncate(value)))
  {
    SetUint16(view, offset, Truncate(value));
  }

  method SetUint32(view: array<uint8>, offset: nat, value: int)
    requires offset + 4 <= view.Length
    modifies view
    ensures Spliced(view[..], old(view[..]), offset, Uint32Bytes(value))
  {
    var w := value % 0x1_0000_0000;
    view[offset] := Byte(w);
    view[offset + 1] := Byte(w / 0x100);
    view[offset + 2] := Byte(w / 0x1_0000);
    view[offset + 3] := Byte(w / 0x100_0000);
  }

  /** writeString (wavEncode.ts:81-85). */
  method WriteString(view: array<uint8>, offset: nat, s: string)
    requires offset + |s| <= view.Length
    modifies view
    ensures Spliced(view[..], old(view[..]), offset, Ascii(s))
  {
    ghost var before := view[..];
    for i := 0 to |s|
      invariant forall t :: 0 <= t < view.Length ==>
        view[t] == if offset <= t < offset + i then Ascii(s)[t - offset] else before[t]
    {
      view[offset + i] := Byte(s[i] as int);
    }
    assert view[..] == before[..offset] + Ascii(s) + before[offset + |s|..];
  }

  /** floatTo16BitPCM (wavEncode.ts:72-79): clamps each sample to [−1, 1],
      scales it by 0x7fff and stores it with setInt16, two bytes apart. */
  method FloatTo16BitPCM(view: array<uint8>, offset: nat, input: seq<real>)
    requires offset + 2 * |input| <= view.Length
    modifies view
    ensures Spliced(view[..], old(view[..]), offset, PcmBytes(input))
  {
    ghost var before := view[..];
    var position := offset;
    for i := 0 to |input|
      invariant position == offset + 2 * i
      invariant forall t :: 0 <= t < view.Length ==>
        view[t] == if offset <= t < position then PcmBytes(input)[t - offset] else before[t]
    {
      var s := Clamp(input[i]);
      SetInt16(view, position, s * 32767.0);
      assert PcmBytes(input)[2 * i] == Uint16Bytes(Pcm(input[i]))[0];
      assert PcmBytes(input)[2 * i + 1] == Uint16Bytes(Pcm(input[i]))[1];
      position := position + 2;
    }
    assert view[..] == before[..offset] + PcmBytes(input) + before[offset + 2 * |input|..];
  }

  /** The RIFF header writes of encodeWAV (wavEncode.ts:31-35). */
  method WriteRiffHeader(view: array<uint8>, dataSize: nat)
    requires 12 <= view.Length && dataSize % 2 == 0
    modifies view
    ensures Spliced(view[..], old(view[..]), 0, RiffHeader(dataSize / 2))
  {
    ghost var v0 := view[..];
    WriteString(view, 0, "RIFF");
    ghost var v1 := view[..];
    SetUint32(view, 4, 36 + dataSize);
    ghost var v2 := view[..];
    SplicedThen(v0, v1, v2, 0, Ascii("RIFF"), Uint32Bytes(36 + dataSize));
    WriteString(view, 8, "WAVE");
    SplicedThen(v0, v2, view[..], 0, Ascii("RIFF") + Uint32Bytes(36 + dataSize), Ascii("WAVE"));
  }

  /** The format chunk writes of encodeWAV (wavEncode.ts:37-51) for one
      channel of 16-bit PCM. */
  method WriteFmtChunk(view: array<uint8>, sampleRate: int)
    requires 36 <= view.Length
    modifies view
    ensures Spliced(view[..], old(view[..]), 12, FmtChunk(sampleRate))
  {
    var bytesPerSample := 2;
    var blockAlign := 1 * bytesPerSample;
    var byteRate := sampleRate * blockAlign;
    assert byteRate == sampleRate * 2;
    ghost var v0 := view[..];
    ghost var done: seq<uint8> := [];
    WriteString(view, 12, "fmt ");
    done := Ascii("fmt ");
    ghost var v1 := view[..];
    SetUint32(view, 16, 16);
    SplicedThen(v0, v1, view[..], 12, done, Uint32Bytes(16));
    done, v1 := done + Uint32Bytes(16), view[..];
    SetUint16(view, 20, 1);
    SplicedThen(v0, v1, view[..], 12, done, Uint16Bytes(1));
    done, v1 := done + Uint16Bytes(1), view[..];
    SetUint16(view, 22, 1);
    SplicedThen(v0, v1, view[..], 12, done, Uint16Bytes(1));
    done, v1 := done + Uint16Bytes(1), view[..];
    SetUint32(view, 24, sampleRate);
    SplicedThen(v0, v1, view[..], 12, done, Uint32Bytes(sampleRate));
    done, v1 := done + Uint32Bytes(sampleRate), view[..];
    SetUint32(view, 28, byteRate);
    SplicedThen(v0, v1, view[..], 12, done, Uint32Bytes(sampleRate * 2));
    done, v1 := done + Uint32Bytes(sampleRate * 2), view[..];
    SetUint16(view, 32, blockAlign);
    SplicedThen(v0, v1, view[..], 12, done, Uint16Bytes(2));
    done, v1 := done + Uint16Bytes(2), view[..];
    SetUint16(view, 34, 16);
    SplicedThen(v0, v1, view[..], 12, done, Uint16Bytes(16));
  }

  /** The data chunk header writes of encodeWAV (wavEncode.ts:53-55). */
  method WriteDataHeader(view: array<uint8>, dataSize: nat)
    requires 44 <= view.Length && dataSize % 2 == 0
    modifies view
    ensures Spliced(view[..], old(view[..]), 36, DataHeader(dataSize / 2))
  {
    ghost var v0 := view[..];
    WriteString(view, 36, "data");
    ghost var v1 := view[..];
    SetUint32(view, 40, dataSize);
    SplicedThen(v0, v1, view[..], 36, Ascii("data"), Uint32Bytes(dataSize));
  }

  /** encode(samples, sampleRate), with encodeWAV's arguments fixed as
      encode passes them: format 1 (PCM), one channel, 16 bits. */
  method Encode(samples: seq<real>, sampleRate: int) returns (buffer: array<uint8>)
    ensures fresh(buffer)
    ensures buffer[..] == Wav(samples, sampleRate)
  {
    var bytesPerSample := 2;
    var n := |samples|;
    var dataSize := n * bytesPerSample;
    assert dataSize == 2 * n;
    buffer := new uint8[HeaderSize + dataSize];
    ghost var v0 := buffer[..];
    WriteRiffHeader(buffer, dataSize);
    ghost var v1 := buffer[..];
    WriteFmtChunk(buffer, sampleRate);
    ghost var v2 := buffer[..];
    SplicedThen(v0, v1, v2, 0, RiffHeader(n), FmtChunk(sampleRate));
    WriteDataHeader(buffer, dataSize);
    ghost var v3 := buffer[..];
    SplicedThen(v0, v2, v3, 0, RiffHeader(n) + FmtChunk(sampleRate), DataHeader(n));
    FloatTo16BitPCM(buffer, HeaderSize, samples);
    SplicedThen(v0, v3, buffer[..], 0, Header(n, sampleRate), PcmBytes(samples));
  }
}
