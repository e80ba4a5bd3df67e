/**
 * The WAVE file that `makeWhisperAPIRequest` writes before uploading: a RIFF
 * container with a 16-byte `fmt ` chunk (format tag 3, IEEE float) and a
 * `data` chunk holding the samples.
 *
 * Each multi-byte field is written from the host's memory; the model takes
 * the host to be little-endian, which is also the byte order RIFF prescribes.
 * A sample is an opaque 32-bit word (the bit pattern of the float).
 */
module Wav {
  import opened Wrappers
  import opened AudioParams

  type Byte = x: int | 0 <= x < 0x100
  type Word16 = x: int | 0 <= x < 0x1_0000
  type Word32 = x: int | 0 <= x < 0x1_0000_0000

  const Word32Modulus: nat := 0x1_0000_0000

  /** `uint32_t v = e;` — the value of `e` reduced modulo 2^32. */
  function ToWord32(x: nat): (w: Word32) {
    x % Word32Modulus
  }

  lemma ToWord32Small(x: nat)
    requires x < Word32Modulus
    ensures ToWord32(x) == x
  {
  }

  function Le16(x: Word16): (b: seq<Byte>) {
    [x % 0x100, x / 0x100]
  }

  function Le32(x: Word32): (b: seq<Byte>) {
    [x % 0x100, x / 0x100 % 0x100, x / 0x100 / 0x100 % 0x100, x / 0x100 / 0x100 / 0x100]
  }

  function ReadLe16(b: seq<Byte>, at: nat): (w: Word16)
    requires at + 2 <= |b|
  {
    b[at] as int + 0x100 * b[at + 1] as int
  }

  function ReadLe32(b: seq<Byte>, at: nat): (w: Word32)
    requires at + 4 <= |b|
  {
    b[at] as int + 0x100 * b[at + 1] as int + 0x1_0000 * b[at + 2] as int + 0x100_0000 * b[at + 3] as int
  }

  /** Division by 256 with remainder. */
  lemma DivMod256(x: nat)
    ensures x == x % 0x100 + 0x100 * (x / 0x100) && 0 <= x % 0x100 < 0x100
  {
  }

  /** Splitting off the low byte of `lo + 256 hi`. */
  lemma LowByte(lo: int, hi: nat)
    requires 0 <= lo < 0x100
    ensures (lo + 0x100 * hi) % 0x100 == lo && (lo + 0x100 * hi) / 0x100 == hi
  {
  }

  lemma Le16RoundTrip(x: Word16, b: seq<Byte>)
    requires 2 <= |b| && b[..2] == Le16(x)
    ensures ReadLe16(b, 0) == x
  {
    assert b[0] == Le16(x)[0] && b[1] == Le16(x)[1];
    DivMod256(x);
  }

  lemma Le32RoundTrip(x: Word32, b: seq<Byte>)
    requires 4 <= |b| && b[..4] == Le32(x)
    ensures ReadLe32(b, 0) == x
  {
    assert b[0] == Le32(x)[0] && b[1] == Le32(x)[1] && b[2] == Le32(x)[2] && b[3] == Le32(x)[3];
    var q1 := x / 0x100;
    var q2 := q1 / 0x100;
    DivMod256(x);
    DivMod256(q1);
    DivMod256(q2);
    assert x == b[0] as int + 0x100 * (b[1] as int + 0x100 * (b[2] as int + 0x100 * b[3] as int));
  }

  lemma ReadLe16Encodes(b: seq<Byte>, at: nat)
    requires at + 2 <= |b|
    ensures Le16(ReadLe16(b, at)) == b[at..at + 2]
  {
    LowByte(b[at], b[at + 1]);
  }

  lemma ReadLe32Encodes(b: seq<Byte>, at: nat)
    requires at + 4 <= |b|
    ensures Le32(ReadLe32(b, at)) == b[at..at + 4]
  {
    var b0, b1, b2, b3 := b[at] as int, b[at + 1] as int, b[at + 2] as int, b[at + 3] as int;
    var v := ReadLe32(b, at);
    var h2 := b2 + 0x100 * b3;
    var h1 := b1 + 0x100 * h2;
    assert v == b0 + 0x100 * h1;
    LowByte(b0, h1);
    LowByte(b1, h2);
    LowByte(b2, b3);
  }

  /** The four ASCII characters of a chunk tag. */
  function Tag(s: string): (b: seq<Byte>)
    requires forall i :: 0 <= i < |s| ==> s[i] as int < 0x100
    ensures |b| == |s|
  {
    seq(|s|, i requires 0 <= i < |s| => s[i] as int)
  }

  const RiffTag: seq<Byte> := Tag("RIFF")
  const WaveTag: seq<Byte> := Tag("WAVE")
  const FmtTag: seq<Byte> := Tag("fmt ")
  const DataTag: seq<Byte> := Tag("data")

  const HeaderSize: nat := 44
  /** `WAVE_FORMAT_IEEE_FLOAT`. */
  const FormatIeeeFloat: Word16 := 3

  /** The nine numeric fields of the 44-byte header, in file order. */
  datatype WavHeader = WavHeader(
    riffSize: Word32,
    fmtSize: Word32,
    audioFormat: Word16,
    numChannels: Word16,
    sampleRate: Word32,
    byteRate: Word32,
    blockAlign: Word16,
    bitsPerSample: Word16,
    dataSize: Word32)

  /** `RIFF` <size> `WAVE`: the container's first 12 bytes. */
  function RiffPart(riffSize: Word32): (b: seq<Byte>)
    ensures |b| == 12
  {
    RiffTag + Le32(riffSize) + WaveTag
  }

  /** The WAVEFORMAT record inside the `fmt ` chunk. */
  function FormatPart(h: WavHeader): (b: seq<Byte>)
    ensures |b| == 16
  {
    Le16(h.audioFormat) + Le16(h.numChannels) + Le32(h.sampleRate)
    + Le32(h.byteRate) + Le16(h.blockAlign) + Le16(h.bitsPerSample)
  }

  /** `fmt ` <16> <format record>. */
  function FmtPart(h: WavHeader): (b: seq<Byte>)
    ensures |b| == 24
  {
    FmtTag + Le32(h.fmtSize) + FormatPart(h)
  }

  /** `data` <size>: the header of the data chunk. */
  function DataPart(dataSize: Word32): (b: seq<Byte>)
    ensures |b| == 8
  {
    DataTag + Le32(dataSize)
  }

  function EncodeHeader(h: WavHeader): (b: seq<Byte>)
    ensures |b| == HeaderSize
  {
    RiffPart(h.riffSize) + FmtPart(h) + DataPart(h.dataSize)
  }

  /** Reads a header back, provided the four tags are in place. */
  function DecodeHeader(b: seq<Byte>): (r: Option<WavHeader>) {
    if |b| < HeaderSize || b[0..4] != RiffTag || b[8..12] != WaveTag
       || b[12..16] != FmtTag || b[36..40] != DataTag then None
    else Some(WavHeader(
      ReadLe32(b, 4), ReadLe32(b, 16), ReadLe16(b, 20), ReadLe16(b, 22),
      ReadLe32(b, 24), ReadLe32(b, 28), ReadLe16(b, 32), ReadLe16(b, 34),
      ReadLe32(b, 40)))
  }

  /** Every header survives encoding: decoding it gives back each field. */
  lemma HeaderRoundTrip(h: WavHeader, rest: seq<Byte>)
    ensures DecodeHeader(EncodeHeader(h) + rest) == Some(h)
  {
    var b := EncodeHeader(h) + rest;
    var f := FormatPart(h);
    assert b[..12] == RiffPart(h.riffSize);
    assert b[12..36] == FmtPart(h);
    assert b[36..44] == DataPart(h.dataSize);
    assert b[0..4] == RiffTag;
    assert b[8..12] == WaveTag;
    assert b[12..16] == FmtTag;
    assert b[36..40] == DataTag;
    assert b[20..36] == f;
    Le32RoundTrip(h.riffSize, b[4..]);
    Le32RoundTrip(h.fmtSize, b[16..]);
    Le16RoundTrip(h.audioFormat, f);
    Le16RoundTrip(h.numChannels, f[2..]);
    Le32RoundTrip(h.sampleRate, f[4..]);
    Le32RoundTrip(h.byteRate, f[8..]);
    Le16RoundTrip(h.blockAlign, f[12..]);
    Le16RoundTrip(h.bitsPerSample, f[14..]);
    assert ReadLe16(b, 20) == ReadLe16(f, 0);
    assert ReadLe16(b, 22) == ReadLe16(f[2..], 0);
    assert ReadLe32(b, 24) == ReadLe32(f[4..], 0);
    assert ReadLe32(b, 28) == ReadLe32(f[8..], 0);
    assert ReadLe16(b, 32) == ReadLe16(f[12..], 0);
    assert ReadLe16(b, 34) == ReadLe16(f[14..], 0);
    Le32RoundTrip(h.dataSize, b[40..]);
  }

  /** Conversely, a decodable prefix is exactly the encoding of what was decoded. */
  lemma DecodeHeaderExact(b: seq<Byte>)
    requires DecodeHeader(b).Some?
    ensures EncodeHeader(DecodeHeader(b).value) == b[..HeaderSize]
  {
    var h := DecodeHeader(b).value;
    ReadLe32Encodes(b, 4);
    assert RiffPart(h.riffSize) == b[0..12] by {
      assert b[0..4] + b[4..8] == b[0..8];
      assert b[0..8] + b[8..12] == b[0..12];
    }
    assert FormatPart(h) == b[20..36] by {
      ReadLe16Encodes(b, 20);
      ReadLe16Encodes(b, 22);
      ReadLe32Encodes(b, 24);
      ReadLe32Encodes(b, 28);
      ReadLe16Encodes(b, 32);
      ReadLe16Encodes(b, 34);
      assert b[20..22] + b[22..24] == b[20..24];
      assert b[20..24] + b[24..28] == b[20..28];
      assert b[20..28] + b[28..32] == b[20..32];
      assert b[20..32] + b[32..34] == b[20..34];
      assert b[20..34] + b[34..36] == b[20..36];
    }
    assert FmtPart(h) == b[12..36] by {
      ReadLe32Encodes(b, 16);
      assert b[12..16] + b[16..20] == b[12..20];
      assert b[12..20] + b[20..36] == b[12..36];
    }
    assert DataPart(h.dataSize) == b[36..44] by {
      ReadLe32Encodes(b, 40);
      assert b[36..40] + b[40..44] == b[36..44];
    }
    assert b[0..12] + b[12..36] == b[0..36];
    assert b[0..36] + b[36..44] == b[..HeaderSize];
  }

  /** The header the source writes for `n` samples; sizes are `size_t` values stored into `uint32_t`. */
  function HeaderFor(n: nat): (h: WavHeader)
    ensures h.blockAlign * 8 == h.numChannels * h.bitsPerSample
    ensures h.byteRate == h.sampleRate * h.blockAlign
  {
    WavHeader(
      riffSize := ToWord32(36 + FloatSize * n),
      fmtSize := 16,
      audioFormat := FormatIeeeFloat,
      numChannels := Channels,
      sampleRate := SampleRate,
      byteRate := ToWord32(SampleRate * Channels * FloatSize),
      blockAlign := Channels * FloatSize,
      bitsPerSample := 32,
      dataSize := ToWord32(FloatSize * n))
  }

  /** The in-memory bytes of the sample vector. */
  function SampleBytes(samples: seq<Word32>): (b: seq<Byte>)
    ensures |b| == FloatSize * |samples|
  {
    if samples == [] then [] else Le32(samples[0]) + SampleBytes(samples[1..])
  }

  /** Reads the bytes back as little-endian words; a trailing partial word is dropped. */
  function DecodeSamples(b: seq<Byte>): (samples: seq<Word32>) {
    if |b| < 4 then [] else [ReadLe32(b, 0)] + DecodeSamples(b[4..])
  }

  lemma {:induction false} SamplesRoundTrip(samples: seq<Word32>)
    ensures DecodeSamples(SampleBytes(samples)) == samples
  {
    if samples != [] {
      var b := SampleBytes(samples);
      assert b[..4] == Le32(samples[0]);
      Le32RoundTrip(samples[0], b);
      assert b[4..] == SampleBytes(samples[1..]);
      SamplesRoundTrip(samples[1..]);
    }
  }

  /**
   * The whole file: the header, then `data_size` bytes of the sample vector.
   * The payload length is the truncated `data_size`, as in
   * `wav_file.write(…, data_size)`.
   */
  function WavBytes(samples: seq<Word32>): (b: seq<Byte>)
    ensures |b| == HeaderSize + HeaderFor(|samples|).dataSize
  {
    EncodeHeader(HeaderFor(|samples|)) + SampleBytes(samples)[..HeaderFor(|samples|).dataSize]
  }

  /** The header fields carry the fixed capture format: 16 kHz mono 32-bit float. */
  lemma HeaderFormat(samples: seq<Word32>)
    ensures DecodeHeader(WavBytes(samples)).Some?
    ensures var h := DecodeHeader(WavBytes(samples)).value;
      && h.fmtSize == 16 && h.audioFormat == FormatIeeeFloat && h.numChannels == 1
      && h.sampleRate == 16000 && h.byteRate == 64000 && h.blockAlign == 4
      && h.bitsPerSample == 32
  {
    HeaderRoundTrip(HeaderFor(|samples|), SampleBytes(samples)[..HeaderFor(|samples|).dataSize]);
  }

  /**
   * Whatever the sample count, the declared RIFF size is 36 plus the declared
   * data size (modulo 2^32), and the data chunk never claims more bytes than
   * the samples hold.
   */
  lemma SizesAgree(n: nat)
    ensures HeaderFor(n).riffSize == ToWord32(36 + HeaderFor(n).dataSize)
    ensures HeaderFor(n).dataSize <= FloatSize * n
  {
  }

  /**
   * While the sizes fit 32 bits nothing is truncated: the data chunk holds
   * `4 n` bytes, the RIFF size is `36 + 4 n`, and the file is `8 + riff size`
   * bytes long.
   */
  lemma WavSizes(samples: seq<Word32>)
    requires 36 + FloatSize * |samples| < Word32Modulus
    ensures HeaderFor(|samples|).dataSize == FloatSize * |samples|
    ensures HeaderFor(|samples|).riffSize == 36 + HeaderFor(|samples|).dataSize
    ensures |WavBytes(samples)| == 8 + HeaderFor(|samples|).riffSize
  {
    ToWord32Small(FloatSize * |samples|);
    ToWord32Small(36 + FloatSize * |samples|);
  }

  /** While the sizes fit 32 bits the whole sample vector follows the header. */
  lemma WavBytesUntruncated(samples: seq<Word32>)
    requires 36 + FloatSize * |samples| < Word32Modulus
    ensures WavBytes(samples) == EncodeHeader(HeaderFor(|samples|)) + SampleBytes(samples)
  {
    WavSizes(samples);
    var payload := SampleBytes(samples);
    assert payload[..HeaderFor(|samples|).dataSize] == payload;
  }

  /** While the sizes fit 32 bits, decoding the file gives back the header and every sample. */
  lemma WavRoundTrip(samples: seq<Word32>)
    requires 36 + FloatSize * |samples| < Word32Modulus
    ensures |WavBytes(samples)| == HeaderSize + FloatSize * |samples|
    ensures DecodeHeader(WavBytes(samples)) == Some(HeaderFor(|samples|))
    ensures DecodeSamples(WavBytes(samples)[HeaderSize..]) == samples
  {
    var h := HeaderFor(|samples|);
    var payload := SampleBytes(samples);
    WavBytesUntruncated(samples);
    var b := EncodeHeader(h) + payload;
    HeaderRoundTrip(h, payload);
    assert b[HeaderSize..] == payload;
    SamplesRoundTrip(samples);
  }

  /**
   * The header block of `makeWhisperAPIRequest`, field by field as the source
   * writes it to the `std::ofstream`, followed by the sample bytes.
   */
  method WriteWavFile(samples: seq<Word32>) returns (file: seq<Byte>)
    ensures file == WavBytes(samples)
    ensures |file| == HeaderSize + HeaderFor(|samples|).dataSize
  {
    var n := |samples|;
    file := WriteWavHeader(n);
    var dataSize: Word32 := ToWord32(FloatSize * n);
    SizesAgree(n);
    file := file + SampleBytes(samples)[..dataSize];
  }

  /** The thirteen header writes of `makeWhisperAPIRequest`, for `n` samples. */
  method WriteWavHeader(n: nat) returns (file: seq<Byte>)
    ensures file == EncodeHeader(HeaderFor(n))
  {
    ghost var h := HeaderFor(n);
    file := [];
    file := file + RiffTag;
    var fileSize: Word32 := ToWord32(36 + FloatSize * n);
    file := file + Le32(fileSize);
    file := file + WaveTag;
    assert file == RiffPart(h.riffSize);
    file := file + FmtTag;
    var fmtSize: Word32 := 16;
    file := file + Le32(fmtSize);
    ghost var format := [];
    var audioFormat: Word16 := FormatIeeeFloat;
    file, format := file + Le16(audioFormat), format + Le16(audioFormat);
    var numChannels: Word16 := Channels;
    file, format := file + Le16(numChannels), format + Le16(numChannels);
    var sampleRate: Word32 := SampleRate;
    file, format := file + Le32(sampleRate), format + Le32(sampleRate);
    var byteRate: Word32 := ToWord32(SampleRate * Channels * FloatSize);
    file, format := file + Le32(byteRate), format + Le32(byteRate);
    var blockAlign: Word16 := Channels * FloatSize;
    file, format := file + Le16(blockAlign), format + Le16(blockAlign);
    var bitsPerSample: Word16 := 32;
    file, format := file + Le16(bitsPerSample), format + Le16(bitsPerSample);
    assert format == FormatPart(h);
    assert file == RiffPart(h.riffSize) + FmtPart(h);
    ghost var prefix := file;
    file := file + DataTag;
    var dataSize: Word32 := ToWord32(FloatSize * n);
    file := file + Le32(dataSize);
    assert file == prefix + DataPart(h.dataSize);
  }

}
