/**
 * The byte layout of a PCM-16 RIFF/WAVE file as the encoder produces it, stated as an
 * independent reference: a 44-byte header built field by field, followed by the samples
 * frame by frame, each frame holding one 16-bit little-endian sample per channel in channel
 * order. A header parser and a sample reader are the inverse direction.
 */
module WavLayout {
  import opened Wrappers
  import opened DataView
  import opened Audio
  import opened Pcm16

  const HEADER_SIZE: nat := 44

  /** Chunk identifiers, as ASCII bytes. */
  const RIFF_ID: seq<Byte> := [0x52, 0x49, 0x46, 0x46]
  const WAVE_ID: seq<Byte> := [0x57, 0x41, 0x56, 0x45]
  const FMT_ID: seq<Byte> := [0x66, 0x6D, 0x74, 0x20]
  const DATA_ID: seq<Byte> := [0x64, 0x61, 0x74, 0x61]

  /** Size of the PCM format chunk body, format tag WAVE_FORMAT_PCM (RFC 2361), bit depth. */
  const FMT_CHUNK_SIZE: nat := 16
  const WAVE_FORMAT_PCM: nat := 1
  const BITS_PER_SAMPLE: nat := 16

  /** Number of bytes in the data chunk: two bytes per sample of every channel. */
  function DataLength(a: AudioBuffer): (n: nat)
    ensures n % 2 == 0
    ensures n == 0 <==> a.length == 0 || |a.channels| == 0
  {
    a.length * |a.channels| * 2
  }

  /** Bytes 0 to 11: the RIFF tag, the RIFF chunk size (36 header bytes plus the data), the WAVE tag. */
  function RiffDescriptor(dataLen: int): (b: seq<Byte>)
    ensures |b| == 12
  {
    RIFF_ID + LE32(36 + dataLen) + WAVE_ID
  }

  /**
   * Bytes 12 to 35: the `fmt ` chunk of a 16-bit PCM stream, with byte rate
   * `sampleRate * 2 * channels` and block alignment `2 * channels`.
   */
  function FmtChunk(sampleRate: int, channels: int): (b: seq<Byte>)
    ensures |b| == 24
  {
    FMT_ID + LE32(FMT_CHUNK_SIZE) + LE16(WAVE_FORMAT_PCM) + LE16(channels)
    + LE32(sampleRate) + LE32(sampleRate * 2 * channels) + LE16(2 * channels) + LE16(BITS_PER_SAMPLE)
  }

  /** Bytes 36 to 43: the data tag and the data chunk size. */
  function DataChunkHeader(dataLen: int): (b: seq<Byte>)
    ensures |b| == 8
  {
    DATA_ID + LE32(dataLen)
  }

  /**
   * The 44-byte header for the given rate, channel count and data size. Every multi-byte
   * field is little-endian and wraps modulo its width.
   */
  function Header(sampleRate: int, channels: int, dataLen: int): (h: seq<Byte>)
    ensures |h| == HEADER_SIZE
  {
    RiffDescriptor(dataLen) + FmtChunk(sampleRate, channels) + DataChunkHeader(dataLen)
  }

  /** Byte offset, relative to the start of the data chunk, of frame `i` of channel `c`. */
  function SampleOffset(i: int, c: int, channels: int): (o: int)
    ensures 0 <= i && 0 <= c && 0 <= channels ==> 0 <= o
  {
    i * 2 * channels + c * 2
  }

  /** Part of one frame: the stored samples of channels `from` onwards at frame `i`, in channel order. */
  function FrameBytes(chans: seq<seq<real>>, i: nat, from: nat): (b: seq<Byte>)
    requires forall c :: 0 <= c < |chans| ==> i < |chans[c]|
    requires from <= |chans|
    ensures |b| == 2 * (|chans| - from)
    decreases |chans| - from
  {
    if from == |chans| then []
    else LE16(Quantize(chans[from][i])) + FrameBytes(chans, i, from + 1)
  }

  /** The first `n` frames, one after another. */
  function Interleave(chans: seq<seq<real>>, n: nat): (b: seq<Byte>)
    requires forall c :: 0 <= c < |chans| ==> n <= |chans[c]|
    ensures |b| == n * 2 * |chans|
  {
    if n == 0 then []
    else
      var prefix := Interleave(chans, n - 1);
      assert |prefix| + 2 * |chans| == n * 2 * |chans|;
      prefix + FrameBytes(chans, n - 1, 0)
  }

  /** The whole file the encoder produces for `a`. */
  function WavFile(a: AudioBuffer): (w: seq<Byte>)
    requires ChannelsAgree(a)
    ensures |w| == HEADER_SIZE + a.length * |a.channels| * 2
  {
    FrameMajorSize(a.length, |a.channels|);
    Header(a.sampleRate, |a.channels|, DataLength(a)) + Interleave(a.channels, a.length)
  }

  // ---------------------------------------------------------------------------------------
  // Sample offsets: in range, pairwise apart, and covering the data chunk

  /** Frames of `2 * channels` bytes fill as many bytes as the encoder's `length * channels * 2`. */
  lemma FrameMajorSize(len: int, channels: int)
    ensures len * 2 * channels == len * channels * 2
  {
  }

  /** Multiplying by a natural keeps an inequality. */
  lemma MulMonotone(a: int, b: int, m: nat)
    requires a <= b
    ensures a * m <= b * m
  {
    assert b * m - a * m == (b - a) * m;
  }

  /** A sample offset is twice the sample's position in frame-major order. */
  lemma OffsetIsTwiceIndex(i: int, c: int, channels: int)
    ensures SampleOffset(i, c, channels) == 2 * (i * channels + c)
  {
  }

  /** Frame-major positions of earlier frames come before those of later frames. */
  lemma IndexOrder(channels: nat, i: nat, i': nat, c: nat)
    requires c < channels && i < i'
    ensures i * channels + c < i' * channels
  {
    assert (i + 1) * channels == i * channels + channels;
    MulMonotone(i + 1, i', channels);
  }

  /** Every sample offset leaves room for its two bytes inside the data chunk. */
  lemma SampleOffsetInRange(len: nat, channels: nat, i: nat, c: nat)
    requires i < len && c < channels
    ensures 0 <= SampleOffset(i, c, channels)
    ensures SampleOffset(i, c, channels) + 2 <= len * channels * 2
  {
    OffsetIsTwiceIndex(i, c, channels);
    IndexOrder(channels, i, len, c);
  }

  /** Frames before frame `i'` end where frame `i'` begins. */
  lemma FrameOrder(channels: nat, i: nat, i': nat, c: nat, c': nat)
    requires c < channels && c' < channels && i < i'
    ensures SampleOffset(i, c, channels) + 2 <= SampleOffset(i', c', channels)
  {
    OffsetIsTwiceIndex(i, c, channels);
    OffsetIsTwiceIndex(i', c', channels);
    IndexOrder(channels, i, i', c);
  }

  /**
   * Distinct (frame, channel) pairs get byte ranges that do not overlap: no sample byte is
   * written twice.
   */
  lemma SampleOffsetsApart(channels: nat, i: nat, c: nat, i': nat, c': nat)
    requires c < channels && c' < channels
    requires i != i' || c != c'
    ensures SampleOffset(i, c, channels) + 2 <= SampleOffset(i', c', channels)
         || SampleOffset(i', c', channels) + 2 <= SampleOffset(i, c, channels)
  {
    if i < i' {
      FrameOrder(channels, i, i', c, c');
    } else if i' < i {
      FrameOrder(channels, i', i, c', c);
    }
  }

  /**
   * Every byte of the data chunk belongs to some sample: it is byte `b` of frame `i` of
   * channel `c`.
   */
  lemma SampleOffsetCovers(len: nat, channels: nat, p: int) returns (i: nat, c: nat, b: nat)
    requires 0 <= p < len * channels * 2
    ensures i < len && c < channels && b < 2
    ensures p == SampleOffset(i, c, channels) + b
  {
    var k := p / 2;
    b := p % 2;
    assert k < len * channels;
    assert channels > 0;
    i := k / channels;
    c := k % channels;
    assert k == i * channels + c;
    if i >= len {
      MulMonotone(len, i, channels);
      assert false;
    }
    OffsetIsTwiceIndex(i, c, channels);
  }

  // ---------------------------------------------------------------------------------------
  // Where each sample lands in the reference layout

  /** Inside one frame, channel `c`'s sample occupies bytes `2c` and `2c + 1`. */
  lemma {:induction false} FrameBytesAt(chans: seq<seq<real>>, i: nat, from: nat, c: nat, b: nat)
    requires forall k :: 0 <= k < |chans| ==> i < |chans[k]|
    requires from <= c < |chans| && b < 2
    ensures FrameBytes(chans, i, from)[2 * (c - from) + b] == LE16(Quantize(chans[c][i]))[b]
    decreases c - from
  {
    var head, rest := LE16(Quantize(chans[from][i])), FrameBytes(chans, i, from + 1);
    assert FrameBytes(chans, i, from) == head + rest;
    if from < c {
      FrameBytesAt(chans, i, from + 1, c, b);
      assert (head + rest)[2 * (c - from) + b] == rest[2 * (c - (from + 1)) + b];
    }
  }

  /** Adding a frame keeps the bytes of the earlier frames. */
  lemma PrefixKept(chans: seq<seq<real>>, n: nat, k: nat)
    requires forall c :: 0 <= c < |chans| ==> n <= |chans[c]|
    requires n > 0 && k < |Interleave(chans, n - 1)|
    ensures k < |Interleave(chans, n)| && Interleave(chans, n)[k] == Interleave(chans, n - 1)[k]
  {
    var prefix, frame := Interleave(chans, n - 1), FrameBytes(chans, n - 1, 0);
    assert Interleave(chans, n) == prefix + frame;
  }

  /** The last of `n` frames starts right after the first `n - 1`. */
  lemma LastFrameAt(chans: seq<seq<real>>, n: nat, c: nat, b: nat)
    requires forall k :: 0 <= k < |chans| ==> n <= |chans[k]|
    requires n > 0 && c < |chans| && b < 2
    ensures SampleOffset(n - 1, c, |chans|) + b < |Interleave(chans, n)|
    ensures Interleave(chans, n)[SampleOffset(n - 1, c, |chans|) + b] == LE16(Quantize(chans[c][n - 1]))[b]
  {
    var prefix, frame := Interleave(chans, n - 1), FrameBytes(chans, n - 1, 0);
    assert Interleave(chans, n) == prefix + frame;
    assert SampleOffset(n - 1, c, |chans|) + b == |prefix| + (2 * c + b);
    FrameBytesAt(chans, n - 1, 0, c, b);
    assert (prefix + frame)[|prefix| + (2 * c + b)] == frame[2 * c + b];
  }

  /** Frame `i` of channel `c` occupies the two bytes at `SampleOffset(i, c, channels)`. */
  lemma {:induction false} InterleaveAt(chans: seq<seq<real>>, n: nat, i: nat, c: nat, b: nat)
    requires forall k :: 0 <= k < |chans| ==> n <= |chans[k]|
    requires i < n && c < |chans| && b < 2
    ensures 0 <= SampleOffset(i, c, |chans|)
    ensures SampleOffset(i, c, |chans|) + b < |Interleave(chans, n)|
    ensures Interleave(chans, n)[SampleOffset(i, c, |chans|) + b] == LE16(Quantize(chans[c][i]))[b]
    decreases n
  {
    if i == n - 1 {
      LastFrameAt(chans, n, c, b);
    } else {
      InterleaveAt(chans, n - 1, i, c, b);
      PrefixKept(chans, n, SampleOffset(i, c, |chans|) + b);
    }
  }

  // ---------------------------------------------------------------------------------------
  // Reading a file back

  /** The fields of a parsed header. */
  datatype WavHeader = WavHeader(
    riffSize: nat, fmtSize: nat, formatTag: nat, numberOfChannels: nat, sampleRate: nat,
    byteRate: nat, blockAlign: nat, bitsPerSample: nat, dataSize: nat)

  /** Reads the header of a RIFF/WAVE PCM file; `None` when the buffer is short or a chunk tag is wrong. */
  function ParseHeader(buf: seq<Byte>): Option<WavHeader>
  {
    if |buf| < HEADER_SIZE then None
    else if buf[0..4] != RIFF_ID || buf[8..12] != WAVE_ID || buf[12..16] != FMT_ID || buf[36..40] != DATA_ID then None
    else Some(WavHeader(
      ReadUint32(buf, 4), ReadUint32(buf, 16), ReadUint16(buf, 20), ReadUint16(buf, 22),
      ReadUint32(buf, 24), ReadUint32(buf, 28), ReadUint16(buf, 32), ReadUint16(buf, 34),
      ReadUint32(buf, 40)))
  }

  /** The stored value of frame `i` of channel `c`, read back from a file with `channels` channels. */
  function DecodeSample(buf: seq<Byte>, channels: nat, i: nat, c: nat): int
    requires HEADER_SIZE + SampleOffset(i, c, channels) + 2 <= |buf|
  {
    ReadInt16(buf, HEADER_SIZE + SampleOffset(i, c, channels))
  }

  /** The stored values the encoder is meant to write: every sample of every channel quantised. */
  function QuantizedChannels(a: AudioBuffer): seq<seq<int>>
    requires ChannelsAgree(a)
  {
    seq(|a.channels|, c requires 0 <= c < |a.channels| =>
      seq(a.length, i requires 0 <= i < a.length => Quantize(a.channels[c][i])))
  }

  /** Each field of `Header` sits at its fixed offset. */
  lemma HeaderFields(sampleRate: int, channels: int, dataLen: int)
    ensures var h := Header(sampleRate, channels, dataLen);
      && h[0..4] == RIFF_ID && h[4..8] == LE32(36 + dataLen) && h[8..12] == WAVE_ID
      && h[12..16] == FMT_ID && h[16..20] == LE32(FMT_CHUNK_SIZE) && h[20..22] == LE16(WAVE_FORMAT_PCM)
      && h[22..24] == LE16(channels) && h[24..28] == LE32(sampleRate)
      && h[28..32] == LE32(sampleRate * 2 * channels) && h[32..34] == LE16(2 * channels)
      && h[34..36] == LE16(BITS_PER_SAMPLE) && h[36..40] == DATA_ID && h[40..44] == LE32(dataLen)
  {
    var h := Header(sampleRate, channels, dataLen);
    var r, f, d := RiffDescriptor(dataLen), FmtChunk(sampleRate, channels), DataChunkHeader(dataLen);
    assert h[0..12] == r && h[12..36] == f && h[36..44] == d;
    assert h[0..4] == r[0..4] && h[4..8] == r[4..8] && h[8..12] == r[8..12];
    assert h[12..16] == f[0..4] && h[16..20] == f[4..8] && h[20..22] == f[8..10] && h[22..24] == f[10..12];
    assert h[24..28] == f[12..16] && h[28..32] == f[16..20] && h[32..34] == f[20..22] && h[34..36] == f[22..24];
    assert h[36..40] == d[0..4] && h[40..44] == d[4..8];
  }

  /** The parser looks at the first 44 bytes only. */
  lemma ParseReadsOnlyHeader(h: seq<Byte>, rest: seq<Byte>)
    requires |h| == HEADER_SIZE
    ensures ParseHeader(h + rest) == ParseHeader(h)
  {
    var w := h + rest;
    assert w[..HEADER_SIZE] == h;
    assert w[0..4] == h[0..4] && w[8..12] == h[8..12] && w[12..16] == h[12..16] && w[36..40] == h[36..40];
  }

  /** Parsing a header gives back the fields it was built from, each modulo its width. */
  lemma ParseHeaderOf(sampleRate: int, channels: int, dataLen: int)
    ensures ParseHeader(Header(sampleRate, channels, dataLen)) == Some(WavHeader(
        ToUint32(36 + dataLen), FMT_CHUNK_SIZE, WAVE_FORMAT_PCM, ToUint16(channels), ToUint32(sampleRate),
        ToUint32(sampleRate * 2 * channels), ToUint16(2 * channels), BITS_PER_SAMPLE, ToUint32(dataLen)))
  {
    var h := Header(sampleRate, channels, dataLen);
    HeaderFields(sampleRate, channels, dataLen);
    ReadUint32Field(h, 4, 36 + dataLen);
    ReadUint32Field(h, 16, FMT_CHUNK_SIZE);
    ReadUint16Field(h, 20, WAVE_FORMAT_PCM);
    ReadUint16Field(h, 22, channels);
    ReadUint32Field(h, 24, sampleRate);
    ReadUint32Field(h, 28, sampleRate * 2 * channels);
    ReadUint16Field(h, 32, 2 * channels);
    ReadUint16Field(h, 34, BITS_PER_SAMPLE);
    ReadUint32Field(h, 40, dataLen);
  }

  /**
   * Parsing the header of an encoded file returns the fields it was built from, each reduced
   * modulo the width of its field.
   */
  lemma HeaderRoundTrip(a: AudioBuffer)
    requires ChannelsAgree(a)
    ensures var ch := |a.channels|; var dl := a.length * ch * 2;
      ParseHeader(WavFile(a)) == Some(WavHeader(
        ToUint32(36 + dl), FMT_CHUNK_SIZE, WAVE_FORMAT_PCM, ToUint16(ch), ToUint32(a.sampleRate),
        ToUint32(a.sampleRate * 2 * ch), ToUint16(2 * ch), BITS_PER_SAMPLE, ToUint32(dl)))
  {
    var ch := |a.channels|;
    var dl := DataLength(a);
    ParseReadsOnlyHeader(Header(a.sampleRate, ch, dl), Interleave(a.channels, a.length));
    ParseHeaderOf(a.sampleRate, ch, dl);
  }

  /**
   * When every value fits its field, parsing the header gives back exactly the channel count,
   * sample rate and data length the file was built from, and the derived byte rate and block
   * alignment.
   */
  lemma HeaderRoundTripExact(a: AudioBuffer)
    requires ChannelsAgree(a)
    requires 2 * |a.channels| < TWO_16
    requires a.sampleRate < TWO_32 && a.sampleRate * 2 * |a.channels| < TWO_32
    requires 36 + DataLength(a) < TWO_32
    ensures ParseHeader(WavFile(a)).Some?
    ensures var hd := ParseHeader(WavFile(a)).value;
      && hd.numberOfChannels == |a.channels|
      && hd.sampleRate == a.sampleRate
      && hd.dataSize == a.length * |a.channels| * 2
      && hd.riffSize == 36 + hd.dataSize
      && hd.byteRate == a.sampleRate * 2 * |a.channels|
      && hd.blockAlign == 2 * |a.channels|
      && hd.formatTag == 1 && hd.fmtSize == 16 && hd.bitsPerSample == 16
  {
    HeaderRoundTrip(a);
    ProductNonNegative(a.sampleRate * 2, |a.channels|);
  }

  /** A product of naturals is not negative. */
  lemma ProductNonNegative(x: nat, y: nat)
    ensures x * y >= 0
  {
  }

  /** A buffer with no frames encodes as the bare 44-byte header, whose data size field is 0. */
  lemma EmptyAudioIsHeaderOnly(a: AudioBuffer)
    requires ChannelsAgree(a) && a.length == 0
    ensures WavFile(a) == Header(a.sampleRate, |a.channels|, 0)
    ensures ParseHeader(WavFile(a)).Some? && ParseHeader(WavFile(a)).value.dataSize == 0
    ensures ParseHeader(WavFile(a)).value.riffSize == 36
  {
    assert Interleave(a.channels, 0) == [];
    assert WavFile(a) == Header(a.sampleRate, |a.channels|, 0) + [];
    HeaderRoundTrip(a);
  }

  /** Every sample's two bytes lie inside the encoded file. */
  lemma SampleWithinFile(a: AudioBuffer, i: nat, c: nat)
    requires ChannelsAgree(a)
    requires i < a.length && c < |a.channels|
    ensures HEADER_SIZE + SampleOffset(i, c, |a.channels|) + 2 <= |WavFile(a)|
  {
    var d := Interleave(a.channels, a.length);
    assert WavFile(a) == Header(a.sampleRate, |a.channels|, DataLength(a)) + d;
    InterleaveAt(a.channels, a.length, i, c, 1);
  }

  /** Every sample reads back from the encoded file as its quantised value. */
  lemma SampleRoundTrip(a: AudioBuffer, i: nat, c: nat)
    requires ChannelsAgree(a)
    requires i < a.length && c < |a.channels|
    ensures HEADER_SIZE + SampleOffset(i, c, |a.channels|) + 2 <= |WavFile(a)|
    ensures DecodeSample(WavFile(a), |a.channels|, i, c) == Quantize(a.channels[c][i])
  {
    SampleWithinFile(a, i, c);
    SampleReadsBack(a, i, c);
  }

  /** The two bytes at a sample's offset decode to its quantised value. */
  lemma SampleReadsBack(a: AudioBuffer, i: nat, c: nat)
    requires ChannelsAgree(a)
    requires i < a.length && c < |a.channels|
    requires HEADER_SIZE + SampleOffset(i, c, |a.channels|) + 2 <= |WavFile(a)|
    ensures DecodeSample(WavFile(a), |a.channels|, i, c) == Quantize(a.channels[c][i])
  {
    var ch := |a.channels|;
    var off := SampleOffset(i, c, ch);
    var d := Interleave(a.channels, a.length);
    var h := Header(a.sampleRate, ch, DataLength(a));
    assert WavFile(a) == h + d;
    InterleaveAt(a.channels, a.length, i, c, 0);
    InterleaveAt(a.channels, a.length, i, c, 1);
    StoredInData(h, d, off, Quantize(a.channels[c][i]));
  }

  /** A sample stored at offset `off` of the data chunk reads back from the file. */
  lemma StoredInData(h: seq<Byte>, d: seq<Byte>, off: int, q: int)
    requires |h| == HEADER_SIZE
    requires 0 <= off && off + 2 <= |d|
    requires -TWO_15 <= q < TWO_15
    requires d[off] == LE16(q)[0] && d[off + 1] == LE16(q)[1]
    ensures HEADER_SIZE + off + 2 <= |h + d|
    ensures ReadInt16(h + d, HEADER_SIZE + off) == q
  {
    var w := h + d;
    assert w[HEADER_SIZE + off] == d[off];
    assert w[HEADER_SIZE + off + 1] == d[off + 1];
    ReadInt16Stored(w, HEADER_SIZE + off, q);
  }

  /** Reading every sample back from an encoded file gives the quantised channels. */
  lemma DecodeRoundTrip(a: AudioBuffer)
    requires ChannelsAgree(a)
    ensures forall c, i :: 0 <= c < |a.channels| && 0 <= i < a.length ==>
      HEADER_SIZE + SampleOffset(i, c, |a.channels|) + 2 <= |WavFile(a)|
      && DecodeSample(WavFile(a), |a.channels|, i, c) == QuantizedChannels(a)[c][i]
  {
    forall c, i | 0 <= c < |a.channels| && 0 <= i < a.length
      ensures HEADER_SIZE + SampleOffset(i, c, |a.channels|) + 2 <= |WavFile(a)|
      ensures DecodeSample(WavFile(a), |a.channels|, i, c) == QuantizedChannels(a)[c][i]
    {
      SampleRoundTrip(a, i, c);
    }
  }
}
