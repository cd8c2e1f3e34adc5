/**
 * The WAV encoder: allocates a zero-filled buffer of the final size, writes the 44-byte
 * header field by field, then stores every sample of every channel, channel by channel,
 * at its interleaved position in the data chunk.
 */
module WavEncoder {
  import opened JsMath
  import opened DataView
  import opened Audio
  import opened Pcm16
  import opened WavLayout

  /**
   * Stores the character codes of `s`, reduced to one byte each, at `off`, `off + 1`, ...;
   * every other byte of the buffer is kept.
   */
  method WriteString(buf: seq<Byte>, off: nat, s: string) returns (r: seq<Byte>)
    requires off + |s| <= |buf|
    ensures |r| == |buf|
    ensures forall k :: 0 <= k < |s| ==> r[off + k] == (s[k] as int) % TWO_8
    ensures forall p :: 0 <= p < |buf| && !(off <= p < off + |s|) ==> r[p] == buf[p]
  {
    r := buf;
    var i := 0;
    while i < |s|
      invariant 0 <= i <= |s|
      invariant |r| == |buf|
      invariant forall k :: 0 <= k < i ==> r[off + k] == (s[k] as int) % TWO_8
      invariant forall p :: 0 <= p < |buf| && !(off <= p < off + i) ==> r[p] == buf[p]
    {
      r := SetUint8(r, off + i, s[i] as int);
      i := i + 1;
    }
  }

  /** After `WriteString(_, off, s)` the bytes at `off` spell the ASCII string `s`. */
  lemma TagWritten(r: seq<Byte>, off: nat, s: string, tag: seq<Byte>)
    requires off + |s| <= |r| && |tag| == |s|
    requires forall k :: 0 <= k < |s| ==> r[off + k] == (s[k] as int) % TWO_8
    requires forall k :: 0 <= k < |s| ==> s[k] as int == tag[k]
    ensures r[off..off + |s|] == tag
  {
    forall k | 0 <= k < |s|
      ensures r[off..off + |s|][k] == tag[k]
    {
      assert r[off + k] == (s[k] as int) % TWO_8;
    }
  }

  /** The two bytes at data offset `off` hold the stored value of sample `s`. */
  ghost predicate SampleStored(buf: seq<Byte>, off: int, s: real)
  {
    0 <= off && HEADER_SIZE + off + 2 <= |buf|
    && buf[HEADER_SIZE + off] == LE16(Quantize(s))[0]
    && buf[HEADER_SIZE + off + 1] == LE16(Quantize(s))[1]
  }

  /** Writes the header fields in the order the encoder writes them, chunk by chunk. */
  method WriteHeader(buf: seq<Byte>, sampleRate: nat, numberOfChannels: nat, length: nat)
    returns (r: seq<Byte>)
    requires |buf| >= HEADER_SIZE
    ensures |r| == |buf|
    ensures r[..HEADER_SIZE] == Header(sampleRate, numberOfChannels, length)
    ensures r[HEADER_SIZE..] == buf[HEADER_SIZE..]
  {
    var r1 := WriteRiffDescriptor(buf, length);
    assert r1[0..0] == [];
    Extend(buf, r1, 0, [], RiffDescriptor(length));
    var r2 := WriteFmtChunk(r1, sampleRate, numberOfChannels);
    Extend(r1, r2, 0, RiffDescriptor(length), FmtChunk(sampleRate, numberOfChannels));
    r := WriteDataChunkHeader(r2, length);
    Extend(r2, r, 0, RiffDescriptor(length) + FmtChunk(sampleRate, numberOfChannels), DataChunkHeader(length));
    assert r[HEADER_SIZE..] == buf[HEADER_SIZE..];
  }

  /** Bytes 0 to 11: the RIFF tag, the RIFF chunk size `36 + length`, and the WAVE tag. */
  method WriteRiffDescriptor(buf: seq<Byte>, length: nat) returns (r: seq<Byte>)
    requires |buf| >= HEADER_SIZE
    ensures |r| == |buf|
    ensures r[0..12] == RiffDescriptor(length)
    ensures forall p :: 0 <= p < |buf| && !(0 <= p < 12) ==> r[p] == buf[p]
  {
    var r0 := WriteString(buf, 0, "RIFF");
    TagWritten(r0, 0, "RIFF", RIFF_ID);
    var r1 := SetUint32(r0, 4, 36 + length);
    Extend(r0, r1, 0, RIFF_ID, LE32(36 + length));
    r := WriteString(r1, 8, "WAVE");
    TagWritten(r, 8, "WAVE", WAVE_ID);
    Extend(r1, r, 0, RIFF_ID + LE32(36 + length), WAVE_ID);
  }

  /** Bytes 12 to 35: the `fmt ` chunk of a 16-bit PCM stream. */
  method WriteFmtChunk(buf: seq<Byte>, sampleRate: nat, numberOfChannels: nat) returns (r: seq<Byte>)
    requires |buf| >= HEADER_SIZE
    ensures |r| == |buf|
    ensures r[12..36] == FmtChunk(sampleRate, numberOfChannels)
    ensures forall p :: 0 <= p < |buf| && !(12 <= p < 36) ==> r[p] == buf[p]
  {
    var r0 := WriteString(buf, 12, "fmt ");
    TagWritten(r0, 12, "fmt ", FMT_ID);
    var r1 := SetUint32(r0, 16, 16);
    ghost var h := FMT_ID;
    Extend(r0, r1, 12, h, LE32(FMT_CHUNK_SIZE));
    h := h + LE32(FMT_CHUNK_SIZE);
    var r2 := SetUint16(r1, 20, 1);
    Extend(r1, r2, 12, h, LE16(WAVE_FORMAT_PCM));
    h := h + LE16(WAVE_FORMAT_PCM);
    var r3 := SetUint16(r2, 22, numberOfChannels);
    Extend(r2, r3, 12, h, LE16(numberOfChannels));
    h := h + LE16(numberOfChannels);
    var r4 := SetUint32(r3, 24, sampleRate);
    Extend(r3, r4, 12, h, LE32(sampleRate));
    h := h + LE32(sampleRate);
    var r5 := SetUint32(r4, 28, sampleRate * 2 * numberOfChannels);
    Extend(r4, r5, 12, h, LE32(sampleRate * 2 * numberOfChannels));
    h := h + LE32(sampleRate * 2 * numberOfChannels);
    var r6 := SetUint16(r5, 32, 2 * numberOfChannels);
    Extend(r5, r6, 12, h, LE16(2 * numberOfChannels));
    h := h + LE16(2 * numberOfChannels);
    r := SetUint16(r6, 34, 16);
    Extend(r6, r, 12, h, LE16(BITS_PER_SAMPLE));
  }

  /** Bytes 36 to 43: the data tag and the data chunk size `length`. */
  method WriteDataChunkHeader(buf: seq<Byte>, length: nat) returns (r: seq<Byte>)
    requires |buf| >= HEADER_SIZE
    ensures |r| == |buf|
    ensures r[36..44] == DataChunkHeader(length)
    ensures forall p :: 0 <= p < |buf| && !(36 <= p < 44) ==> r[p] == buf[p]
  {
    var r0 := WriteString(buf, 36, "data");
    TagWritten(r0, 36, "data", DATA_ID);
    r := SetUint32(r0, 40, length);
    Extend(r0, r, 36, DATA_ID, LE32(length));
  }

  /**
   * A write of `bytes` just past a finished run `h` at `o` that leaves every other byte alone
   * yields the longer finished run `h + bytes` at `o`.
   */
  lemma Extend(before: seq<Byte>, after: seq<Byte>, o: nat, h: seq<Byte>, bytes: seq<Byte>)
    requires o + |h| + |bytes| <= |before| == |after|
    requires before[o..o + |h|] == h
    requires after[o + |h|..o + |h| + |bytes|] == bytes
    requires forall p :: 0 <= p < |before| && !(o + |h| <= p < o + |h| + |bytes|) ==> after[p] == before[p]
    ensures after[o..o + |h| + |bytes|] == h + bytes
  {
    forall p | 0 <= p < |h| + |bytes|
      ensures after[o..o + |h| + |bytes|][p] == (h + bytes)[p]
    {
      if p < |h| {
        assert before[o..o + |h|][p] == h[p];
      } else {
        assert after[o + |h|..o + |h| + |bytes|][p - |h|] == bytes[p - |h|];
      }
    }
  }

  /**
   * The encoder. The result is exactly the reference layout: the header for the buffer's
   * rate, channel count and data size, then every frame's samples in channel order.
   */
  method CreateWavBuffer(decodedData: AudioBuffer) returns (wavBuffer: seq<Byte>)
    requires ChannelsAgree(decodedData)
    ensures |wavBuffer| == HEADER_SIZE + decodedData.length * |decodedData.channels| * 2
    ensures wavBuffer == WavFile(decodedData)
  {
    var numberOfChannels := decodedData.NumberOfChannels();
    var sampleRate := decodedData.sampleRate;
    var length := decodedData.length * numberOfChannels * 2;
    wavBuffer := seq(HEADER_SIZE + length, _ => 0);
    wavBuffer := WriteHeader(wavBuffer, sampleRate, numberOfChannels, length);
    ghost var header := wavBuffer[..HEADER_SIZE];

    var channel := 0;
    while channel < numberOfChannels
      invariant 0 <= channel <= numberOfChannels
      invariant |wavBuffer| == HEADER_SIZE + length
      invariant wavBuffer[..HEADER_SIZE] == header
      invariant forall c, j :: 0 <= c < channel && 0 <= j < decodedData.length ==>
        SampleStored(wavBuffer, SampleOffset(j, c, numberOfChannels), decodedData.channels[c][j])
    {
      wavBuffer := WriteChannel(wavBuffer, decodedData, channel);
      channel := channel + 1;
    }
    AllSamplesStored(wavBuffer, decodedData);
  }

  /**
   * Stores every sample of channel `channel` at its interleaved offset. The header and the
   * samples of every other channel stay where they were.
   */
  method WriteChannel(buf: seq<Byte>, decodedData: AudioBuffer, channel: nat) returns (r: seq<Byte>)
    requires ChannelsAgree(decodedData) && channel < |decodedData.channels|
    requires |buf| == HEADER_SIZE + DataLength(decodedData)
    ensures |r| == |buf|
    ensures r[..HEADER_SIZE] == buf[..HEADER_SIZE]
    ensures forall j :: 0 <= j < decodedData.length ==>
      SampleStored(r, SampleOffset(j, channel, |decodedData.channels|), decodedData.channels[channel][j])
    ensures forall c, j ::
      (0 <= c < |decodedData.channels| && c != channel && 0 <= j < decodedData.length
       && SampleStored(buf, SampleOffset(j, c, |decodedData.channels|), decodedData.channels[c][j]))
      ==> SampleStored(r, SampleOffset(j, c, |decodedData.channels|), decodedData.channels[c][j])
  {
    var numberOfChannels := |decodedData.channels|;
    var channelData := decodedData.channels[channel];
    r := buf;
    var i := 0;
    while i < |channelData|
      invariant 0 <= i <= |channelData|
      invariant |r| == |buf|
      invariant r[..HEADER_SIZE] == buf[..HEADER_SIZE]
      invariant forall j :: 0 <= j < i ==>
        SampleStored(r, SampleOffset(j, channel, numberOfChannels), channelData[j])
      invariant forall c, j ::
        (0 <= c < numberOfChannels && c != channel && 0 <= j < decodedData.length
         && SampleStored(buf, SampleOffset(j, c, numberOfChannels), decodedData.channels[c][j]))
        ==> SampleStored(r, SampleOffset(j, c, numberOfChannels), decodedData.channels[c][j])
    {
      var offset := i * 2 * numberOfChannels + channel * 2;
      SampleOffsetInRange(decodedData.length, numberOfChannels, i, channel);
      var sample := Max(-1.0, Min(1.0, channelData[i]));
      ghost var before := r;
      r := SetInt16(r, HEADER_SIZE + offset,
                    if sample < 0.0 then sample * 32768.0 else sample * 32767.0);
      assert SampleStored(r, offset, channelData[i]);
      OtherSamplesKept(before, r, decodedData, i, channel);
      assert r[..HEADER_SIZE] == before[..HEADER_SIZE];
      i := i + 1;
    }
  }

  /** Overwriting the sample of frame `i`, channel `channel` keeps every other stored sample. */
  lemma OtherSamplesKept(before: seq<Byte>, after: seq<Byte>, a: AudioBuffer, i: nat, channel: nat)
    requires ChannelsAgree(a) && i < a.length && channel < |a.channels|
    requires |after| == |before|
    requires var off := SampleOffset(i, channel, |a.channels|);
      forall p :: 0 <= p < |before| && !(HEADER_SIZE + off <= p < HEADER_SIZE + off + 2) ==> after[p] == before[p]
    ensures forall c, j ::
      (0 <= c < |a.channels| && 0 <= j < a.length && (c != channel || j != i)
       && SampleStored(before, SampleOffset(j, c, |a.channels|), a.channels[c][j]))
      ==> SampleStored(after, SampleOffset(j, c, |a.channels|), a.channels[c][j])
  {
    var ch := |a.channels|;
    forall c, j | 0 <= c < ch && 0 <= j < a.length && (c != channel || j != i)
      && SampleStored(before, SampleOffset(j, c, ch), a.channels[c][j])
      ensures SampleStored(after, SampleOffset(j, c, ch), a.channels[c][j])
    {
      SampleOffsetsApart(ch, i, channel, j, c);
      StoredElsewhere(before, after, SampleOffset(i, channel, ch), SampleOffset(j, c, ch), a.channels[c][j]);
    }
  }

  /** A write to the two data bytes at `off` keeps a sample stored at a disjoint offset `off'`. */
  lemma StoredElsewhere(before: seq<Byte>, after: seq<Byte>, off: int, off': int, s: real)
    requires |after| == |before|
    requires forall p :: 0 <= p < |before| && !(HEADER_SIZE + off <= p < HEADER_SIZE + off + 2) ==> after[p] == before[p]
    requires off' + 2 <= off || off + 2 <= off'
    requires SampleStored(before, off', s)
    ensures SampleStored(after, off', s)
  {
  }

  /**
   * A buffer of the right size that holds the header and every sample at its offset is the
   * reference layout: the sample writes leave no byte of the data chunk uncovered.
   */
  lemma AllSamplesStored(buf: seq<Byte>, a: AudioBuffer)
    requires ChannelsAgree(a)
    requires |buf| == HEADER_SIZE + DataLength(a)
    requires buf[..HEADER_SIZE] == Header(a.sampleRate, |a.channels|, DataLength(a))
    requires forall c, j :: 0 <= c < |a.channels| && 0 <= j < a.length ==>
      SampleStored(buf, SampleOffset(j, c, |a.channels|), a.channels[c][j])
    ensures buf == WavFile(a)
  {
    var ch := |a.channels|;
    var w := Header(a.sampleRate, ch, DataLength(a)) + Interleave(a.channels, a.length);
    assert w == WavFile(a);
    forall p | 0 <= p < |buf|
      ensures buf[p] == w[p]
    {
      if p < HEADER_SIZE {
        assert buf[p] == buf[..HEADER_SIZE][p];
      } else {
        DataByteStored(buf, a, p);
      }
    }
  }

  /** A data byte of a buffer that holds every sample at its offset agrees with the reference data chunk. */
  lemma DataByteStored(buf: seq<Byte>, a: AudioBuffer, p: int)
    requires ChannelsAgree(a)
    requires |buf| == HEADER_SIZE + DataLength(a)
    requires forall c, j :: 0 <= c < |a.channels| && 0 <= j < a.length ==>
      SampleStored(buf, SampleOffset(j, c, |a.channels|), a.channels[c][j])
    requires HEADER_SIZE <= p < |buf|
    ensures HEADER_SIZE + |Interleave(a.channels, a.length)| == |buf|
    ensures buf[p] == Interleave(a.channels, a.length)[p - HEADER_SIZE]
  {
    var ch := |a.channels|;
    var d := Interleave(a.channels, a.length);
    FrameMajorSize(a.length, ch);
    var i, c, b := SampleOffsetCovers(a.length, ch, p - HEADER_SIZE);
    var off := SampleOffset(i, c, ch);
    InterleaveAt(a.channels, a.length, i, c, b);
    InterleaveAt(a.channels, a.length, i, c, 1);
    assert SampleStored(buf, off, a.channels[c][i]);
    StoredByte(buf, d, p, off, b, Quantize(a.channels[c][i]));
  }

  /** Byte `b` of a sample stored at data offset `off` agrees with the reference data chunk. */
  lemma StoredByte(buf: seq<Byte>, d: seq<Byte>, p: int, off: int, b: int, q: int)
    requires |buf| == HEADER_SIZE + |d|
    requires 0 <= off && off + 2 <= |d| && 0 <= b < 2 && p == HEADER_SIZE + off + b
    requires buf[HEADER_SIZE + off] == LE16(q)[0] && buf[HEADER_SIZE + off + 1] == LE16(q)[1]
    requires d[off + b] == LE16(q)[b]
    ensures buf[p] == d[p - HEADER_SIZE]
  {
  }
}
