# OggToWav converter core, modelled in Dafny

The converter takes a decoded audio buffer and does two pure data transforms on it:

- **WAV serialisation** (`createWavBuffer` with its helper `writeString`). It produces a 44-byte
  RIFF/WAVE header for 16-bit PCM, followed by the interleaved samples. Frame `i` of channel `c`
  goes to byte `44 + i*2*channels + c*2`. Each sample is clamped to [-1, 1], scaled by 32768
  below zero and by 32767 otherwise, and stored with `DataView.setInt16`, which truncates toward
  zero. All multi-byte fields are little-endian.
- **Linear-interpolation resampling** (`resampleAudio`). It reads channel 0 only. With
  `ratio = sourceRate / targetRate`, it produces `floor(N / ratio)` samples. Output `i` is
  `sum over j in {0, 1} of (1 - |j - frac|) * input[base + j]`, where `base + frac = i * ratio`.
  Neighbours outside the input are skipped, and the remaining weight is not renormalised.

Modules, in dependency order:

| module | file | contents |
|---|---|---|
| `Wrappers` | wrappers.dfy | `Option`, `Result` |
| `JsMath` | jsmath.dfy | `Math.abs`, `Math.min`, `Math.max`, `Math.floor` on exact reals |
| `DataView` | dataview.dfy | bytes, ECMAScript ToUint16/ToUint32/ToInt16, little-endian setters and getters |
| `Audio` | audio.dfy | the `AudioBuffer` record |
| `Pcm16` | pcm16.dfy | clamp, asymmetric scale, truncation to 16 bits |
| `WavLayout` | wav_layout.dfy | the reference file layout (`WavFile`), the header parser and sample reader that invert it, and the offset arithmetic |
| `WavEncoder` | wav_encoder.dfy | the encoder as the code writes it (`CreateWavBuffer`, `WriteString`), proved equal to `WavFile` |
| `Resampler` | resampler.dfy | the resampling loops (`ResampleChannel`, `ResampleAudio`), proved equal to the reference `Interpolated` |

Every operation has a partner:

- The encoder method is proved equal to the reference layout `WavFile`.
- `WavFile` is inverted by `ParseHeader` and `DecodeSample`. For every input, the header fields
  and every sample read back.
- The resampling loop is proved equal to the explicit two-point interpolation `Interpolated`.
  Its properties are stated over `Interpolated`.

Numbers are exact: samples and the resampling ratio are `real`, and rates and lengths are
integers. Where a value does not fit its field, the model wraps it explicitly modulo 2^16 or
2^32, as `DataView` does.

**Truncation, not rounding.** Rounding would be a natural reading of the asymmetric scale. The
code passes the scaled value to `setInt16`, whose ECMAScript ToInt16 truncates toward zero, and
the model follows the code (`Pcm16.Quantize`, `DataView.ToInt16`).

**Encoder input policy.** The encoder requires every channel array to hold exactly `length`
samples (`Audio.ChannelsAgree`). `createWavBuffer` loops over each channel's own length, so
with a mismatch the code does one of two things. A shorter channel leaves its remaining
sample slots at the `ArrayBuffer`'s zero fill. A longer channel makes `setInt16` throw a
`RangeError` at its first extra sample `i == length`, because that offset,
`length * 2 * channels + 2 * c`, is at least the data view's byte length; no buffer is returned.
The precondition leaves both outcomes out of the model.

## Model

| member | source | states |
|---|---|---|
| DataView.SetUint8 | ogg_to_wav_converter.js:175 | the byte at the offset becomes the value modulo 256; every other byte is unchanged |
| DataView.SetUint16 | ogg_to_wav_converter.js:113-128 | the two bytes at the offset hold the value little-endian; reading them back gives the value modulo 2^16; nothing else changes |
| DataView.SetUint32 | ogg_to_wav_converter.js:104-133 | the four bytes at the offset hold the value little-endian; reading them back gives the value modulo 2^32; nothing else changes |
| DataView.SetInt16 | ogg_to_wav_converter.js:161 | the two bytes hold ToInt16 of the number; reading them back as a signed 16-bit value gives ToInt16; nothing else changes |
| DataView.ToInt16 | ogg_to_wav_converter.js:161 | the result is in [-32768, 32767] and has the same residue modulo 2^16 as the number truncated toward zero |
| DataView.Truncate | ogg_to_wav_converter.js:161 | truncation toward zero: the magnitude never grows, is less than one away, and the sign is kept |
| DataView.LE32RoundTrip | ogg_to_wav_converter.js:104-133 | reading four little-endian bytes back gives the written value modulo 2^32 |
| DataView.ToUint16 | ogg_to_wav_converter.js:113-128 | the result is in [0, 2^16), equals the value when it already fits, and differs from it by a multiple of 2^16 |
| DataView.ToUint32 | ogg_to_wav_converter.js:104-133 | the result is in [0, 2^32), equals the value when it already fits, and differs from it by a multiple of 2^32 |
| JsMath.Abs | ogg_to_wav_converter.js:74 | the result is non-negative and is the number or its negation |
| JsMath.Min | ogg_to_wav_converter.js:155 | the result is at most both arguments and is one of them |
| JsMath.Max | ogg_to_wav_converter.js:155 | the result is at least both arguments and is one of them |
| JsMath.Floor | ogg_to_wav_converter.js:59-68 | the result is the greatest integer not above the number: `n <= x < n + 1` |
| DataView.Int16RoundTrip | ogg_to_wav_converter.js:161 | a signed 16-bit value survives its little-endian encoding |
| Pcm16.Scale | ogg_to_wav_converter.js:161 | the scaled value has the sample's sign; a sample in [-1, 1] scales into [-32768, 32767], with -1 going to -32768 and 1 to 32767 |
| Pcm16.Clamp | ogg_to_wav_converter.js:155 | the result is in [-1, 1]; it equals the sample inside that range and saturates at either end |
| Pcm16.Quantize | ogg_to_wav_converter.js:155-161 | the stored value is in [-32768, 32767]; any sample >= 1 gives 32767 and any sample <= -1 gives -32768; negative samples give values <= 0 and others give values >= 0 |
| Pcm16.NoWrapInRange | ogg_to_wav_converter.js:161 | for scaled values inside the 16-bit range, ToInt16 is plain truncation and never wraps |
| Pcm16.QuantizeTruncates | ogg_to_wav_converter.js:158-161 | inside [-1, 1] the stored value is the scaled sample truncated toward zero, not rounded |
| Pcm16.QuantizeMonotone | ogg_to_wav_converter.js:155-161 | a larger sample never stores a smaller value |
| WavEncoder.WriteString | ogg_to_wav_converter.js:173-177 | character `k` lands at `off + k` as its code modulo 256; every byte outside the string is unchanged |
| WavEncoder.TagWritten | ogg_to_wav_converter.js:100-130 | after writing an ASCII tag, its bytes spell the tag's identifier (RIFF, WAVE, "fmt ", data) |
| WavEncoder.WriteRiffDescriptor | ogg_to_wav_converter.js:100-106 | bytes 0-11 hold "RIFF", the little-endian RIFF size `36 + length`, and "WAVE"; no other byte changes |
| WavEncoder.WriteFmtChunk | ogg_to_wav_converter.js:108-128 | bytes 12-35 hold the fmt chunk: size 16, format 1, channels, rate, byte rate, block align, 16 bits; no other byte changes |
| WavEncoder.WriteDataChunkHeader | ogg_to_wav_converter.js:130-133 | bytes 36-43 hold "data" and the data size; no other byte changes |
| WavEncoder.WriteHeader | ogg_to_wav_converter.js:98-133 | the first 44 bytes become the reference header; the data region is untouched |
| WavEncoder.WriteChannel | ogg_to_wav_converter.js:141-163 | every sample of one channel is stored at its interleaved offset; the header and the samples already stored for other channels are kept |
| WavEncoder.OtherSamplesKept | ogg_to_wav_converter.js:150-161 | writing one sample never disturbs a sample stored at another (frame, channel) |
| WavEncoder.AllSamplesStored | ogg_to_wav_converter.js:139-163 | a buffer with the header and every sample at its offset is byte-for-byte the reference file, so no data byte is left unwritten |
| WavEncoder.CreateWavBuffer | ogg_to_wav_converter.js:89-166 | the buffer is `44 + length*channels*2` bytes and equals the reference layout `WavFile` |
| WavLayout.Header | ogg_to_wav_converter.js:98-133 | the header is exactly 44 bytes |
| WavLayout.DataLength | ogg_to_wav_converter.js:93 | the data size is even (whole 16-bit samples) and is zero exactly when there are no frames or no channels |
| WavLayout.WavFile | ogg_to_wav_converter.js:93-95 | the file is `44 + length*channels*2` bytes |
| WavLayout.HeaderFields | ogg_to_wav_converter.js:100-133 | each header field sits at its fixed offset: tags at 0, 8, 12 and 36; sizes, format, channels, rate, byte rate, block align and bit depth at 4 to 40 |
| WavLayout.ParseHeaderOf | ogg_to_wav_converter.js:100-133 | parsing a header returns every field it was built from, each reduced modulo its width |
| WavLayout.HeaderRoundTrip | ogg_to_wav_converter.js:100-133 | parsing the encoded file returns the header fields modulo their widths, for every input |
| WavLayout.HeaderRoundTripExact | ogg_to_wav_converter.js:115-133 | when each value fits its field, the parsed channel count, rate and data size equal the inputs exactly, and the RIFF size is `36 + dataSize` |
| WavLayout.EmptyAudioIsHeaderOnly | ogg_to_wav_converter.js:93-95 | a buffer with no frames encodes as the bare header, with data size 0 and RIFF size 36 |
| WavLayout.SampleOffset | ogg_to_wav_converter.js:150 | the offset of a frame and channel is never negative; its range, injectivity and coverage are the lemmas below |
| WavLayout.SampleOffsetInRange | ogg_to_wav_converter.js:150 | every sample offset leaves room for its two bytes inside the data region |
| WavLayout.SampleOffsetsApart | ogg_to_wav_converter.js:150 | distinct (frame, channel) pairs get non-overlapping byte pairs, so the offset is injective |
| WavLayout.SampleOffsetCovers | ogg_to_wav_converter.js:150 | every data byte belongs to some (frame, channel) sample |
| WavLayout.FrameOrder | ogg_to_wav_converter.js:150 | all samples of an earlier frame come before any sample of a later frame |
| WavLayout.FrameBytesAt | ogg_to_wav_converter.js:150-161 | inside a frame, channel `c` occupies bytes `2c` and `2c + 1`; in the part of a frame from channel `from` on, it sits at `2(c - from)` |
| WavLayout.InterleaveAt | ogg_to_wav_converter.js:141-161 | in the data region, frame `i` of channel `c` holds the little-endian quantised sample at its offset |
| WavLayout.SampleRoundTrip | ogg_to_wav_converter.js:150-161 | reading a sample back from the encoded file gives its quantised value |
| WavLayout.DecodeRoundTrip | ogg_to_wav_converter.js:139-163 | reading every sample back gives exactly the quantised channels |
| Resampler.Ratio | ogg_to_wav_converter.js:55 | the ratio is positive and equals 1 at equal rates |
| Resampler.OutputLength | ogg_to_wav_converter.js:59 | the output length is the floor of `N / ratio` |
| Resampler.Interpolated | ogg_to_wav_converter.js:66-77 | the closed form of one output sample; a position with no neighbour inside the input gives 0. Its other properties are the lemmas below |
| Resampler.Contribution | ogg_to_wav_converter.js:72-75 | a neighbour outside the input adds nothing; with `frac` in [0, 1] the left neighbour is weighted `1 - frac` and the right one `frac` |
| Resampler.TentWeights | ogg_to_wav_converter.js:74 | for `frac` in [0, 1), the weights `1 - abs(j - frac)` are `1 - frac` and `frac`, and they sum to 1 |
| Resampler.SourceSumIsInterpolated | ogg_to_wav_converter.js:69-76 | the two summands add up to the reference interpolation |
| Resampler.ResampleChannel | ogg_to_wav_converter.js:59-78 | the output has `floor(N / ratio)` samples, and each equals the reference interpolation at `i * ratio` |
| Resampler.ResampleAudio | ogg_to_wav_converter.js:51-86 | no channel 0 or an unusable rate is an error. Otherwise the result is one channel at the target rate, with `floor(N / ratio)` samples of channel 0 interpolated. At equal rates that channel is unchanged |
| Resampler.FloorOfQuotient | ogg_to_wav_converter.js:59 | the floor of an exact quotient of naturals is integer division |
| Resampler.OutputLengthExact | ogg_to_wav_converter.js:55-59 | the output length is `N * targetRate / sourceRate` in integer division |
| Resampler.EmptyInputEmptyOutput | ogg_to_wav_converter.js:59 | an empty input gives an empty output |
| Resampler.NeighboursInRange | ogg_to_wav_converter.js:66-73 | for every output index, `floor(i * ratio)` lies in [0, N) and `frac` in [0, 1) |
| Resampler.ReadsOnlyNeighbours | ogg_to_wav_converter.js:66-77 | an output depends only on the inputs at `floor(i * ratio)` and the index after it |
| Resampler.ConvexWhenInRange | ogg_to_wav_converter.js:66-77 | when both neighbours exist, the output is their convex combination with weights `1 - frac` and `frac`, so it lies between them |
| Resampler.EdgeNotRenormalised | ogg_to_wav_converter.js:72-76 | at the last input, the missing right neighbour is dropped and its weight is not given to the left one |
| Resampler.BoundPreserved | ogg_to_wav_converter.js:66-77 | if every input lies in [-m, m], so does every output |
| Resampler.IdentityAtEqualRates | ogg_to_wav_converter.js:55-78 | at equal rates the output has the input's length and copies every sample |
| Resampler.Decimation | ogg_to_wav_converter.js:66-77 | with an integer ratio `k`, output `i` is exactly input `i * k` |

## Left out

- `readFile`, `decodeWav`, `toWav` and `resampleWav` are left out: FileReader I/O, the host's decoder `decodeAudioData`, Promise plumbing and `Blob` construction.
- `audioContext.createBuffer` and `copyToChannel` (lines 79-85) are left out. The resampled buffer is returned as a plain record. The host also refuses a buffer of length 0 and rates outside its supported range; the model accepts both.
- IEEE-754 doubles are left out, and numbers are exact. The float division in `ratio` and in the output length may differ from the exact `floor(N * target / source)`. Outputs are stored in a `Float32Array`, which rounds them to single precision.
- NaN and infinite samples are left out. ToInt16 maps NaN to 0.
- Sample rates are integers. Fractional rates are not modelled; decoded audio normally has an integral rate.
- Resampler.ResampleAudio: the host raises one of several exceptions for an unusable rate (a `RangeError` from `Float32Array`, or a refusal from `createBuffer`). The model reports all of them as one `InvalidSampleRate` error.
- WavEncoder.WriteString: takes a Dafny `string`, a sequence of Unicode scalar values, while `charCodeAt` counts UTF-16 code units. A character outside the Basic Multilingual Plane is written as one byte here and as two bytes (its surrogate halves modulo 256) by the code. Every tag the encoder writes is ASCII, where the two agree.
- WavEncoder.CreateWavBuffer: requires every channel array to hold exactly `length` samples. The zero-filled tail of a shorter channel and the `RangeError` raised by a longer one are not modelled.
- Allocation failure of a very large `ArrayBuffer` is left out.
