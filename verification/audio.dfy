/** The decoded audio record that both transforms consume and the resampler produces. */
module Audio {

  /**
   * An audio buffer as the host's audio API hands it over: a sample rate in Hz, the number of
   * frames per channel, and one array of floating-point samples per channel. Samples are
   * nominally in [-1, 1] but nothing guarantees it.
   */
  datatype AudioBuffer = AudioBuffer(sampleRate: nat, length: nat, channels: seq<seq<real>>)
  {
    function NumberOfChannels(): nat
    {
      |channels|
    }
  }

  /** Every channel array holds exactly `length` samples. */
  predicate ChannelsAgree(a: AudioBuffer)
  {
    forall c :: 0 <= c < |a.channels| ==> |a.channels[c]| == a.length
  }
}
