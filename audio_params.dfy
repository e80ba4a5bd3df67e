/** The fixed audio configuration of the voice-command processor. */
module AudioParams {
  const SampleRate: nat := 16000
  const Channels: nat := 1
  /** `sizeof(float)`: samples are 32-bit IEEE floats. */
  const FloatSize: nat := 4
  /** PortAudio's `paContinue`, the value the capture callback returns. */
  const PaContinue: int := 0
}
