/**
 * `makeWhisperAPIRequest` (reached through `transcribeAudio`): write the WAVE
 * file, upload it, and read the `text` field of the JSON reply.
 *
 * The network, curl and the JSON parser are outside the model; what they
 * report is the `RequestEnv` argument. The result is the transcription, with
 * `""` for every failure, together with the file contents that were written
 * for upload, if any.
 */
module Transcription {
  import opened Wrappers
  import opened Wav
  import opened AudioParams

  datatype RequestEnv = RequestEnv(
    /** `curl_easy_init()` returned a handle. */
    curlInitOk: bool,
    /** The temporary `temp_audio.wav` could be opened for writing. */
    tempFileOpenOk: bool,
    /** `curl_easy_perform` returned `CURLE_OK`. */
    performOk: bool,
    /** The reply parsed as JSON with a string field `text`, and that string; `None` otherwise. */
    responseText: Option<string>)

  datatype RequestResult = RequestResult(text: string, written: Option<seq<Byte>>)

  /**
   * The request and its failure paths in source order: no curl handle, no
   * temporary file, transport error, and a reply without a usable `text`
   * field all give `""`.
   */
  function WhisperRequest(samples: seq<Word32>, env: RequestEnv): (r: RequestResult)
    ensures r.text != "" ==> env.curlInitOk && env.tempFileOpenOk && env.performOk && env.responseText == Some(r.text)
    ensures !env.curlInitOk || !env.tempFileOpenOk || !env.performOk || env.responseText.None? ==> r.text == ""
    ensures env.curlInitOk && env.tempFileOpenOk && env.performOk && env.responseText.Some? ==> r.text == env.responseText.value
    ensures r.written.Some? <==> env.curlInitOk && env.tempFileOpenOk
    ensures r.written.Some? ==> r.written.value == WavBytes(samples)
  {
    if !env.curlInitOk then RequestResult("", None)
    else if !env.tempFileOpenOk then RequestResult("", None)
    else
      var file := WavBytes(samples);
      if !env.performOk then RequestResult("", Some(file))
      else match env.responseText
        case Some(t) => RequestResult(t, Some(file))
        case None => RequestResult("", Some(file))
  }

  /** A non-empty transcription always comes from a request that uploaded a well-formed file for these samples. */
  lemma RecognisedTextUploadedSamples(samples: seq<Word32>, env: RequestEnv)
    requires WhisperRequest(samples, env).text != ""
    requires 36 + FloatSize * |samples| < Word32Modulus
    ensures WhisperRequest(samples, env).written.Some?
    ensures |WhisperRequest(samples, env).written.value| == HeaderSize + FloatSize * |samples|
    ensures DecodeHeader(WhisperRequest(samples, env).written.value) == Some(HeaderFor(|samples|))
    ensures DecodeSamples(WhisperRequest(samples, env).written.value[HeaderSize..]) == samples
  {
    WavRoundTrip(samples);
  }
}
