/**
 * `VoiceCommandProcessor`: the listening/recording flags, the shared audio
 * buffer, the command table, and the operations that update them, run one at
 * a time.
 *
 * PortAudio, curl and the processing thread are reduced to what the code
 * observes of them: whether a library call succeeded (`AudioEnv`, the
 * `streamStartOk` argument, `RequestEnv`), the blocks of samples the driver
 * delivers, and a flag recording whether the worker thread is running.
 */
module VoiceCommand {
  import opened Wrappers
  import opened Text
  import opened CommandTable
  import opened Wav
  import opened Transcription
  import opened AudioParams

  /** What the three PortAudio calls of `initializeAudio` report. */
  datatype AudioEnv = AudioEnv(
    /** `Pa_Initialize()` returned `paNoError`. */
    paInitializeOk: bool,
    /** `Pa_GetDefaultInputDevice()` was not `paNoDevice`. */
    hasDefaultInput: bool,
    /** `Pa_OpenStream(…)` returned `paNoError`. */
    openStreamOk: bool)

  /** `initializeAudio` succeeds only if all three calls do. */
  predicate AudioInitSucceeds(audio: AudioEnv) {
    audio.paInitializeOk && audio.hasDefaultInput && audio.openStreamOk
  }

  /** The samples of successive driver blocks, in delivery order. */
  function Concat(blocks: seq<seq<Word32>>): (samples: seq<Word32>) {
    if blocks == [] then [] else Concat(blocks[..|blocks| - 1]) + blocks[|blocks| - 1]
  }

  /** Gathering two runs of blocks one after the other gathers their samples one after the other. */
  lemma {:induction false} ConcatAppend(a: seq<seq<Word32>>, b: seq<seq<Word32>>)
    ensures Concat(a + b) == Concat(a) + Concat(b)
    decreases |b|
  {
    if b == [] {
      assert a + b == a;
    } else {
      var front := b[..|b| - 1];
      assert (a + b)[..|a + b| - 1] == a + front;
      ConcatAppend(a, front);
    }
  }

  /** The gathered samples are the blocks' samples in order: every sample of block `i` sits after all samples of earlier blocks. */
  lemma {:induction false} ConcatHoldsEveryBlock(blocks: seq<seq<Word32>>, i: nat)
    requires i < |blocks|
    ensures Concat(blocks) == Concat(blocks[..i]) + blocks[i] + Concat(blocks[i + 1..])
  {
    assert blocks == blocks[..i] + ([blocks[i]] + blocks[i + 1..]);
    ConcatAppend(blocks[..i], [blocks[i]] + blocks[i + 1..]);
    ConcatAppend([blocks[i]], blocks[i + 1..]);
  }

  class VoiceCommandProcessor<A> {
    var apiKey: string
    var listening: bool
    var recording: bool
    /** `stream_ != nullptr`: `Pa_OpenStream` succeeded and the stream has not been closed. */
    var streamOpen: bool
    /** `curl_global_init` has run and `curl_global_cleanup` has not. */
    var curlReady: bool
    /** `processing_thread_` is joinable. */
    var workerRunning: bool
    var audioBuffer: seq<Word32>
    /** `commands_`, in ascending key order. */
    var commands: seq<Entry<A>>

    /**
     * The table is a `std::map`; a worker thread runs exactly while the
     * processor is listening; samples are recorded only while listening.
     */
    ghost predicate Valid()
      reads this
    {
      && Sorted(commands)
      && (workerRunning <==> listening)
      && (recording ==> listening)
      && (listening ==> streamOpen)
    }

    /** The command table as a dictionary. */
    function Commands(): (m: map<string, A>)
      reads this
    {
      Table(commands)
    }

    constructor ()
      ensures Valid()
      ensures !listening && !recording && !streamOpen && !curlReady && !workerRunning
      ensures audioBuffer == [] && commands == [] && apiKey == ""
    {
      apiKey := "";
      listening, recording := false, false;
      streamOpen, curlReady, workerRunning := false, false, false;
      audioBuffer := [];
      commands := [];
    }

    function IsListening(): (r: bool)
      reads this
      ensures r <==> listening
    {
      listening
    }

    /**
     * Stores the key; an empty key fails before curl or PortAudio are touched.
     * Otherwise curl is initialised and the result is that of `initializeAudio`.
     */
    method Initialize(key: string, audio: AudioEnv) returns (ok: bool)
      requires Valid()
      modifies this
      ensures Valid()
      ensures apiKey == key
      ensures key == "" ==> !ok && curlReady == old(curlReady) && streamOpen == old(streamOpen)
      ensures key != "" ==> curlReady && ok == AudioInitSucceeds(audio)
      ensures streamOpen == (old(streamOpen) || ok)
      ensures listening == old(listening) && recording == old(recording) && workerRunning == old(workerRunning)
      ensures audioBuffer == old(audioBuffer) && commands == old(commands)
    {
      apiKey := key;
      if apiKey == "" {
        ok := false;
        return;
      }
      curlReady := true;
      ok := InitializeAudio(audio);
    }

    /** Opens the capture stream; each of the three library calls can fail. */
    method InitializeAudio(audio: AudioEnv) returns (ok: bool)
      requires Valid()
      modifies this`streamOpen
      ensures Valid()
      ensures ok == AudioInitSucceeds(audio)
      ensures streamOpen == (old(streamOpen) || ok)
    {
      if !audio.paInitializeOk {
        return false;
      }
      if !audio.hasDefaultInput {
        return false;
      }
      if !audio.openStreamOk {
        return false;
      }
      streamOpen := true;
      return true;
    }

    /** Closes the stream and releases PortAudio and curl. */
    method CleanupAudio()
      requires Valid() && !listening
      modifies this`streamOpen, this`curlReady
      ensures Valid()
      ensures !streamOpen && !curlReady
    {
      if streamOpen {
        streamOpen := false;
      }
      curlReady := false;
    }

    /**
     * The capture callback: while recording, the block's `framesPerBuffer`
     * samples are appended to the buffer; otherwise nothing changes. The
     * stream always continues.
     */
    method AudioCallback(input: seq<Word32>, framesPerBuffer: nat) returns (result: int)
      requires Valid()
      requires framesPerBuffer <= |input|
      modifies this`audioBuffer
      ensures Valid()
      ensures audioBuffer == if recording then old(audioBuffer) + input[..framesPerBuffer] else old(audioBuffer)
      ensures result == PaContinue
    {
      if recording {
        audioBuffer := audioBuffer + input[..framesPerBuffer];
      }
      return PaContinue;
    }

    /**
     * A no-op while listening. Otherwise listening is switched on, then back
     * off if the stream does not start; only a started stream gets a worker.
     * A stream that was never opened does not start.
     */
    method StartListening(streamStartOk: bool)
      requires Valid()
      modifies this`listening, this`workerRunning
      ensures Valid()
      ensures old(listening) ==> listening && workerRunning == old(workerRunning)
      ensures !old(listening) ==> listening == (streamOpen && streamStartOk)
    {
      if listening {
        return;
      }
      listening := true;
      if !streamOpen || !streamStartOk {
        listening := false;
        return;
      }
      workerRunning := true;
    }

    /**
     * A no-op while not listening. Otherwise both flags drop, the stream is
     * stopped and the worker is joined.
     */
    method StopListening()
      requires Valid()
      modifies this`listening, this`recording, this`workerRunning
      ensures Valid()
      ensures !listening && !workerRunning
      ensures !old(listening) ==> recording == old(recording)
      ensures old(listening) ==> !recording
    {
      if !listening {
        return;
      }
      listening := false;
      recording := false;
      workerRunning := false;
    }

    /** `commands_[phrase] = action`. */
    method RegisterCommand(phrase: string, action: A)
      requires Valid()
      modifies this`commands
      ensures Valid()
      ensures commands == Insert(old(commands), phrase, action)
      ensures Commands() == old(Commands())[phrase := action]
    {
      InsertSorted(commands, phrase, action);
      InsertTable(commands, phrase, action);
      commands := Insert(commands, phrase, action);
    }

    /**
     * Walks the table in key order and stops at the first phrase that occurs,
     * ignoring ASCII case, in the transcript; returns the entry whose action
     * fires, if any.
     */
    method ProcessCommand(transcription: string) returns (fired: Option<Entry<A>>)
      ensures fired == FirstMatch(commands, transcription)
    {
      var lowerTranscription := Lower(transcription);
      var i := 0;
      while i < |commands|
        invariant 0 <= i <= |commands|
        invariant FirstMatch(commands, transcription) == FirstMatch(commands[i..], transcription)
      {
        var lowerCommand := Lower(commands[i].phrase);
        if Find(lowerTranscription, lowerCommand).Some? {
          return Some(commands[i]);
        }
        assert commands[i..][1..] == commands[i + 1..];
        i := i + 1;
      }
      return None;
    }

    /**
     * One pass of the `processAudioData` loop: arm recording and clear the
     * buffer; the driver then delivers `blocks` during the recording window;
     * disarm; copy the buffer; transcribe a non-empty copy; dispatch a
     * non-empty transcription.
     */
    method ProcessAudioIteration(blocks: seq<seq<Word32>>, env: RequestEnv)
      returns (snapshot: seq<Word32>, transcribed: bool, transcription: string, fired: Option<Entry<A>>)
      requires Valid() && listening
      modifies this`recording, this`audioBuffer
      ensures Valid()
      ensures !recording
      ensures audioBuffer == Concat(blocks) && snapshot == audioBuffer
      ensures transcribed <==> snapshot != []
      ensures transcription == if transcribed then WhisperRequest(snapshot, env).text else ""
      ensures fired == if transcription == "" then None else FirstMatch(commands, transcription)
    {
      recording := true;
      audioBuffer := [];
      var i := 0;
      while i < |blocks|
        invariant 0 <= i <= |blocks|
        invariant Valid() && recording
        invariant audioBuffer == Concat(blocks[..i])
      {
        var _ := AudioCallback(blocks[i], |blocks[i]|);
        assert blocks[..i + 1][..i] == blocks[..i];
        i := i + 1;
      }
      assert blocks[..|blocks|] == blocks;
      recording := false;
      snapshot := audioBuffer;
      transcribed, transcription, fired := false, "", None;
      if snapshot != [] {
        transcribed := true;
        transcription := WhisperRequest(snapshot, env).text;
        if transcription != "" {
          fired := ProcessCommand(transcription);
        }
      }
    }

    /** The destructor: stop listening, then release the audio and curl resources. */
    method Destroy()
      requires Valid()
      modifies this`listening, this`recording, this`workerRunning, this`streamOpen, this`curlReady
      ensures Valid()
      ensures !listening && !recording && !workerRunning && !streamOpen && !curlReady
    {
      StopListening();
      CleanupAudio();
    }
  }
}
