/**
 * The host program: its global flags, the four actions it registers, the
 * voice set-up at the start of `main`, and the keyboard shortcuts of the
 * frame loop. Capture, detection and drawing are outside the model.
 */
module FaceDetect {
  import opened Wrappers
  import opened Text
  import opened CommandTable
  import opened Wav
  import opened Transcription
  import opened VoiceCommand

  /** The host functions registered as voice actions. */
  datatype Action = ToggleFaceDetection | ToggleFps | ExitApplication | TakeScreenshot

  /** The host's flags; `exited` records that `exit(0)` was reached. */
  datatype Flags = Flags(faceDetectionEnabled: bool, showFps: bool, voiceCommandsEnabled: bool, exited: bool)

  /** Detection on, FPS overlay off, voice commands off. */
  const InitialFlags: Flags := Flags(true, false, false, false)

  /** What each action does to the flags; the screenshot action only prints. */
  function Apply(a: Action, f: Flags): (r: Flags)
    ensures r.voiceCommandsEnabled == f.voiceCommandsEnabled
    ensures r.exited <==> f.exited || a == ExitApplication
    ensures r.faceDetectionEnabled != f.faceDetectionEnabled <==> a == ToggleFaceDetection
    ensures r.showFps != f.showFps <==> a == ToggleFps
  {
    match a
    case ToggleFaceDetection => f.(faceDetectionEnabled := !f.faceDetectionEnabled)
    case ToggleFps => f.(showFps := !f.showFps)
    case ExitApplication => f.(exited := true)
    case TakeScreenshot => f
  }

  /** Each toggle flips its own flag and no other; applied twice it restores the flags. */
  lemma TogglesFlipOneFlag(f: Flags)
    ensures Apply(ToggleFaceDetection, f) == f.(faceDetectionEnabled := !f.faceDetectionEnabled)
    ensures Apply(ToggleFps, f) == f.(showFps := !f.showFps)
    ensures Apply(ToggleFaceDetection, Apply(ToggleFaceDetection, f)) == f
    ensures Apply(ToggleFps, Apply(ToggleFps, f)) == f
    ensures Apply(ToggleFaceDetection, Apply(ToggleFps, f)) == Apply(ToggleFps, Apply(ToggleFaceDetection, f))
  {
  }

  /** The table `main` registers, phrase by phrase. */
  const VoiceTable: map<string, Action> := map[
    "start detection" := ToggleFaceDetection,
    "stop detection" := ToggleFaceDetection,
    "toggle detection" := ToggleFaceDetection,
    "show fps" := ToggleFps,
    "hide fps" := ToggleFps,
    "exit" := ExitApplication,
    "quit" := ExitApplication,
    "close" := ExitApplication,
    "screenshot" := TakeScreenshot,
    "capture" := TakeScreenshot]

  /** The phrases of the host's table. */
  lemma VoicePhrases(k: string)
    requires k in VoiceTable
    ensures k in {"capture", "close", "exit", "hide fps", "quit", "screenshot", "show fps", "start detection",
                  "stop detection", "toggle detection"}
  {
  }

  /** The action each registered phrase runs: three toggle detection, two the FPS overlay, three exit, two take a screenshot. */
  lemma VoiceTableActions(k: string)
    requires k in VoiceTable
    ensures VoiceTable[k] == ToggleFaceDetection <==> k in {"start detection", "stop detection", "toggle detection"}
    ensures VoiceTable[k] == ToggleFps <==> k in {"show fps", "hide fps"}
    ensures VoiceTable[k] == ExitApplication <==> k in {"exit", "quit", "close"}
    ensures VoiceTable[k] == TakeScreenshot <==> k in {"screenshot", "capture"}
  {
    VoicePhrases(k);
  }

  /** The phrases of the host's table that sort before "stop detection". */
  lemma PhrasesBeforeStopDetection(k: string)
    requires k in VoiceTable && Less(k, "stop detection")
    ensures k in {"capture", "close", "exit", "hide fps", "quit", "screenshot", "show fps", "start detection"}
  {
    VoicePhrases(k);
  }

  /** Each of them lacks a letter of "stop detection". */
  lemma EarlierPhraseMissesStopDetection(transcript: string, k: string)
    requires Lower(transcript) == "stop detection"
    requires k in {"capture", "close", "exit", "hide fps", "quit", "screenshot", "show fps", "start detection"}
    ensures !Matches(k, transcript)
  {
    assert forall c :: c in Lower(transcript) ==> c in {'s', 't', 'o', 'p', ' ', 'd', 'e', 'c', 'i', 'n'};
    if k == "capture" {
      AbsentLetterBlocksMatch(k, transcript, 'u');
    } else if k == "close" {
      AbsentLetterBlocksMatch(k, transcript, 'l');
    } else if k == "exit" {
      AbsentLetterBlocksMatch(k, transcript, 'x');
    } else if k == "hide fps" {
      AbsentLetterBlocksMatch(k, transcript, 'h');
    } else if k == "quit" {
      AbsentLetterBlocksMatch(k, transcript, 'q');
    } else if k == "screenshot" {
      AbsentLetterBlocksMatch(k, transcript, 'r');
    } else if k == "show fps" {
      AbsentLetterBlocksMatch(k, transcript, 'w');
    } else {
      AbsentLetterBlocksMatch(k, transcript, 'a');
    }
  }

  /** "stop detection" in any case matches its own phrase and no phrase before it. */
  lemma StopDetectionHeard(transcript: string)
    requires Lower(transcript) == "stop detection"
    ensures Matches("stop detection", transcript)
    ensures forall k :: k in VoiceTable && Less(k, "stop detection") ==> !Matches(k, transcript)
  {
    assert Lower("stop detection") == "stop detection";
    OccurrenceMatches("stop detection", transcript, 0);
    forall k | k in VoiceTable && Less(k, "stop detection") ensures !Matches(k, transcript) {
      PhrasesBeforeStopDetection(k);
      EarlierPhraseMissesStopDetection(transcript, k);
    }
  }

  lemma StopDetectionEntry()
    ensures "stop detection" in VoiceTable && VoiceTable["stop detection"] == ToggleFaceDetection
  {
  }

  /** "stop detection", said in any letter case, fires its own entry. */
  lemma StopDetectionFires(es: seq<Entry<Action>>, transcript: string)
    requires Sorted(es) && Table(es) == VoiceTable
    requires Lower(transcript) == "stop detection"
    ensures FirstMatch(es, transcript) == Some(Entry("stop detection", ToggleFaceDetection))
  {
    StopDetectionHeard(transcript);
    StopDetectionEntry();
    var m := Table(es);
    assert forall k :: k in m && Less(k, "stop detection") ==> !Matches(k, transcript);
    DispatchSpec(es, transcript, Entry("stop detection", ToggleFaceDetection));
  }

  /**
   * The action it fires toggles detection rather than switching it off:
   * detection ends up the opposite of what it was, and nothing else changes.
   */
  lemma StopDetectionToggles(es: seq<Entry<Action>>, transcript: string, f: Flags)
    requires Sorted(es) && Table(es) == VoiceTable
    requires Lower(transcript) == "stop detection"
    ensures FirstMatch(es, transcript).Some?
    ensures Apply(FirstMatch(es, transcript).value.action, f) == f.(faceDetectionEnabled := !f.faceDetectionEnabled)
  {
    StopDetectionFires(es, transcript);
  }

  /** The phrases of the host's table that sort no later than "show fps", and their actions. */
  lemma PhrasesUpToShowFps(k: string)
    requires k in VoiceTable && (k == "show fps" || Less(k, "show fps"))
    ensures k in {"capture", "close", "exit", "hide fps", "quit", "screenshot", "show fps"}
    ensures VoiceTable[k] != ToggleFaceDetection
    ensures k == "show fps" ==> VoiceTable[k] == ToggleFps
  {
    VoicePhrases(k);
  }

  /**
   * With the host's table, a transcript that contains "show fps" never
   * toggles detection, whatever else it says ("show fps" comes before every
   * detection phrase in byte order). If none of the six phrases before
   * "show fps" occurs, the FPS toggle is what fires.
   */
  lemma ShowFpsOutranksDetection(es: seq<Entry<Action>>, transcript: string)
    requires Sorted(es) && Table(es) == VoiceTable && Matches("show fps", transcript)
    ensures FirstMatch(es, transcript).Some?
    ensures FirstMatch(es, transcript).value.action != ToggleFaceDetection
    ensures (!Matches("capture", transcript) && !Matches("close", transcript) && !Matches("exit", transcript)
             && !Matches("hide fps", transcript) && !Matches("quit", transcript) && !Matches("screenshot", transcript))
        ==> FirstMatch(es, transcript) == Some(Entry("show fps", ToggleFps))
  {
    FiredPhraseIsNoLater(es, transcript, "show fps");
    var fired := FirstMatch(es, transcript).value;
    PhrasesUpToShowFps(fired.phrase);
  }

  /** "please take a screenshot now" in any case holds "screenshot" but not "exit". */
  lemma ScreenshotHeard(transcript: string)
    requires Lower(transcript) == "please take a screenshot now"
    ensures Matches("screenshot", transcript) && !Matches("exit", transcript)
  {
    assert Lower("screenshot") == "screenshot";
    assert Lower(transcript)[14..24] == "screenshot";
    OccurrenceMatches("screenshot", transcript, 14);
    AbsentLetterBlocksMatch("exit", transcript, 'x');
  }

  /**
   * The scenario of a two-entry registry: "please take a screenshot now", in
   * any letter case, fires the screenshot action and not the exit action.
   */
  lemma ScreenshotScenario(es: seq<Entry<Action>>, transcript: string)
    requires Sorted(es) && Table(es) == map["exit" := ExitApplication, "screenshot" := TakeScreenshot]
    requires Lower(transcript) == "please take a screenshot now"
    ensures FirstMatch(es, transcript) == Some(Entry("screenshot", TakeScreenshot))
  {
    ScreenshotHeard(transcript);
    DispatchSpec(es, transcript, Entry("screenshot", TakeScreenshot));
  }

  /** The ten registrations, applied one after another, add the host's table. */
  lemma RegistrationsAddVoiceTable(m: map<string, Action>)
    ensures m["start detection" := ToggleFaceDetection]["stop detection" := ToggleFaceDetection]
      ["toggle detection" := ToggleFaceDetection]["show fps" := ToggleFps]["hide fps" := ToggleFps]
      ["exit" := ExitApplication]["quit" := ExitApplication]["close" := ExitApplication]
      ["screenshot" := TakeScreenshot]["capture" := TakeScreenshot] == m + VoiceTable
  {
  }

  /** What a key code from the frame loop does. */
  datatype KeyOutcome = Quit | Run(action: Action) | Ignore

  const Escape: int := 27

  /** `int key = waitKey(30) & 0xFF;` and the tests on `key` that follow. */
  function OnKey(rawKey: int): (r: KeyOutcome)
    ensures r == Quit <==> rawKey % 0x100 == Escape
    ensures r.Run? ==> r.action != ExitApplication
    ensures r.Run? <==> rawKey % 0x100 in {'d' as int, 'D' as int, 'f' as int, 'F' as int, 's' as int, 'S' as int}
  {
    var key := rawKey % 0x100;
    if key == Escape then Quit
    else if key == 'd' as int || key == 'D' as int then Run(ToggleFaceDetection)
    else if key == 'f' as int || key == 'F' as int then Run(ToggleFps)
    else if key == 's' as int || key == 'S' as int then Run(TakeScreenshot)
    else Ignore
  }

  /**
   * Shortcuts ignore letter case and look only at the low byte; "no key"
   * (`waitKey` returns -1, masked to 255) does nothing.
   */
  lemma KeyShortcuts(rawKey: int)
    ensures OnKey(rawKey) == OnKey(rawKey + 0x100)
    ensures OnKey(-1) == Ignore
    ensures OnKey('d' as int) == OnKey('D' as int) == Run(ToggleFaceDetection)
    ensures OnKey('f' as int) == OnKey('F' as int) == Run(ToggleFps)
    ensures OnKey('s' as int) == OnKey('S' as int) == Run(TakeScreenshot)
    ensures OnKey(rawKey) != Run(ExitApplication)
  {
  }

  /** The global variables of the host program. */
  class Host {
    var faceDetectionEnabled: bool
    var showFps: bool
    var voiceCommandsEnabled: bool
    var openaiApiKey: string
    var exited: bool

    function State(): (f: Flags)
      reads this
    {
      Flags(faceDetectionEnabled, showFps, voiceCommandsEnabled, exited)
    }

    constructor ()
      ensures State() == InitialFlags && openaiApiKey == ""
    {
      faceDetectionEnabled, showFps, voiceCommandsEnabled := true, false, false;
      openaiApiKey := "";
      exited := false;
    }

    method ToggleFaceDetection()
      modifies this`faceDetectionEnabled
      ensures State() == Apply(Action.ToggleFaceDetection, old(State()))
    {
      faceDetectionEnabled := !faceDetectionEnabled;
    }

    method ToggleFps()
      modifies this`showFps
      ensures State() == Apply(Action.ToggleFps, old(State()))
    {
      showFps := !showFps;
    }

    method ExitApplication()
      modifies this`exited
      ensures State() == Apply(Action.ExitApplication, old(State()))
    {
      exited := true;
    }

    method TakeScreenshot()
      ensures State() == Apply(Action.TakeScreenshot, old(State()))
    {
    }

    /** Calls the host function an action stands for. */
    method Perform(a: Action)
      modifies this`faceDetectionEnabled, this`showFps, this`exited
      ensures State() == Apply(a, old(State()))
    {
      match a
      case ToggleFaceDetection => ToggleFaceDetection();
      case ToggleFps => ToggleFps();
      case ExitApplication => ExitApplication();
      case TakeScreenshot => TakeScreenshot();
    }

    /** The keyboard shortcuts at the end of each frame; `quit` ends the frame loop. */
    method HandleKey(rawKey: int) returns (quit: bool)
      modifies this`faceDetectionEnabled, this`showFps
      ensures quit <==> OnKey(rawKey) == Quit
      ensures State() == if OnKey(rawKey).Run? then Apply(OnKey(rawKey).action, old(State())) else old(State())
    {
      var key := rawKey % 0x100;
      if key == Escape {
        return true;
      }
      if key == 'd' as int || key == 'D' as int {
        ToggleFaceDetection();
      }
      if key == 'f' as int || key == 'F' as int {
        ToggleFps();
      }
      if key == 's' as int || key == 'S' as int {
        TakeScreenshot();
      }
      return false;
    }

    /** The ten `registerCommand` calls of `main`. */
    method RegisterVoiceCommands(p: VoiceCommandProcessor<Action>)
      requires p.Valid()
      modifies p`commands
      ensures p.Valid()
      ensures p.Commands() == old(p.Commands()) + VoiceTable
    {
      ghost var before := p.Commands();
      p.RegisterCommand("start detection", Action.ToggleFaceDetection);
      p.RegisterCommand("stop detection", Action.ToggleFaceDetection);
      p.RegisterCommand("toggle detection", Action.ToggleFaceDetection);
      p.RegisterCommand("show fps", Action.ToggleFps);
      p.RegisterCommand("hide fps", Action.ToggleFps);
      p.RegisterCommand("exit", Action.ExitApplication);
      p.RegisterCommand("quit", Action.ExitApplication);
      p.RegisterCommand("close", Action.ExitApplication);
      p.RegisterCommand("screenshot", Action.TakeScreenshot);
      p.RegisterCommand("capture", Action.TakeScreenshot);
      RegistrationsAddVoiceTable(before);
    }

    /**
     * The start of `main`: voice is enabled iff the environment holds a key
     * (even an empty one); the commands are registered and listening started
     * only if it is enabled and `initialize` succeeds.
     */
    method SetUpVoice(envKey: Option<string>, audio: AudioEnv, streamStartOk: bool)
      returns (p: VoiceCommandProcessor<Action>)
      requires !voiceCommandsEnabled
      modifies this`openaiApiKey, this`voiceCommandsEnabled
      ensures fresh(p) && p.Valid()
      ensures !p.recording && p.audioBuffer == []
      ensures envKey.Some? ==> && p.apiKey == envKey.value
                               && p.curlReady == (envKey.value != "")
                               && p.streamOpen == (envKey.value != "" && AudioInitSucceeds(audio))
      ensures voiceCommandsEnabled <==> envKey.Some?
      ensures envKey.Some? ==> openaiApiKey == envKey.value
      ensures envKey.None? ==> openaiApiKey == old(openaiApiKey) && p.apiKey == "" && !p.curlReady && !p.streamOpen
      ensures var ready := envKey.Some? && envKey.value != "" && AudioInitSucceeds(audio);
        && (ready ==> p.Commands() == VoiceTable)
        && (!ready ==> p.commands == [])
        && (p.listening <==> ready && streamStartOk)
    {
      if envKey.Some? {
        openaiApiKey := envKey.value;
        voiceCommandsEnabled := true;
      }
      p := new VoiceCommandProcessor<Action>();
      var initialized := false;
      if voiceCommandsEnabled {
        initialized := p.Initialize(openaiApiKey, audio);
      }
      if initialized {
        assert p.Commands() == map[];
        RegisterVoiceCommands(p);
        assert map[] + VoiceTable == VoiceTable;
        p.StartListening(streamStartOk);
      }
    }

    /** One pass of the voice worker; the action that fires runs on the host's flags. */
    method VoiceCycle(p: VoiceCommandProcessor<Action>, blocks: seq<seq<Word32>>, env: RequestEnv)
      returns (fired: Option<Entry<Action>>)
      requires p.Valid() && p.listening
      modifies p`recording, p`audioBuffer, this`faceDetectionEnabled, this`showFps, this`exited
      ensures p.Valid()
      ensures !p.recording && p.audioBuffer == Concat(blocks)
      ensures var snapshot := Concat(blocks);
        var text := if snapshot == [] then "" else WhisperRequest(snapshot, env).text;
        fired == if text == "" then None else FirstMatch(p.commands, text)
      ensures State() == if fired.Some? then Apply(fired.value.action, old(State())) else old(State())
    {
      var snapshot, transcribed, transcription;
      snapshot, transcribed, transcription, fired := p.ProcessAudioIteration(blocks, env);
      if fired.Some? {
        Perform(fired.value.action);
      }
    }

    /** The end of `main` and the processor's destructor. */
    method Shutdown(p: VoiceCommandProcessor<Action>)
      requires p.Valid()
      modifies p`listening, p`recording, p`workerRunning, p`streamOpen, p`curlReady
      ensures p.Valid()
      ensures !p.listening && !p.recording && !p.workerRunning && !p.streamOpen && !p.curlReady
    {
      if voiceCommandsEnabled {
        p.StopListening();
      }
      p.Destroy();
    }
  }
}
