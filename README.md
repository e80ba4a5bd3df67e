# facedetect voice commands — a Dafny model

The program is a webcam face-detection viewer. It also listens for spoken
commands. While it is listening, a `VoiceCommandProcessor` runs in cycles:

- It records three seconds of 16 kHz mono 32-bit float audio from the capture
  callback into a shared buffer.
- It copies that buffer and writes the copy as a WAVE file.
- It uploads the file for transcription.
- It runs the action of the first registered phrase that occurs in the
  transcript. This test ignores ASCII case, and the phrases are tried in
  ascending byte order of `std::map<std::string, …>`.

The host program keeps a few global flags (face detection, FPS overlay, voice
enabled). It registers ten phrases for four actions, and it maps the keys d/D, f/F
and s/S to three of them; ESC leaves the frame loop instead of calling
`exitApplication`.

The model has one module for each part of the program:

- `Text`: ASCII lower-casing, `std::string::find` (the leftmost occurrence),
  the case-insensitive match test, and the byte-wise string order.
- `CommandTable`: `commands_` as a strictly sorted sequence of entries, with
  its dictionary view `Table`, `registerCommand` as a sorted
  insert-or-overwrite, and the first-match dispatch rule.
- `Wav`: the 44-byte little-endian header and the sample bytes, with a decoder
  and round-trip lemmas.
- `Transcription`: `makeWhisperAPIRequest` as a function of what curl, the
  temporary file and the JSON reply report.
- `VoiceCommand`: the class `VoiceCommandProcessor`. Its fields are the flags,
  the buffer and the table, and its methods update them one cycle at a time.
- `FaceDetect`: the host's flags and actions, the registered table, the key
  dispatch, and the set-up and shutdown in `main`.
- `AudioParams` and `Wrappers`: shared constants and `Option`.

Calls into PortAudio, curl and the operating system become parameters that
say whether each call succeeded:

- `AudioEnv` covers the three PortAudio calls of stream set-up.
- `streamStartOk` covers `Pa_StartStream`.
- `RequestEnv` covers curl set-up, opening the temporary file, the transfer,
  and the JSON `text` field.
- the environment variable `OPENAI_API_KEY` is an `Option<string>`.
- the samples the driver delivers are a sequence of blocks.

## Dispatch order

`commands_` is a `std::map`, so `processCommand` tries the keys in ascending
byte order and stops at the first one that occurs in the transcript. At most
one action runs per transcript, and it is the one of the least matching key.

- `DispatchSpec` states this rule in both directions.
- `FiredPhraseIsNoLater`: when a registered phrase matches, the phrase that
  fires is that phrase or one before it in byte order.
- `ShowFpsOutranksDetection` shows the effect on the host's table: a
  transcript that holds "show fps" never toggles detection, even when it also
  holds "stop detection".

## Model

| member | source | states |
|---|---|---|
| Text.LowerChar | voice_command.cpp:306-308 | `::tolower` in the "C" locale: the result is never an upper-case letter, 'A'..'Z' become 'a'..'z' (code + 32), and every other byte is unchanged. |
| Text.Lower | voice_command.cpp:306-308 | The lower-cased transcript has the same length, and each byte is the `tolower` of the original byte (only 'A'..'Z' change). |
| Text.LowerRemovesUpper | voice_command.cpp:306-308 | After lower-casing, no upper-case ASCII letter is left, and every other byte is unchanged. |
| Text.LowerIdempotent | voice_command.cpp:312-314 | Lower-casing an already lower-cased string changes nothing. |
| Text.FindFrom | voice_command.cpp:316 | `FindFrom` (and `Find`, its call with start 0) models `std::string::find`: it returns the leftmost position at or after the start where the needle occurs, and `npos` only when there is no such position. |
| Text.FindSucceedsIffOccurs | voice_command.cpp:316 | The `!= npos` test succeeds exactly when the needle occurs somewhere in the haystack. |
| Text.FindEmpty | voice_command.cpp:316 | `find("")` gives position 0 for every string. |
| Text.Matches | voice_command.cpp:316 | The test `lower_transcription.find(lower_command) != npos` holds exactly when the lower-cased phrase occurs at some position of the lower-cased transcript. |
| Text.MatchesIgnoresCase | voice_command.cpp:306-316 | The match test depends only on the lower-cased phrase and the lower-cased transcript. |
| Text.OccurrenceMatches | voice_command.cpp:316 | A phrase that occurs, case-folded, at some position in the transcript matches it. |
| Text.MissingCharBlocksMatch | voice_command.cpp:316 | A phrase with a case-folded byte that the case-folded transcript lacks does not match. |
| Text.AbsentLetterBlocksMatch | voice_command.cpp:316 | A lower-case letter of the phrase that the case-folded transcript lacks rules the match out. |
| Text.EmptyPhraseMatches | voice_command.cpp:316 | The empty phrase matches every transcript. |
| Text.Less | voice_command.h:57 | The key order of `std::map<std::string, …>`; a key never sorts before itself. Its full meaning is `LessIsLexicographic`. |
| Text.LessIsLexicographic | voice_command.h:57 | The key order is the lexicographic byte order: either a proper prefix comes first, or the first differing byte decides. Both directions are proved. |
| Text.LessIrreflexive | voice_command.h:57 | No key sorts before itself. |
| Text.LessTransitive | voice_command.h:57 | The key order is transitive. |
| Text.LessTotal | voice_command.h:57 | Of two different keys, exactly one sorts first. |
| Text.EmptyIsLeast | voice_command.h:57 | The empty key sorts before every non-empty key. |
| CommandTable.Table | voice_command.h:57 | The map view of the entries. It is a plain definition; `TableKeys` and `TableOfSorted` state its keys and values. |
| CommandTable.TableKeys | voice_command.h:57 | The dictionary's keys are the entries' phrases, and every key with its value is an entry. |
| CommandTable.TableOfSorted | voice_command.h:57 | In a sorted table, every entry is in the dictionary with its own action, and there is one key per entry. |
| CommandTable.Insert | voice_command.cpp:139-141 | After `commands_[command] = callback`, the new entry is present, and every entry is either the new one or an old one. |
| CommandTable.InsertSorted | voice_command.cpp:139-141 | Inserting keeps the entries strictly sorted, so there are no duplicate keys. |
| CommandTable.InsertTable | voice_command.cpp:139-141 | As a dictionary, the table after inserting is the old one with that phrase bound to the new action. Re-registering a phrase replaces its action. |
| CommandTable.FirstMatch | voice_command.cpp:311-323 | Any entry that fires is in the table and matches the transcript. No entry fires only when no phrase matches. |
| CommandTable.FirstMatchIsFirst | voice_command.cpp:311-320 | The entry that fires is preceded, in iteration order, only by entries that do not match. |
| CommandTable.DispatchSpec | voice_command.cpp:311-323 | Nothing fires exactly when no key matches. An entry fires exactly when it is the table's binding for its key, that key matches, and no smaller key matches. |
| CommandTable.FiredPhraseIsNoLater | voice_command.cpp:311-320 | If a registered phrase matches, some table entry fires, and its phrase is that phrase or an earlier one, never a later one. |
| CommandTable.FirstMatchIgnoresCase | voice_command.cpp:306-316 | Transcripts that are equal after lower-casing fire the same entry. |
| CommandTable.EmptyPhraseShadowsAll | voice_command.cpp:311-320 | A registered empty phrase fires for every transcript. |
| Wav.ToWord32Small | voice_command.cpp:206 | `ToWord32` is the store into `uint32_t` (reduction mod 2^32); a size below 2^32 is kept unchanged. |
| Wav.Le16RoundTrip | voice_command.cpp:218-222 | Reading back the two little-endian bytes of a 16-bit field gives the field. |
| Wav.Le32RoundTrip | voice_command.cpp:206-207 | Reading back the four little-endian bytes of a 32-bit field gives the field. |
| Wav.ReadLe16Encodes | voice_command.cpp:218-222 | Any two bytes are the encoding of the 16-bit value read from them. |
| Wav.ReadLe32Encodes | voice_command.cpp:206-207 | Any four bytes are the encoding of the 32-bit value read from them. |
| Wav.EncodeHeader | voice_command.cpp:203-240 | The header is 44 bytes; `HeaderRoundTrip` and `DecodeHeaderExact` make it the inverse of `DecodeHeader`. |
| Wav.HeaderFor | voice_command.cpp:206-239 | The fields written for n samples are self-consistent: block align × 8 = channels × bits per sample, and byte rate = sample rate × block align. |
| Wav.HeaderRoundTrip | voice_command.cpp:202-240 | Decoding an encoded header, followed by any bytes, gives back every field. |
| Wav.DecodeHeaderExact | voice_command.cpp:202-240 | Any 44 bytes that decode as a header are exactly the encoding of the decoded fields. |
| Wav.SampleBytes | voice_command.cpp:243 | The sample vector's bytes are 4 per sample; `SamplesRoundTrip` decodes them back. |
| Wav.SamplesRoundTrip | voice_command.cpp:243 | Decoding the bytes of the sample vector gives back every sample. |
| Wav.WavBytes | voice_command.cpp:202-243 | The file is 44 bytes plus the declared data size. |
| Wav.HeaderFormat | voice_command.cpp:215-234 | The file's header decodes, and it declares fmt size 16, IEEE float (3), 1 channel, 16000 Hz, 64000 bytes/s, block align 4 and 32 bits per sample. |
| Wav.SizesAgree | voice_command.cpp:206-239 | For every sample count, the RIFF size is (36 + data size) mod 2^32, and the data chunk never claims more bytes than the samples hold. |
| Wav.WavSizes | voice_command.cpp:206-243 | While 36 + 4n fits 32 bits, the data size is 4n, the RIFF size is 36 + 4n, and the file is 8 + RIFF size bytes long. |
| Wav.WavBytesUntruncated | voice_command.cpp:239-243 | While the sizes fit 32 bits, the file is the header followed by every sample byte. |
| Wav.WavRoundTrip | voice_command.cpp:202-243 | While the sizes fit 32 bits, the file decodes to the header for n samples and to the exact sample sequence. |
| Wav.WriteWavHeader | voice_command.cpp:202-240 | The thirteen header writes, in source order, produce exactly the encoding of the header for n samples. |
| Wav.WriteWavFile | voice_command.cpp:202-243 | The header writes followed by the `data_size`-byte payload write produce exactly the file described above. |
| Transcription.WhisperRequest | voice_command.cpp:182-300 | Every failure gives "": no curl handle, no temporary file, a transfer error, or no `text` field. When everything succeeds, the result is the reply's text. A file is written exactly when curl and the temporary file are available, and it is the WAVE file for the samples. |
| Transcription.RecognisedTextUploadedSamples | voice_command.cpp:182-300 | While the sizes fit 32 bits (36 + 4n < 2^32), a non-empty transcription comes from an uploaded file that decodes to the capture header and the exact samples. |
| VoiceCommand.ConcatAppend | voice_command.cpp:95-98 | Gathering two runs of blocks one after the other gives their samples one after the other. |
| VoiceCommand.ConcatHoldsEveryBlock | voice_command.cpp:95-98 | The gathered samples hold every block whole and in delivery order, after the samples of all earlier blocks. |
| VoiceCommand.VoiceCommandProcessor.constructor | voice_command.cpp:18-20 | The processor starts not listening and not recording, with no stream and an empty buffer and table. |
| VoiceCommand.VoiceCommandProcessor.IsListening | voice_command.h:26 | Reports the listening flag. |
| VoiceCommand.VoiceCommandProcessor.Initialize | voice_command.cpp:27-40 | Stores the key. An empty key fails before curl or audio are touched. Otherwise curl is initialised and the result is that of stream set-up. No other field changes. |
| VoiceCommand.VoiceCommandProcessor.InitializeAudio | voice_command.cpp:42-76 | Succeeds exactly when PortAudio initialises, a default input exists and the stream opens. A stream exists afterwards if it existed before or the set-up succeeded. |
| VoiceCommand.VoiceCommandProcessor.CleanupAudio | voice_command.cpp:78-85 | Afterwards there is no stream and curl is released. |
| VoiceCommand.VoiceCommandProcessor.AudioCallback | voice_command.cpp:87-102 | While recording, the block's frames are appended to the buffer. Otherwise the buffer is unchanged. The result is always `paContinue`. |
| VoiceCommand.VoiceCommandProcessor.StartListening | voice_command.cpp:104-120 | Does nothing when already listening. Otherwise the processor is listening afterwards exactly when the stream exists and starts, and only then runs a worker. |
| VoiceCommand.VoiceCommandProcessor.StopListening | voice_command.cpp:122-137 | Afterwards the processor is not listening and has no worker. It stops recording if it was listening, and changes nothing if it was not. |
| VoiceCommand.VoiceCommandProcessor.RegisterCommand | voice_command.cpp:139-141 | The table stays sorted, and the phrase is bound to the new action. |
| VoiceCommand.VoiceCommandProcessor.ProcessCommand | voice_command.cpp:302-324 | The loop over the table fires exactly the entry `FirstMatch` describes, or none. |
| VoiceCommand.VoiceCommandProcessor.ProcessAudioIteration | voice_command.cpp:143-174 | One cycle ends with recording off and a snapshot that is the concatenation of the blocks delivered during the window. The snapshot is transcribed exactly when it is non-empty, and a non-empty transcript is dispatched. |
| VoiceCommand.VoiceCommandProcessor.Destroy | voice_command.cpp:22-25 | Afterwards the processor is not listening or recording, has no worker and no stream, and curl is released. |
| FaceDetect.Apply | facedetect.cpp:15-33 | What each action does to the flags: the voice flag never changes, only the exit action sets `exited`, and each toggle is the only action that changes its flag. |
| FaceDetect.TogglesFlipOneFlag | facedetect.cpp:15-23 | Each toggle flips its own flag only, applied twice it restores the flags, and the two toggles commute. |
| FaceDetect.VoiceTableActions | facedetect.cpp:50-59 | In the host's table, "start/stop/toggle detection" toggle detection, "show/hide fps" toggle the FPS overlay, "exit", "quit" and "close" exit, and "screenshot" and "capture" take a screenshot. |
| FaceDetect.StopDetectionFires | facedetect.cpp:50-59 | With the host's table, "stop detection" in any letter case fires the "stop detection" entry. |
| FaceDetect.StopDetectionToggles | facedetect.cpp:15-18 | The action it fires negates the detection flag and changes nothing else, so it also turns detection back on. |
| FaceDetect.ShowFpsOutranksDetection | facedetect.cpp:50-59 | A transcript holding "show fps" always fires some entry and never the detection toggle. If none of the six earlier phrases occurs, the entry is "show fps" → FPS toggle. |
| FaceDetect.ScreenshotScenario | voice_command.cpp:311-320 | With the table {"exit", "screenshot"}, "please take a screenshot now" in any case fires the screenshot entry. |
| FaceDetect.OnKey | facedetect.cpp:133-139 | A key quits exactly when its low byte is 27 (ESC), runs an action exactly when its low byte is d, D, f, F, s or S, and never runs the exit action. |
| FaceDetect.KeyShortcuts | facedetect.cpp:133-139 | Keys are compared on their low byte. No key (-1, masked to 255) does nothing. d/D, f/F and s/S run the same action in either case, and no key exits. |
| FaceDetect.Host.constructor | facedetect.cpp:10-13 | Detection starts on, the FPS overlay off, voice off and the key empty. |
| FaceDetect.Host.ToggleFaceDetection | facedetect.cpp:15-18 | Negates the detection flag only. |
| FaceDetect.Host.ToggleFps | facedetect.cpp:20-23 | Negates the FPS flag only. |
| FaceDetect.Host.ExitApplication | facedetect.cpp:25-28 | Records that the program exits. |
| FaceDetect.Host.TakeScreenshot | facedetect.cpp:30-33 | Changes no flag. |
| FaceDetect.Host.Perform | facedetect.cpp:15-33 | Running an action changes the flags as `Apply` says. |
| FaceDetect.Host.HandleKey | facedetect.cpp:133-139 | ESC ends the loop with no flag changed. d/D, f/F and s/S run their action. Any other key changes nothing. |
| FaceDetect.Host.RegisterVoiceCommands | facedetect.cpp:50-59 | The ten registrations add exactly the host's ten phrase bindings to the table. |
| FaceDetect.Host.SetUpVoice | facedetect.cpp:37-67 | Voice is enabled exactly when the variable is set, even to "". The processor then holds the key, curl is set up exactly when the key is non-empty, and the stream is open exactly when set-up also succeeds. The table is filled only in that case, and listening requires that and a started stream. The processor is not recording and its buffer is empty; without the variable its key stays "" and nothing is set up. |
| FaceDetect.Host.VoiceCycle | voice_command.cpp:143-174 | One cycle leaves the processor not recording, with the captured blocks as its buffer. It fires what `FirstMatch` gives on the transcript of those blocks, and that action updates the host's flags. |
| FaceDetect.Host.Shutdown | facedetect.cpp:142-146 | At the end of `main`, the processor stops listening and releases its stream and curl. |

## Left out

- PortAudio, the capture device and the driver thread: each library call is a
  success flag, and the driver's blocks are a parameter of the cycle.
- Thread scheduling, `std::mutex`, `std::atomic` and the sleeps: operations
  run one at a time. The cycle's recording window is the sequence of blocks
  delivered in it. The unlocked `audio_buffer_.clear()` at the start of a
  cycle, and its race with the callback, are not modelled.
- The `while (listening_)` loop of `processAudioData`: the model runs one
  pass of it (`ProcessAudioIteration`). The caller decides whether there is
  another pass, and the 500 ms pause is not modelled.
- curl, the HTTP request and its bearer header, the JSON parser, and the
  temporary file's path and removal: the model keeps only what they report.
  The API key is stored, but it plays no part in the request model.
- Float values: a sample is its 32-bit pattern, and the host's byte order is
  taken to be little-endian.
- Buffer length: there is no bound on how many samples a window gathers.
  The stream's block length of 1024 frames and the three-second window are
  left general: a cycle takes any sequence of blocks of any length.
- Strings: a `char` stands for one byte of a `std::string`, with its code read
  as `unsigned char`. The model does not restrict strings to codes 0..255, and
  every lemma holds for any `char`. Where `char` is signed, `::tolower` at
  voice_command.cpp:307 and 313 receives a byte of 0x80 or more as a negative
  `int`, which C leaves undefined; the model takes such a byte to come back
  unchanged, as the "C" locale gives in practice.
- `Pa_OpenStream` failing leaves the stream handle as it was. `Pa_StartStream`
  on a stream that was never opened is modelled as a failure.
- Console output, OpenCV capture, face detection, drawing and the FPS
  computation are not modelled. `exit(0)` is modelled as the `exited` flag
  rather than as ending the process.
- `main`'s early return when the webcam does not open is not modelled.
- The sample decoder reads whole 4-byte words and ignores a trailing partial
  word. The program has no decoder, so the model uses it only in the
  round-trip statements.
