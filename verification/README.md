# Verification of the voice-terminal firmware

A Dafny model of the parts of the ESP32 voice terminal where the logic is hardest, with proofs of
what they promise. The terminal streams microphone audio to a server over a websocket, receives
recognised text, a streamed reply and streamed speech, plays the speech through a DMA-fed I2S
output, and shows subtitles and a status bar on a 240x240 panel.

Code that changes an object in place is a class whose methods are proved against a specification
function of the old state; what the firmware promises is then proved about that function, over whole
runs. Code that only computes is a function with lemmas.

| part | modules | main results |
|---|---|---|
| arithmetic of sound | `Resampler`, `VolumeCurve` | chunked resampling equals a closed form, across refusals too; the volume curve is the square law up to its knee and a hyperbola above it, odd, monotone and cannot overflow |
| audio output | `Ring`, `AudioSpec`, `AudioOutput`, `AudioRuns` | what the DMA is given is, in order and with nothing lost, invented or held back, what was sent; a finished stream drains exactly if whole samples are queued |
| wire text | `Utf8`, `JsonScan`, `JsonTree`, `JsonText`, `Messages`, `Base64` | the scanner is exact on every printed tree; every escape is read as what it writes; every event survives the wire; the speech request reads back; base64 is the bit stream it should be |
| round guard | `RoundTracker` | its seven flags refine the history of events |
| subtitles | `Wrap`, `Display`, `SubtitleRuns` | no character lost, invented or reordered in any run; greedy wrapping is optimal |
| panel | `Font`, `Line`, `Raster`, `Screen`, `StatusBar`, `Frames`, `Panel`, `Renderer` | the incremental redraw shows the full rendering; on any panel, seven calls with nothing changing put every pixel right if and only if it can heal |
| two tasks | `Dispatch`, `Histories`, `LoopRuns`, `AudioInput`, `Firmware` | over every interleaving: round, subtitles and audio are exactly what the events call for, so replies are conserved and speech is delivered from the websocket to the DMA; no stale audio after an interrupt, uplink, capture and tracker agree about the microphone, and exactly when recording goes on while speech plays; in program order: the device listens again by itself exactly if the queue holds whole samples |

`Bytes`, `Options`, `Arithmetic` and `Numerals` hold the shared types and the arithmetic facts the
solver needs spelled out.

## Where the code and its own notes disagree

The model follows the code, and each of these follows from a statement proved below.

- `unescape` (src/voice_client.rs:541-583) does not end on every byte string: on a lone trailing
  backslash it makes no progress. It ends if and only if the backslashes at the very end of its input
  are even in number, and every slice the scanner hands it is like that, so `parse_server_message` is
  total all the same.
- Late text after an interrupt is meant to be hidden (src/voice_client.rs:180-181, the repository's
  README.md:197). Deltas are. A late `assistant.completed` is typed out, because src/main.rs:843-845
  does not ask the tracker. It adds nothing exactly if its text is what was streamed already or, when
  it does not continue a stream, if it is empty with nothing being typed or waiting: empty late text
  still pushes waiting text out.
- Errors are meant to restore hearing, that is, an uplink that is up and a capture that runs
  (src/voice_client.rs:325-329, the repository's README.md:199). Where the tracker says the
  microphone is off, an error does so exactly if the capture starts: src/main.rs:860-863 and 876-879
  raise the uplink flag even if it does not. Where the tracker says it is on, an error changes
  nothing, whether the device hears or not; after a start that was refused, or after a disconnect
  with the microphone on (src/main.rs:734-735 clears the uplink flag but not the tracker's), it
  does not. `LoopRuns.ErrorLeavesItUnheard` and `LoopRuns.ErrorAfterReconnectStaysDeaf` are such runs.
- Recording is meant to pause while speech plays, against the echo (src/main.rs:465-469). An error
  that arrives while speech plays turns it on again, for its handler does not ask what the main loop
  is doing. In every run from power-on the tracker says on while speech plays exactly if such an error
  came and nothing has switched the microphone since, and nothing is recorded unless it does;
  `LoopRuns.ErrorIsOverheard` is such a run.
- The volume popup is meant to show for 1500 ms (src/render.rs:285); as written
  (src/render.rs:286-289) it is hidden before the deadline and shows from the deadline on.
- A finished stream is meant to stop once played out. On the 16 kHz pass-through path a single byte
  fed to the ring can never be popped, and the stream then never stops. It stops if and only if an
  even number of bytes is queued.
- `feed` is documented to return the bytes written (src/audio_output.rs:199). When resampling it
  returns the bytes consumed: three samples at 24 kHz return six and write four. The two agree exactly
  if the input is ignored, passed through, or becomes as many samples as it has.
- The line-break branch of the typewriter (src/display.rs:277-283) is dead: trimming removes the
  newline it tests for.
- Passing write errors are meant to heal by themselves (src/render.rs:93-95). The panel is set up
  again, but what is remembered is kept. From then on, with every write taken and nothing changing,
  seven calls put every pixel right if and only if `Panel.Heals`: each row that will not be redrawn
  shows what is remembered, each row that will only be extended shows it outside the new columns, the
  two rows of pixels under the bar are black, and the bar is right unless its key differs. Otherwise
  the damage stays; `Renderer.DamageForGood` is such a run from power-on.
- A tone while speech is playing is meant to stop it first (src/audio_output.rs:392); the early
  return above that line makes it do nothing at all. `AudioRuns.ToneDuringSpeechIsLost` is such a run.

## Model

| member | source | states |
|---|---|---|
| `Resampler.ResamplingIsClosedForm` | src/audio_output.rs:214-242 | However a stream is cut into chunks, the output is the interpolation of the whole stream at positions k*rate/16000, ceil(n*16000/rate) samples of it, and the phase left is the remainder; up to a refusal by the ring it is a prefix |
| `Resampler.FeedIsClosedForm` | src/audio_output.rs:214-242 | One chunk continues the closed form of all input before it from whatever phase was carried over; a refused chunk filled the ring exactly |
| `Resampler.RefusedExactlyWhenTooLong` | src/audio_output.rs:224-229 | A chunk is abandoned if and only if the closed form needs more new samples than the ring has room for |
| `Resampler.FeedCount` | src/audio_output.rs:218-241 | From any phase, even one left by a refusal, a chunk gives as many samples as are due before its end, up to the room there is |
| `Resampler.FeedAt` | src/audio_output.rs:214-242 | From any carry, even one left by a refusal, output k of a chunk is the interpolation at position carried phase + k*rate/16000 |
| `Resampler.FeedCarries` | src/audio_output.rs:236-240 | What a chunk carries over: its last sample and the phase after it, or, when the ring was full, the sample and the phase at which the first output found no room |
| `Resampler.EmitIsClosedForm` | src/audio_output.rs:222-235 | The inner loop produces exactly the samples whose position lies inside the current input sample |
| `Resampler.InterpolationTruncates` | src/audio_output.rs:223 | The cast truncates the exact value toward zero |
| `Resampler.BetweenNeighbours` | src/audio_output.rs:223 | Every output lies between its two neighbours, so the 16-bit cast never wraps |
| `VolumeCurve.Apply` | src/audio_output.rs:473-483 | The shift by 16 stays within 32 bits: below 32000 in magnitude before it, at every volume |
| `VolumeCurve.OddSymmetric` | src/audio_output.rs:473-483 | Negating a sample negates its output |
| `VolumeCurve.MonotoneInSample` | src/audio_output.rs:473-483 | A larger sample never gives a smaller output, through the limiter and the truncation |
| `VolumeCurve.MonotoneInVolume` | src/audio_output.rs:473-483 | Turning the volume up never makes a sample quieter and never flips its sign |
| `VolumeCurve.SoftClipBounded` | src/audio_output.rs:477-480 | The limiter never reaches twice its knee and never amplifies |
| `VolumeCurve.SquareLawBelowKnee` | src/audio_output.rs:473-483 | Up to the knee the level is the whole part of 4 * sample * (volume / 100)^2, toward zero, on both sides of it |
| `VolumeCurve.HyperbolaAboveKnee` | src/audio_output.rs:473-483 | Beyond the knee it is the whole part of 32000 - 16000^2 / that value, toward zero, on both sides |
| `VolumeCurve.UnityAtHalfVolume` | src/config.rs:54-58 | At volume 50 the pre-gain cancels the square law: samples up to the knee pass unchanged |
| `VolumeCurve.SilentAtZero` | src/audio_output.rs:473-483 | Volume zero is silence |
| `Ring.SpaceIsTheRest` | src/audio_output.rs:134-140 | buffered + space = capacity - 1, for any capacity, not only powers of two |
| `Ring.PushAppends` | src/audio_output.rs:206-209 | Writing at the head appends one byte and overwrites nothing unread |
| `Ring.PopRemoves` | src/audio_output.rs:497-508 | Reading at the tail takes the oldest byte and nothing else |
| `Bytes.SamplesAreLittleEndian` | src/audio_output.rs:217-231 | The two bytes of a sample spell it modulo 2^16, low byte first, written and read |
| `Bytes.WordsAreLittleEndian` | src/audio_output.rs:509 | The four bytes of a word spell it modulo 2^32, low byte first |
| `AudioOutput.AudioOutput.constructor` | src/audio_output.rs:81-117 | A new output holds both handles and an empty ring, and meets the invariant |
| `AudioOutput.AudioOutput.Buffered` | src/audio_output.rs:134-136 | The modular formula is the number of unread bytes |
| `AudioOutput.AudioOutput.Space` | src/audio_output.rs:138-140 | The modular formula is the number of bytes that can be written before the ring is full |
| `AudioOutput.AudioOutput.PushSample` | src/audio_output.rs:230-232 | A pushed sample is appended to the unread bytes as two little-endian bytes |
| `AudioOutput.AudioOutput.PopSample` | src/audio_output.rs:497-508 | The two oldest bytes leave the ring as one sample |
| `AudioOutput.AudioOutput.BeginStream` | src/audio_output.rs:155-175 | Reclaims a transfer in flight, accepts rates from 8000 to 48000 and 24000 otherwise, empties the ring and the carry |
| `AudioOutput.AudioOutput.FinishStream` | src/audio_output.rs:178-180 | Marks the server's end and changes nothing else |
| `AudioOutput.AudioOutput.StopPlayback` | src/audio_output.rs:183-192 | Takes both handles back and leaves nothing queued, streaming or started |
| `AudioOutput.AudioOutput.IsActive` | src/audio_output.rs:194-196 | Active if and only if streaming: bytes are queued only during a stream |
| `AudioOutput.AudioOutput.Feed` | src/audio_output.rs:200-243 | On the array ring, exactly the bytes of the resampling specification are appended, or of the direct copy at 16 kHz; the return value counts consumed input when resampling; positions stay even when resampling |
| `AudioOutput.AudioOutput.EmitInto` | src/audio_output.rs:222-235 | The inner loop appends what its specification emits and stops early exactly when the ring is full |
| `AudioOutput.AudioOutput.FillFromRing` | src/audio_output.rs:488-512 | The slice starts with the popped samples in order as volume-scaled 32-bit words; exactly these left the ring |
| `AudioOutput.AudioOutput.WriteSlice` | src/audio_output.rs:292-298 | The rest of the offered slice is silence |
| `AudioOutput.AudioOutput.Tick` | src/audio_output.rs:257-357 | One pump call: what is pushed, when a transfer starts, who holds the handles after success and failure |
| `AudioOutput.AudioOutput.Reclaim` | src/audio_output.rs:361-367 | The two handles come back from the transfer that held them |
| `AudioOutput.AudioOutput.PlayTone` | src/audio_output.rs:388-456 | A tone played to the end is every one of its samples once, in order, whatever slice sizes are offered; cut short it is a prefix; with a transfer in flight nothing is played or changed |
| `AudioOutput.ToneReadsBack` | src/audio_output.rs:388-456 | Word k of a tone's bytes is sample k of its wave, scaled by the volume curve |
| `AudioSpec.TickKeepsInv` | src/audio_output.rs:257-357 | A pump call keeps the handle and flag invariant and the identity of both handles |
| `AudioSpec.ControlsKeepInv` | src/audio_output.rs:144-192 | Begin, finish, stop and volume keep the invariant and the identity of both handles |
| `AudioSpec.FeedKeepsInv` | src/audio_output.rs:200-243 | Feeding keeps the invariant; resampled bytes always fit, and keep the byte count even |
| `AudioSpec.ToneKeepsInv` | src/audio_output.rs:388-456 | A tone keeps the invariant and gives the buffer back; during playback it changes nothing |
| `AudioRuns.EndToEnd` | src/audio_output.rs:155-367 | In every run: the same two handles; accepted bytes = popped bytes then queued bytes; DMA slices are exactly the popped samples, scaled, then silence, and none is silent while a sample is queued; without overflow these are a prefix of the closed-form resampling of everything sent |
| `AudioRuns.PlaysWhatWasFed` | src/audio_output.rs:155-367 | In every run without overflow the slices since the stream began carry, from the first, the samples of the chunks fed since joined together at 16 kHz, or the closed-form resampling of the samples of each, and the queue is all the rest; the rate is the one asked for from 8 to 48 kHz |
| `AudioRuns.WordsReadBack` | src/audio_output.rs:500-508 | Reading word k of a slice as little-endian gives sample k scaled by the curve |
| `AudioRuns.StepIsGood` | src/audio_output.rs:155-456 | Each operation keeps conservation, order and the closed form |
| `AudioRuns.StartsExactlyAtWatermark` | src/audio_output.rs:310-322 | A stream is marked started exactly by a pump call that finds 32 KiB queued or the server finished |
| `AudioRuns.PumpWritesExactly` | src/audio_output.rs:280-342 | A pump call writes a slice exactly if there is room and, with a transfer running, the stream has more to come; or without one, playback has started or starts now |
| `AudioRuns.PumpStartsExactly` | src/audio_output.rs:304-357 | And it starts a transfer exactly if none is running, playback has started or starts now, and the DMA accepts |
| `AudioRuns.PumpStopsExactly` | src/audio_output.rs:260-280 | And it ends the stream exactly if the server has finished, the ring is empty and the DMA has run dry; then the handles come back and nothing else changes |
| `AudioRuns.PumpFillsTheSlice` | src/audio_output.rs:488-512 | Of a slice of n bytes written while b are queued, the first min(b/2, n/4) words are the samples at the front of the queue, scaled, in order, the rest is silence, and exactly those samples leave the queue: no word of silence while a sample is queued |
| `AudioRuns.SliceIsHandedOver` | src/audio_output.rs:286-354 | A slice goes behind what the running transfer was given, or alone into an emptied buffer, which a refused start leaves at hand |
| `AudioRuns.TransfersStartFresh` | src/audio_output.rs:324-357 | A transfer starts only on a started stream, in a fresh buffer holding the one slice just written |
| `AudioRuns.TickDrains` | src/audio_output.rs:257-357 | After the end of the stream each pump call makes a lexicographic measure smaller, whether the DMA offers room or nothing, as long as what it has left then runs down |
| `AudioRuns.DrainsExactlyWhenWhole` | src/audio_output.rs:257-357 | Under any such DMA a finished stream stops by itself if and only if an even number of bytes is queued |
| `AudioRuns.OddByteNeverDrains` | src/audio_output.rs:265-311 | With an odd byte queued it never stops, whatever the DMA does |
| `AudioRuns.OddByteIsReached` | src/audio_output.rs:204-212 | A run from power-on that gets there: one byte fed to a 16 kHz stream, and its end |
| `AudioRuns.ReturnsBytesWrittenExactly` | src/audio_output.rs:199-243 | The value returned is the growth of the ring if and only if the input is ignored, passed through, or becomes as many samples as it has, from any phase, refused chunks included |
| `AudioRuns.ReturnsMoreThanWritten` | src/audio_output.rs:242 | Three samples at 24 kHz: six returned, four written |
| `AudioRuns.PassesThrough` | src/audio_output.rs:204-212 | At 16 kHz the ring takes the bytes as they come up to its last free one, and between streams none |
| `AudioRuns.RefusedOnlyWhenFull` | src/audio_output.rs:225-240 | A part of a chunk is refused only when the ring has no room left for a sample, or at 16 kHz for a byte |
| `AudioRuns.StreamBegins` | src/audio_output.rs:155-175 | A stream begins with nothing queued, running or finished, at the rate asked for from 8 to 48 kHz and at 24 kHz otherwise, whatever was before |
| `AudioRuns.StreamEnds` | src/audio_output.rs:178-192 | Stopping leaves nothing of it; finishing only marks it |
| `AudioRuns.VolumeIsSet` | src/audio_output.rs:144-146 | The volume set is the one asked for, or the nearest end of 0..100, and nothing else changes |
| `AudioRuns.ToneDuringSpeechIsLost` | src/audio_output.rs:388-391 | A run from power-on that reaches a transfer in flight, and there a tone changes nothing |
| `Utf8.LossyOfText` | src/voice_client.rs:599-620 | Encoded text comes back unchanged in front of any bytes |
| `Utf8.LossyKeepsExactlyText` | src/voice_client.rs:599-620 | The lossy read never makes bytes up; it loses none exactly when re-encoding it gives the input |
| `Utf8.ValidExactlyWhenKept` | src/voice_client.rs:599-620 | Bytes are the encoding of some text if and only if the lossy read loses nothing |
| `Utf8.FromUtf8Lossy` | src/voice_client.rs:599-620 | Reading up to the first error, skipping it and going on is the lossy read |
| `Utf8.SkipsMaximalPart` | src/voice_client.rs:599-620 | Where reading stops it skips as many bytes as begin some character, at least one, and the end is cut off exactly if it begins one (chapter 3.9 of the Unicode standard) |
| `Utf8.AppendLossy` | src/voice_client.rs:599-620 | The loop appends the lossy read of its bytes, and ends |
| `JsonScan.SkipWs` | src/voice_client.rs:429-437 | Total on all bytes; the position found is the first that is no whitespace |
| `JsonScan.ScanString` | src/voice_client.rs:440-453 | Total on all bytes; slice and end are those of the two-bytes-an-escape walk |
| `JsonScan.ScanNested` | src/voice_client.rs:477-499 | Total on all bytes; the depth never underflows and strings are stepped over whole |
| `JsonScan.ScanValue` | src/voice_client.rs:456-474 | Total on all bytes; the end is that of the specification for its first byte |
| `JsonScan.JsonRaw` | src/voice_client.rs:396-427 | Total on all bytes; the first entry with that raw key, as the entry loop with its early stop finds it |
| `JsonScan.ValueIsTrimmed` | src/voice_client.rs:456-474 | A raw value has no whitespace at either end, so trimming it changes nothing |
| `JsonTree.StringScanExact` | src/voice_client.rs:440-453 | A string's scan ends at its own closing quote, whatever escapes it holds |
| `JsonTree.ValueScanExact` | src/voice_client.rs:456-499 | The scan of any printed value, arbitrarily nested, with brackets and escapes inside strings, ends exactly where the value ends |
| `JsonTree.WalksValue` | src/voice_client.rs:477-499 | Walking a printed value leaves the bracket depth as it was |
| `JsonTree.EntryExact` | src/voice_client.rs:400-425 | A printed member is read as its key and exactly the bytes of its value, with any whitespace around each part |
| `JsonTree.ScansExactly` | src/voice_client.rs:396-427 | The entries visited are exactly the members of the printed object, in order |
| `JsonTree.ScansEmpty` | src/voice_client.rs:396-405 | An empty object has no entries |
| `JsonTree.RawFieldExact` | src/voice_client.rs:526-537 | The raw value is exactly the printed bytes of the first member with that raw key |
| `JsonTree.ScansMembersFirst` | src/voice_client.rs:396-427 | However an object goes on after some printed members, those are visited first, in order; what comes next, if it is no comma, ends the scan |
| `JsonTree.ScansObjectsOnly` | src/voice_client.rs:396-402 | What does not begin with a brace has no entries |
| `JsonScan.FindIsFirst` | src/voice_client.rs:526-537 | Of several entries with one key it is the first that counts |
| `JsonText.EndsExactlyWhenPaired` | src/voice_client.rs:541-583 | The unescaping loop ends if and only if the input ends in an even number of backslashes |
| `JsonText.LoneBackslashSpins` | src/voice_client.rs:545-553 | On a single backslash the loop makes no progress |
| `JsonText.FoundStringIsClean` | src/voice_client.rs:502-508 | Every string value the scanner finds, in any bytes, is one the loop ends on |
| `JsonText.RawIsClean` | src/voice_client.rs:440-453 | The scanner's two-byte steps and the unescaper's six-byte steps stay in step |
| `JsonText.LoopIsUnescape` | src/voice_client.rs:541-583 | Run to its end, the loop computes the recursive unescaping |
| `JsonText.UnescapeBytes` | src/voice_client.rs:541-583 | Ends and gives that unescaping on every input it can be given |
| `JsonText.UnitsRead` | src/voice_client.rs:566-577 | A text all of whose 16-bit units are written as `\u` and four hexadecimal digits, in any mixture of upper and lower case, is read unit by unit as the character with that number, each surrogate as U+FFFD |
| `JsonText.ShortEscapesRead` | src/voice_client.rs:557-565 | The eight short escapes are read as a quote, a backslash, a slash and the control characters 8, 9, 10, 12 and 13 |
| `JsonText.OtherEscapesVanish` | src/voice_client.rs:566-580 | Every other escape, and a `\u` without four hexadecimal digits, is dropped: its two bytes and no more |
| `JsonText.ParseU16Hex` | src/voice_client.rs:585-596 | Reads exactly four hex digits or leaves the position where it was |
| `JsonText.AppendJsonString` | src/voice_client.rs:343-359 | Appends the quoted escape of any text |
| `JsonText.EscapeRoundTrip` | src/voice_client.rs:343-359 | Unescaping the escaped text gives the text back, for every text |
| `JsonText.EscapedIsRaw` | src/voice_client.rs:343-359 | The escape of any text is a string the scanner reads to its end |
| `Messages.ParseDecimal` | src/voice_client.rs:511-515 | Every 32-bit number reads back from its decimal print |
| `Messages.DecimalOverflows` | src/voice_client.rs:511-515 | A number of 2^32 or more is none |
| `Messages.PlusAndZerosDoNotCount` | src/voice_client.rs:511-515 | A plus sign and leading zeros do not count |
| `Messages.OnlyDigitsAreNumbers` | src/voice_client.rs:511-515 | Only digits, perhaps after a plus sign, are a number |
| `Messages.JsonString` | src/voice_client.rs:502-508 | Total; absent for a missing key or a value that is no string |
| `Messages.JsonU32` | src/voice_client.rs:511-515 | Total; digits, perhaps after a plus sign, below 2^32, or nothing |
| `Messages.JsonBool` | src/voice_client.rs:518-524 | Total; the two words or nothing |
| `Messages.ParseServerMessage` | src/voice_client.rs:72-106 | Total on every byte sequence; the event is the one its type and fields stand for |
| `Messages.MessageOfTree` | src/voice_client.rs:72-106 | Of any printed object, with any whitespace, key order, unknown or repeated keys and nesting, the parse is the event of the tree |
| `Messages.SessionMessageMeans` | src/voice_client.rs:72-104 | The event of every message about the session: only a literal true is speaking, and both kinds of error take their text from the member `error` if there is no `message` |
| `Messages.ReplyMessageMeans` | src/voice_client.rs:78-97 | The event of every message about a reply: a missing text is empty, a missing rate left open |
| `Messages.OtherMessagesAreUnknown` | src/voice_client.rs:67-106 | Any other type, none, or one that is no string is unknown |
| `Messages.OnlyObjectsAreEvents` | src/voice_client.rs:66-71 | What is no object is unknown |
| `Messages.EventRoundTrip` | src/voice_client.rs:72-106 | Every event, announced as an object and parsed, is that event again |
| `Messages.BuildTtsRequest` | src/voice_client.rs:141-146 | Its bytes are the print of a two-member object, and its text and rate read back |
| `Messages.RequestReads` | src/voice_client.rs:141-146 | For every text and every 32-bit rate both fields read back from the request |
| `Base64.Decode` | src/voice_client.rs:365-390 | Appends the decoded bytes; the 32-bit register wraps as it does in the source |
| `Base64.DecodedIsBitStream` | src/voice_client.rs:365-390 | The output is the 6-bit groups most significant bit first, cut to floor(6k/8) bytes, and no other bytes are, despite the accumulator never being masked |
| `Base64.ShiftHolds` | src/voice_client.rs:379-388 | One step keeps the pending bits of the stream in the register's low bits |
| `Base64.DecodesEveryEncoding` | src/voice_client.rs:365-390 | The encoding of any bytes (section 4 of RFC 4648), with any bytes outside the alphabet scattered through it, decodes to exactly these bytes |
| `Base64.OnlySymbolsCarry` | src/voice_client.rs:365-390 | No byte outside the 64 symbols carries a group |
| `RoundTracker.RoundTracker.ResetRound` | src/voice_client.rs:215-222 | A new session forgets the round and keeps the microphone bit |
| `RoundTracker.RoundTracker.OnAsrResult` | src/voice_client.rs:242-252 | The action comes from the state before the reset |
| `RoundTracker.RoundTracker.OnAssistantDelta` | src/voice_client.rs:255-266 | Accepted unless the round is closed; first unless one is running |
| `RoundTracker.RoundTracker.OnVoiceAudioStart` | src/voice_client.rs:269-277 | Refused, without effect, once the round is closed |
| `RoundTracker.RoundTracker.OnAudioChunk` | src/voice_client.rs:280-293 | Reports a latency at most once, saturating at zero |
| `RoundTracker.RoundTracker.OnAudioDone` | src/voice_client.rs:296-304 | Asks to finish the stream exactly if one was open |
| `RoundTracker.RoundTracker.OnCompleted` | src/voice_client.rs:307-314 | Closes the round once; asks for the fallback only if it was open and silent |
| `RoundTracker.RoundTracker.Finalize` | src/voice_client.rs:318-323 | Closes the round and asks for a flush exactly if a reply was running |
| `RoundTracker.RoundTracker.ResumeMic` | src/voice_client.rs:330-336 | Asks for a start exactly if the tracker thought the microphone off |
| `RoundTracker.TrackerRefinesHistory` | src/voice_client.rs:187-337 | After every sequence of events each flag says exactly what happened since the last reset |
| `RoundTracker.LatencyMeaning` | src/voice_client.rs:280-293 | A latency is reported by exactly the first accepted chunk after a first delta stamped with a nonzero time; added to that stamp it gives the chunk's time, or it is zero if the clock has wrapped between them |
| `RoundTracker.AnswersMean` | src/voice_client.rs:232-323 | In terms of what happened: a delta is the first in an open round without one, an early close flushes an open round with one, a completion falls back in an open round without an accepted start |
| `RoundTracker.AtMostOneLatency` | src/voice_client.rs:280-293 | Between resets at most one latency is reported |
| `RoundTracker.AtMostOneFirst` | src/voice_client.rs:255-266 | Between resets at most one delta is reported as the first |
| `RoundTracker.AtMostOneFallback` | src/voice_client.rs:307-314 | Between resets at most one fallback is requested, and none after an accepted audio start |
| `RoundTracker.StopPlaybackMeaning` | src/voice_client.rs:242-252 | A recognition result stops playback exactly if an accepted audio start has no later done, and pauses the microphone exactly if it is on |
| `RoundTracker.ClosedStaysClosed` | src/voice_client.rs:179-182 | Once closed a round stays closed and opens no stream until a reset |
| `Wrap.WrapToLines` | src/display.rs:337-354 | The loop computes the greedy wrapping |
| `Wrap.WrapKeepsText` | src/display.rs:337-354 | The lines joined are the text without its newlines |
| `Wrap.WrapFits` | src/display.rs:337-354 | Every line fits the text width or is a single character, and holds no newline |
| `Wrap.WrapIsIdempotent` | src/display.rs:337-354 | Wrapping a line that wrapping produced gives that line back |
| `Wrap.WrapIsOptimal` | src/display.rs:337-354 | No other cut of a newline-free text into fitting lines has fewer lines |
| `Display.TrimIsNeverNewline` | src/display.rs:277-283 | No reveal trims to a newline: the line-break branch is dead |
| `Display.Display.Push` | src/display.rs:319-333 | The wrapped lines are appended, an empty one as a space, and the last 80 lines of history and they together are kept |
| `Display.Display.Flush` | src/display.rs:214-225 | The typed and the waiting text become history; the status bar is untouched |
| `Display.Display.AppendReplyDelta` | src/display.rs:186-195 | Text joins both queues; a first delta starts a stream; an empty one does nothing |
| `Display.Display.SetReplyFullText` | src/display.rs:199-210 | A continuation adds the difference; anything else starts over |
| `Display.Display.ScanUnit` | src/display.rs:250-272 | The index scan finds the length of the next reveal |
| `Display.Display.TypeTick` | src/display.rs:240-296 | One typewriter tick, with its wrapping clock and line breaks |
| `Display.Display.SetVolume` | src/display.rs:123-130 | Clamped to 0..100; the deadline moves only if the volume changed |
| `SubtitleRuns.RunConserves` | src/display.rs:158-333 | After every run, logged text then typed text then waiting text is everything enqueued for the reply, up to newlines; while streaming it is the streamed text; the history is the last 80 lines logged |
| `SubtitleRuns.FlushLosesNothing` | src/display.rs:214-225 | A flush at any moment of any run logs everything enqueued |
| `SubtitleRuns.FullTextIsShownOnce` | src/display.rs:199-210 | Once the full text arrives, all of it and nothing else is logged, typed and waiting; streamed text it does not continue has been logged whole |
| `SubtitleRuns.StreamIsItsDeltas` | src/display.rs:176-210 | In every run a stream is on exactly if deltas began one that nothing ended, and its text is those deltas joined together |
| `SubtitleRuns.HistoryIsNewest` | src/display.rs:319-335 | After every run the history is the newest 80 of all lines logged, oldest first |
| `SubtitleRuns.LinesAreLogged` | src/display.rs:319-335 | Text is logged line by line in its colour, an empty line as a space |
| `SubtitleRuns.UserLineIsLogged` | src/display.rs:158-163 | A user line is logged in its own colour, behind everything that was being typed |
| `SubtitleRuns.RepliesKeepTheirColor` | src/display.rs:166-183 | After every run what is typed is in the colour of replies |
| `SubtitleRuns.TickTypes` | src/display.rs:240-296 | A tick types exactly if text waits and 143 ms have passed; the reveal joins the line exactly if the line fits with it or is empty, and otherwise the line is logged and the reveal starts a new one |
| `SubtitleRuns.OnlyTypingStamps` | src/display.rs:245-249 | Nothing but typing moves its clock, so any two reveals are at least 143 ms apart |
| `SubtitleRuns.FullTextAddsNothingExactly` | src/display.rs:199-210 | A full text logs no line and leaves the typed and waiting text alone if and only if it is exactly the streamed text, or continues none and is empty with nothing typed or waiting |
| `SubtitleRuns.UnitIsAWordOrACharacter` | src/display.rs:250-272 | A reveal is spaces, then a whole ASCII word with its trailing spaces or one other character |
| `SubtitleRuns.WordsStayWhole` | src/display.rs:250-272 | A reveal never stops inside an ASCII word |
| `SubtitleRuns.TypedLineFits` | src/display.rs:285-295 | After every run the line being typed fits, or is a single reveal |
| `SubtitleRuns.TicksRevealAll` | src/display.rs:240-296 | As many ticks, far enough apart, as characters wait reveal everything |
| `Line.WithinHalfAPixel` | src/render.rs:391-412 | Every point moves one pixel along the longer axis and is within half a pixel of the ideal line along the other, for all endpoints |
| `Line.RoundsHalvesDown` | src/render.rs:391-412 | Along the shorter axis the point after k steps is k times the slope rounded to the nearest, halves down |
| `Line.LineEnds` | src/render.rs:391-412 | The first point is the first end, and the second end is reached at step max(dx, dy) and no other |
| `Raster.DrawLine` | src/render.rs:391-412 | Plots exactly the points of the line, the rest of the band unchanged, in max(dx, dy) steps |
| `Raster.Put` | src/render.rs:351-362 | Writes one pixel inside the band, drops it outside, and touches no other |
| `Raster.FillColor` | src/render.rs:343-349 | Every pixel of the band has the colour |
| `Raster.DrawText` | src/render.rs:370-381 | Ink inside the text width limit and the band takes the colour; every other pixel keeps what it showed |
| `Raster.FillRect` | src/render.rs:383-389 | Exactly the pixels of the rectangle that lie on the band take the colour |
| `Screen.Screen.PushBand` | src/screen.rs:248-268 | A window takes two bytes a pixel or refuses, and refuses everything once a write has failed; a failed write leaves the panel anyhow; every caller keeps its window on the panel |
| `StatusBar.KeyDecidesPicture` | src/render.rs:265-283 | Equal bar keys mean equal bar pixels |
| `StatusBar.KeySplits` | src/render.rs:265-283 | The packed fields do not overlap, and no key is the never-drawn mark |
| `StatusBar.ClockReads` | src/ntp.rs:40-48 | The clock text is five characters that read back as hour and minute |
| `StatusBar.LevelsRead` | src/render.rs:291-309 | The battery and volume texts read back as their numbers in percent |
| `StatusBar.ModesDiffer` | src/display.rs:39-58 | No two modes look alike, in text or in colour |
| `StatusBar.BarSays` | src/render.rs:220-250 | The bar says the mode, then the volume while the popup shows, or else clock and battery, right-aligned |
| `StatusBar.BarMarks` | src/render.rs:230-250 | Unless the popup shows there are three signal bars, grey exactly when offline, and a bolt exactly when charging |
| `StatusBar.PopupShownExactlyFromDeadlineOn` | src/render.rs:286-289 | The popup is hidden before its deadline and shown from it on for half the clock's range |
| `Frames.RowsShowTheNewestLines` | src/render.rs:313-338 | The rows are the newest lines of history and typed line, oldest at the top; the caret is on the newest, only while listening |
| `Frames.RowPixelIs` | src/render.rs:190-212 | A row pixel by pixel: the caret's ink behind the text, the text's ink at its place up to the text limit, black elsewhere |
| `Frames.ExtensionStaysInStrip` | src/render.rs:157-171 | When only new text was added, no pixel outside the narrow rectangle differs |
| `Frames.ShiftedRow` | src/render.rs:190-212 | Drawing from a column on gives the same pixels there as drawing the whole row |
| `Frames.FrameCleans` | src/render.rs:128-180 | Each pass removes two differences, or all there are |
| `Frames.SettlesInSevenFrames` | src/render.rs:128-180 | Whatever was drawn, seven passes over a frozen display leave nothing to redraw |
| `Frames.SettledStaysPut` | src/render.rs:133-154 | A frame sends nothing if and only if nothing remembered differs from what is wanted, whatever the panel shows |
| `Panel.RedrawHeals` | src/render.rs:133-180 | Redrawing a row puts it right if and only if its pixels outside the redrawn columns were right |
| `Panel.BarUpdateHeals` | src/render.rs:220-259 | Once the bar is redrawn, what it showed before no longer matters |
| `Panel.SettledHealsIfShown` | src/render.rs:91-181 | With nothing left to redraw, a panel can heal if and only if every pixel is the full rendering already |
| `Panel.FaithfulHeals` | src/render.rs:91-181 | A panel that shows what is remembered can heal, whatever is wanted next |
| `Panel.GreyGapStays` | src/render.rs:128-180 | A panel whose gap under the bar is not black cannot |
| `Panel.MarkInEmptyRowStays` | src/render.rs:133-154 | Nor can a panel with a mark in a row that is remembered empty and wanted empty |
| `Renderer.Renderer.constructor` | src/render.rs:74-88 | Nothing is assumed of the panel's first content |
| `Renderer.Renderer.PaintRow` | src/render.rs:190-212 | If the write goes through, exactly the pixels of the given columns of the row become the row's full rendering; the result is false if it does not |
| `Renderer.Renderer.UpdateRow` | src/render.rs:134-179 | Whatever the panel showed, exactly the columns of the strip become the row's full rendering; a row whose write fails is not remembered |
| `Renderer.Renderer.UpdateRows` | src/render.rs:133-180 | Rows are redrawn in order, as many as differ, at most two windows a call with the bar counted; the call ends at the first write that fails; otherwise the rows can heal after it exactly if they could before |
| `Renderer.Renderer.PushBar` | src/render.rs:220-259 | The bar on the panel is the picture of the view its key was made from, and the panel can heal after it exactly if it could before; the key moves only if the write goes through |
| `Renderer.Renderer.ClearNext` | src/render.rs:108-126 | Exactly the next rows of the panel turn black and the take-over ends with twelve empty rows remembered; a write that fails is not repeated |
| `Renderer.Renderer.Recover` | src/render.rs:92-100 | A panel that is down is set up again at most every two seconds |
| `Renderer.Renderer.DrawFrame` | src/render.rs:128-180 | A frame sends exactly as many windows as differ, up to two, and neither makes nor breaks what the panel needs to heal; one cut short leaves every row as it was or as wanted |
| `Renderer.Renderer.Tick` | src/render.rs:91-181 | Every branch, write errors included; as long as no write has ever failed the panel goes on showing the full rendering of what is remembered, and after a failure each frame that goes through keeps the panel exactly as able to heal as it was |
| `Renderer.Renderer.Settle` | src/render.rs:91-181 | On any panel, after seven calls with the rows and the bar's key unchanged, every pixel is the full rendering of the wanted view if and only if the panel could heal, which it could if no write had ever failed; the windows sent are exactly as many as differed |
| `Renderer.DamageForGood` | src/render.rs:91-131 | A run from power-on: the command that sets the rows of the first bar's window fails, so the bar's pixels go round the window set before; the panel is set up again, every later write is taken and nothing changes, and the panel never shows what is wanted |
| `AudioInput.AudioInput.Start` | src/audio_input.rs:44-74 | Starting twice is harmless; a refused start gives both handles back |
| `AudioInput.AudioInput.Stop` | src/audio_input.rs:77-84 | Both handles come back |
| `Dispatch.MicAgreesInEveryRun` | src/main.rs:395-545 | In every interleaving of both tasks the uplink flag is up and capture runs only while the tracker says the microphone is on; and capture runs whenever it says so, in every run in which no capture start was refused |
| `Dispatch.UnheardExactly` | src/main.rs:395-545 | The tracker says on and nothing is captured, after a step, exactly if the step was refused a start or restart it asked for, or it was so before and the step neither starts the capture nor turns the microphone off |
| `Dispatch.NextKeepsGood` | src/main.rs:395-545 | Each atomic step of either task keeps the audio invariant and the microphone agreement |
| `Dispatch.NextMic` | src/main.rs:395-545 | The whole effect of any step of either task on uplink flag, tracker bit, capture and loop state |
| `Dispatch.ClocksMove` | src/main.rs:395-545 | Which step sets the speaking clock, the listening clock, the cooldown, the quiet timer and the link: exactly these |
| `Dispatch.TimesOutExactly` | src/main.rs:491-496 | Listening times out exactly if it has gone on for more than three minutes and nobody spoke in them |
| `Dispatch.ListensByItselfExactly` | src/main.rs:396-400 | The device listens by itself exactly if idle, connected, five seconds after boot and not before the cooldown ends, for half the clock's range |
| `Dispatch.CooldownLasts` | src/main.rs:484-502 | The cooldown after a manual exit or a timeout lasts eight seconds |
| `Histories.RunsMarkTheRound` | src/main.rs:654-884 | In every run from power-on the tracker, the microphone's bit apart, is what the events of the round make it, and a request is pending exactly if none was taken since |
| `Histories.SubtitlesFollowEvents` | src/main.rs:671-881 | In every run the subtitles are those of the operations the events call for: a user line for each result, a delta for each delta of an open round, a full text for each completion, a flush for each early close of a round with a reply |
| `Histories.RepliesAreConserved` | src/main.rs:671-881 | So in every run of the two tasks no text of a reply is lost, invented or reordered, and while deltas stream in, what is enqueued is all of them since the stream began |
| `Histories.AudioFollowsEvents` | src/main.rs:671-881 | In every run the audio is that of the operations the events call for: a stream for each start in an open round, a feed for each chunk of one, an end for the end of an open stream, a stop for a result during one or a taken interrupt |
| `Histories.SpeechIsDelivered` | src/main.rs:811-842 | Speech from end to end: in every run without overflow the slices handed to the DMA carry, in order and from the first, the samples of the decoded audio chunks accepted since the stream began, resampled unless at 16 kHz, and the queue holds the rest |
| `Dispatch.ListeningTransitions` | src/main.rs:395-545 | Arriving in Listening raises the uplink flag and starts the capture unless that is refused; leaving it turns everything off |
| `Dispatch.InterruptSilences` | src/main.rs:671-683 | A taken interrupt leaves the round closed, the ring empty and nothing in flight |
| `Dispatch.NoStaleAudio` | src/main.rs:671-683 | From then on until the next recognition result or session, in every run, no byte enters the ring, no stream begins and no slice reaches the DMA, whatever audio events still arrive |
| `Dispatch.ErrorRestoresHearingExactly` | src/main.rs:853-881 | After an error the device hears, with the uplink up and the capture running, if and only if the tracker said the microphone was off and the capture starts, or the tracker said it was on and the device heard before; the uplink flag alone stays down exactly if it was down while the tracker said on |
| `Dispatch.StrandedExactly` | src/main.rs:734-735 | A step leaves the tracker saying on with the uplink flag down exactly if it is a disconnect with the microphone on, or it was so and the step does not switch the microphone |
| `Dispatch.StrandedInRuns` | src/main.rs:734-735 | In every run, exactly if some disconnect found the microphone on and nothing has switched it since, or it was so to begin with |
| `Dispatch.OverheardExactly` | src/main.rs:465-470 | A step leaves the microphone on while speech plays exactly if it is an error while speech plays, or it was so and the step does not switch the microphone |
| `Dispatch.OverheardInRuns` | src/main.rs:465-470 | In every run recording pauses while speech plays, except exactly from an error on that arrives while it plays, until the next switch, or as it was to begin with |
| `Dispatch.LateTextAddsNothingExactly` | src/main.rs:843-845 | In every state an interrupt can leave, a late delta changes nothing, and a late full text is handled as any other and adds nothing exactly under the condition on the subtitles |
| `LoopRuns.ExecIsReachable` | src/main.rs:357-599 | Runs in program order, of the main loop and of the voice task, are among the schedules all results on interleavings are about |
| `LoopRuns.ErrorLeavesItUnheard` | src/main.rs:853-865 | A program-order run from power-on: after an error the device is in Listening with the uplink up and nothing recorded |
| `LoopRuns.ErrorAfterReconnectStaysDeaf` | src/main.rs:734-735 | A program-order run from power-on: after a disconnect, a new session and an error the uplink flag stays down in Listening |
| `LoopRuns.ErrorIsOverheard` | src/main.rs:874-881 | A program-order run from power-on: speech is queued and being played, and after an error the device records it |
| `LoopRuns.LateTextIsTyped` | src/main.rs:843-845 | A program-order run from power-on in which speech is interrupted and late text after it, whatever it is, is typed out |
| `LoopRuns.EmptyLateTextFlushes` | src/main.rs:843-845 | A program-order run from power-on in which empty late text after an interrupt pushes waiting text into the history |
| `LoopRuns.VoiceIsQuiet` | src/main.rs:640-735 | Text, errors, a lost link and a new session leave the audio and the main loop alone |
| `LoopRuns.ListensAgain` | src/main.rs:526-545 | A finished stream of whole samples plays out under any fair DMA, whatever of these comes meanwhile; the pass that first finds it over notes the time, and the first pass more than 400 ms later goes back to Listening with the microphone on |
| `LoopRuns.ListensAgainExactlyWhenWhole` | src/main.rs:526-545 | The device listens again by itself if and only if an even number of bytes is queued |
| `LoopRuns.SuchPasses` | src/main.rs:526-545 | From every such state there are passes that meet what these two ask: one every second, under a DMA that has run dry |
| `LoopRuns.PlaysOutIsReached` | src/main.rs:836-842 | A program-order run from power-on that gets to such a state: the server's end, with speech queued |
| `Firmware.Firmware.constructor` | src/main.rs:343-346 | The freshly built objects are in the boot state of the step model |
| `Firmware.Firmware.HandleServerEvent` | src/main.rs:760-884 | On the real objects, each event does what its step says; the link is reported down exactly if a latency report could not be sent |
| `Firmware.Firmware.HandleAsrResult` | src/main.rs:782-796 | The new round stops playback and the microphone as the tracker asked before its reset |
| `Firmware.Firmware.HandleAudioChunk` | src/main.rs:817-835 | An accepted chunk is decoded and fed; the latency reported is the tracker's |
| `Firmware.Firmware.TakeInterruptRequest` | src/main.rs:671-683 | The interrupt is its step |
| `Firmware.Firmware.BeginSession` | src/main.rs:654 | The reset before the session start is sent is its step |
| `Firmware.Firmware.SessionStarted` | src/main.rs:657-662 | The link comes up, or stays down, when the session start was sent or not |
| `Firmware.Firmware.TypeSubtitles` | src/main.rs:384 | The typewriter tick is its step |
| `Firmware.Firmware.ChangeVolume` | src/main.rs:555-556 | Clamped volume, playback otherwise undisturbed |
| `Firmware.Firmware.EndSession` | src/main.rs:734-735 | The disconnect is its step |
| `Firmware.Firmware.MicOn` | src/main.rs:402-408 | Every way into Listening raises the flag and the tracker's bit and starts the capture, with the outcome of the start in the step |
| `Firmware.Firmware.MicOff` | src/main.rs:603-610 | Every way out turns all three off |
| `Firmware.Firmware.PollIdle` | src/main.rs:397-409 | Listening starts by itself only when connected, after boot and after the cooldown |
| `Firmware.Firmware.TalkPressedWhenIdle` | src/main.rs:362-423 | The button starts listening only if the link was up when the loop began, 30 ms and more before; it may be down by then |
| `Firmware.Firmware.RestartDeadCapture` | src/main.rs:426-440 | A capture restarted while the uplink is on runs after it exactly if the start was not refused |
| `Firmware.Firmware.CheckPlayback` | src/main.rs:466-474 | Queued speech pauses the microphone |
| `Firmware.Firmware.ExitListening` | src/main.rs:476-490 | Leaving by hand flushes the subtitles and starts the cooldown |
| `Firmware.Firmware.CheckTimeout` | src/main.rs:491-504 | The silence timeout, on wrapping clocks |
| `Firmware.Firmware.AskForInterrupt` | src/main.rs:508-513 | Pressing the button while speech plays flushes the subtitles and leaves a request |
| `Firmware.Firmware.ListenAfterInterrupt` | src/main.rs:514-524 | Listening resumes after the button is let go |
| `Firmware.Firmware.CheckDrained` | src/main.rs:527-545 | Listening resumes after playback has been quiet for 400 ms |
| `Firmware.Firmware.PumpAudio` | src/main.rs:361 | The pump is its step, and reports whether a transfer was started |
| `Firmware.Firmware.ConfirmVolume` | src/main.rs:551-577 | The confirmation tone is its step; all its samples are played if every start goes through, a prefix otherwise, and nothing while speech is playing |

## Left out

- Single-precision rounding: the resampler's phase is an exact multiple of 1/16000 of a sample and the volume curve is over exact reals. The phase is what the firmware computes at every multiple of 125 Hz, where the ratio is a dyadic fraction; at other rates, such as 11025, 22050 and 44100 Hz, single precision drifts from it.
- Tone synthesis: the samples of a tone are a parameter; only its envelope and sine are missing, not its slicing, scaling and handling of the handles.
- `Renderer.Renderer.Tick`: a failed write may leave the panel showing anything at all, and setting it up again is taken to draw nothing.
- `Renderer.Renderer.constructor`: the boot colour bars themselves are not drawn; they are arbitrary first content.
- `AudioOutput.AudioOutput.constructor`: takes a ring of even, nonzero capacity, as src/audio_output.rs:46 has; the empty ring after a failed allocation is not modelled.
- `AudioOutput.AudioOutput.Tick`: the DMA's slices, idleness and whether a start succeeds are inputs; the buffer's prefill limit and the statistics are not modelled.
- `AudioInput.AudioInput.Start`: whether a start goes through is an input; sample reading, gain and the uplink queue are not modelled.
- `Firmware.Firmware.RestartDeadCapture`: the run of empty reads that calls for it is not modelled, so it may happen at any time.
- `Firmware.Firmware.HandleServerEvent`: the fallback speech request after a silent round is a stub in the firmware and has no step.
- `Dispatch.MicAgreesInEveryRun`: the steps may run in any state and order, which allows more runs than the two tasks have; `LoopRuns` has the program order. Button debouncing and the beat of the loop are not modelled, so the times in a run are free.
- `Dispatch.NextKeepsGood`: a lost network task, TLS, the frame state machine of the websocket and reconnect timing appear only as the disconnect and session steps.
- `Messages.BuildTtsRequest`: the other outgoing frames (session start and stop, interrupt, statistics) are fixed texts.
- `Wrap.WrapIsOptimal`: for newline-free text, as greedy wrapping must break at every newline.
- The font is a parameter with additive advances and ink inside the advance box; glyph decoding belongs to the external font library.
- Clock synchronisation, battery sampling and the conversion of a raw reading to a level are inputs to the status bar, in the ranges src/ntp.rs:40-48 and src/battery.rs:122-136 keep.
- Log printing.
