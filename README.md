# AI English speaking practice app — a Dafny model of its two screens

The app records a speaking session. While recording, the learner drops *pins* at moments
they want reviewed. After the recording stops, each pin gets these steps, in pin order:

- the 15 seconds before the pin are cut out with ffmpeg;
- Whisper transcribes the clip;
- a chat model proposes a grammatical correction.

The analysed session is appended to a persisted session log. A history screen shows the
log newest first. There the learner can:

- play a pin's clip or hear its suggestion spoken;
- delete one pin;
- select several pins and delete them together.

The model covers the logic of `RecorderScreen.js` and `HistoryScreen.js`:

| file | module | contents |
|---|---|---|
| `Wrappers.dfy` | `Wrappers` | `Option` and `Result` |
| `Text.dfy` | `Text` | JavaScript's `trim`, decimal rendering of an index, `padStart(2, '0')`, the case-insensitive `/model_not_found/i` test |
| `Display.dfy` | `Display` | `formatTime`, the clip window, `renderPinTimeRange`, the two `getOriginalDisplayText`s, the bucketing of `formatRelativeOrDate` |
| `Correction.dfy` | `Correction` | the replies of ffmpeg, Whisper and the chat proxy as an environment `Env` of functions; `callWhisper`, `callO3MiniWithFallback` and the trim outcome as functions returning a result and the requests made |
| `Pipeline.dfy` | `Pipeline` | one pin's trim → transcribe → correct step; `RunOver`, the run over the first `n` pins given each pin's step outcome; lemmas on order, clip paths and abort-on-first-error |
| `SessionLog.dfy` | `SessionLog` | pins, analyses and sessions; the single-pin and bulk delete as functions, with lemmas relating them; the stored log and the clip files as classes |
| `Recorder.dfy` | `Recorder` | `RecorderScreen`, a class whose fields are the screen's state; its handlers are methods |
| `History.dfy` | `History` | `HistoryScreen`, with its single playback key, the selection list and the two delete paths |

Storage holds the log oldest first, as a sequence of sessions rather than JSON. A recording
URI of `null` is the empty string, because every use of it tests truthiness. A selection
key `${sessionId}_${pinIndex}` is the pair it encodes. A playback key
`${sessionId}-${pinIndex}-orig|tts` is the triple it encodes.

Neither screen keeps a clip and a spoken suggestion from playing at the same time. The
recorder screen has one slot for the clip and one for speech. `handlePlayClip` never looks
at the speech slot, so both can be set (`Recorder.BothSlotsAtOnce`). The history screen has
a single `playingKey`, which makes the stop-the-clip-first branch of its `handlePlayTTS`
unreachable; the model asserts that the branch's condition is false. But its
`stopCurrentClip` empties that key without calling `Speech.stop()`, and both delete paths
call it first. Speech therefore goes on after a delete while the key is empty, and a clip
can then start beside it (`History.SpeechOutlivesDelete`). The model tracks speech in a
`speaking` flag next to the key.

## Model

| member | source | states |
|---|---|---|
| Text.Trim | RecorderScreen.js:259 | the result is the infix of the input left after removing white space, and only white space, at both ends; it neither starts nor ends with white space |
| Text.TrimStart | RecorderScreen.js:259 | the result is a suffix of the input; everything dropped is white space and the result does not start with white space |
| Text.TrimEnd | RecorderScreen.js:259 | the result is a prefix of the input; everything dropped is white space and the result does not end with white space |
| Text.Decimal | RecorderScreen.js:164 | the rendering of a pin index is a non-empty string of digits without a leading zero, one digit exactly below 10 |
| Text.DecimalRoundTrip | RecorderScreen.js:164 | reading the digits of a rendered index gives the index back |
| Text.DecimalInjective | RecorderScreen.js:164 | different indices render differently |
| Text.LeadingZero | RecorderScreen.js:427-428 | a leading `0` does not change a digit string's value |
| Text.PadStart2 | RecorderScreen.js:427-428 | padding reaches length 2 with leading `0`s and keeps the original as the suffix |
| Text.PadStart2Value | RecorderScreen.js:427-428 | padding keeps a digit string's value |
| Text.AsciiLower | RecorderScreen.js:262 | upper-case ASCII letters are folded to lower case and every other character is kept |
| Text.ContainsIgnoreCase | RecorderScreen.js:262 | a match needs a body at least as long as the pattern, and the empty pattern always matches |
| Text.ExactOccurrenceFound | RecorderScreen.js:262 | a body containing the pattern spelt exactly matches it |
| Text.MatchAtLowered | RecorderScreen.js:262 | the case-blind comparison at a position holds exactly when the lower-cased pattern occurs there in the lower-cased body |
| Text.ContainsIgnoreCaseLowered | RecorderScreen.js:262 | the case-insensitive test holds exactly when the lower-cased pattern occurs somewhere in the lower-cased body |
| Text.DigitChar | RecorderScreen.js:164 | each digit value has a digit character with that value |
| Text.DigitValue | RecorderScreen.js:164 | a digit character's value is below 10, and the digit character of that value is the character itself |
| Display.FormatTime | RecorderScreen.js:425-430 | the clock text has at least five characters, with `:` third from the end |
| Display.ClockShape | RecorderScreen.js:425-430 | padded minutes, `:` and padded seconds below 60 put the `:` third from the end of a text of at least five characters |
| Display.FormatTimeReadsBack | RecorderScreen.js:425-430 | negative seconds clamp to 0; the text reads back as minutes `sec / 60` (at least two digits) and seconds `sec % 60` (exactly two digits), and the two recompose `sec` |
| Display.ClockParts | RecorderScreen.js:429 | joining a minutes field and a two-digit seconds field with `:` reads back as the two values |
| Display.TwoDigitsPadded | RecorderScreen.js:428 | a value below 100 pads to exactly two characters |
| Display.PaddedValue | RecorderScreen.js:427-428 | a padded rendering reads back as the value |
| Display.ClipWindow | RecorderScreen.js:161-162 | the clip start is never negative and start + duration is the pin time; for a non-negative pin time the duration lies in 0..15, is 15 from 15 seconds on, and the start is 0 before that |
| Display.LabelMatchesClip | RecorderScreen.js:432-434 | the start shown in the pin's label (`max`) is the start the clip is cut from (the ternary) |
| Display.RenderPinTimeRange | RecorderScreen.js:432-435 | the label is the pin emoji, the clip window's start clock, ` - `, and the pin time's clock |
| Display.RecorderDisplayText | RecorderScreen.js:284-290 | text containing `$` or an isolated `.` becomes `- - -`; any other text, the empty one included, is shown as is; the result is never hidden again |
| Display.HasIsolatedDot | RecorderScreen.js:285 | a text with an isolated dot contains a dot, and a lone `.` is one |
| Display.HistoryDisplayText | HistoryScreen.js:143-150 | empty text, text containing `$` or an isolated `.` becomes `- - -`; any other text is shown as is; the result is non-empty and never hidden again |
| Display.DisplayTextsDiffer | HistoryScreen.js:143-150 | the two screens show different texts for exactly one input, the empty transcript |
| Display.HistoryDisplayTextIdempotent | HistoryScreen.js:143-150 | applying the history rule twice changes nothing |
| Display.RelativeAgeBuckets | HistoryScreen.js:159-187 | a missing date or a future date gives `Unknown Time`; each bucket reports the floor of the elapsed time in its own unit, within its bounds; the calendar date is used exactly from seven days on |
| Display.RelativeAge | HistoryScreen.js:159-187 | `Unknown Time` exactly for a missing or future date; seconds exactly below one minute |
| Correction.Suggestion | RecorderScreen.js:258-259 | no choice gives `(No Suggestion)`; a message without content is an error that is not `model_not_found`; content is trimmed, and used when that leaves text, while content that trims to nothing gives `(No Suggestion)`; a success is never empty |
| Correction.Correct | RecorderScreen.js:230-281 | with `$` in the transcript the answer is `No correction` and no request is made; otherwise the primary model is asked first; a second request, to `gpt-4`, is made exactly when the first fails with a message matching `model_not_found` in any case; there are never more than two requests; the result is taken from the reply to the last request; a success is never empty |
| Correction.OtherErrorsRethrown | RecorderScreen.js:261-279 | a first failure not matching `model_not_found` is returned unchanged after one request |
| Correction.FallbackFailureReported | RecorderScreen.js:271-273 | a failed fallback reports `Fallback Error: ` plus the reply body, after two requests |
| Correction.AnyCasingTriggersFallback | RecorderScreen.js:255-273 | any primary error in which `model_not_found` occurs, at any position and in any ASCII letter case, leads to exactly the primary and fallback requests, with the fallback's outcome as the result |
| Correction.MixedCaseMatches | RecorderScreen.js:262 | the lower-cased `Model_Not_Found` body contains `model_not_found` |
| Correction.MixedCaseTriggersFallback | RecorderScreen.js:262 | `Model_Not_Found` also triggers the fallback |
| Correction.MissingContentIsNotFallback | RecorderScreen.js:259-262 | a message whose content is missing fails on `.trim()`, and that error does not trigger the fallback |
| Correction.NoUnderscoreNoMatch | RecorderScreen.js:262 | a message without `_` never matches `model_not_found` |
| Correction.Transcribe | RecorderScreen.js:203-227 | exactly one Whisper request for the clip; a non-ok reply fails with `Whisper Error: ` plus the body; a rejected request fails with its message; an ok reply gives its text when it is non-empty, and `- - -` when the text is missing or empty; success exactly on an ok reply |
| Correction.MissingTranscriptStillCorrected | RecorderScreen.js:226-234 | a missing transcript becomes `- - -`, which contains no `$`, so the correction still asks the chat model |
| Correction.TrimAudio | RecorderScreen.js:190-200 | exactly one ffmpeg request with the given input, output, start and duration; success exactly when ffmpeg reports success; an unsuccessful return code fails with `ffmpeg trim failed: <code>`; a rejected `execute` or `getReturnCode` fails with its own message, without the prefix |
| Pipeline.ClipPathInjective | RecorderScreen.js:164 | different pins of one recording get different clip paths |
| Pipeline.ClipPathShape | RecorderScreen.js:164 | the clip path is the recording URI, then `.pin_`, then the pin index in digits (reading back as the index), then `.m4a` |
| Pipeline.TrimOutputsAppend | RecorderScreen.js:158-176 | the clip files cut by two runs of requests, one after the other, are those of the first followed by those of the second |
| Pipeline.NoTrimOutputs | RecorderScreen.js:168-169 | transcription and correction requests cut no clip |
| Pipeline.AnalyzeOne | RecorderScreen.js:160-175 | one pin's step starts with the trim request for its window and its own path `uri.pin_i.m4a`, and cuts that one clip only; a success comes after the Whisper request for that clip and stores that path with a non-empty transcript and suggestion |
| Pipeline.AnalyzeOneOutcome | RecorderScreen.js:160-175 | a failed cut fails with `ffmpeg trim failed: <code>`, and a rejected ffmpeg call with its own message, after the trim request alone; a failed transcription fails with its error after the trim and Whisper requests; otherwise the correction's requests follow, and the pin is analysed exactly when the correction succeeds, with the transcript, the suggestion and the clip path |
| Pipeline.Steps | RecorderScreen.js:159-175 | one outcome per pin; each step cuts only its own clip, and a success stores that clip with non-empty texts |
| Pipeline.StepAt | RecorderScreen.js:159-175 | position `i` holds the step of pin `i` at its own time |
| Pipeline.RunOver | RecorderScreen.js:157-176 | after looking at `n` pins: without a failure all `n` are analysed; with one, the run stopped before pin `n`; the pins keep their count |
| Pipeline.ExtendPrefix | RecorderScreen.js:171-175 | storing the analysis of pin `n - 1`'s own step extends the analysed prefix by that pin |
| Pipeline.RunLeavesPrefix | RecorderScreen.js:157-176 | every pin keeps its time; each pin `j` of the analysed prefix carries exactly the analysis its own step `j` produced, with its own clip path and non-empty texts; every later pin is untouched |
| Pipeline.TimeKept | RecorderScreen.js:171-175 | the run never changes a pin's time, only its analysis |
| Pipeline.RunStep | RecorderScreen.js:159-176 | a clean run that looks at one more pin adds that pin's requests, and either analyses it or fails on it |
| Pipeline.UntouchedTail | RecorderScreen.js:159-176 | the pins after the analysed prefix are exactly the pins the run started with |
| Pipeline.FailedRunIsFinal | RecorderScreen.js:180-185 | once a pin fails, no later pin is looked at |
| Pipeline.TrimsInPinOrder | RecorderScreen.js:159-165 | the clips are cut strictly in pin order: paths `0, 1, …`, through the failing pin if there is one |
| Pipeline.ClipPaths | RecorderScreen.js:164 | the list holds pin `j`'s clip path at position `j` |
| Pipeline.FailureAtPinOver | RecorderScreen.js:158-185 | if the run fails at pin `k`, the pins before it carry analyses, pin `k` and later pins are untouched, and the error is the one pin `k`'s step raised |
| Pipeline.FailureAtPin | RecorderScreen.js:158-185 | the same for the analysis itself: the error is the one pin `k`'s own trim, transcription or correction raised |
| Pipeline.Analyze | RecorderScreen.js:157-176 | the whole run keeps every pin, and fails exactly when it stops short of the last pin |
| Pipeline.AnalysedPins | RecorderScreen.js:157-176 | after the whole run every pin keeps its time, each pin before the stop carries exactly the analysis its own trim, transcription and correction produced, and every later pin is as it was |
| Pipeline.AnalysisTrimsInOrder | RecorderScreen.js:159-165 | the whole analysis cuts clips `0, 1, …` in order, through the failing pin if there is one |
| Pipeline.FirstFailure | RecorderScreen.js:158-185 | a failed run was clean up to its failing pin, and that pin's step raised the error |
| Pipeline.SilentPinNeedsNoChat | RecorderScreen.js:232-234 | a pin whose transcript contains `$` is analysed as `No correction` with two requests, trim and Whisper, and no chat request |
| SessionLog.Reverse | HistoryScreen.js:49 | position `i` of the reversal holds the element `i` places from the end |
| SessionLog.ReverseReverse | HistoryScreen.js:49 | reversing twice gives the list back, so a reload shows what was written |
| SessionLog.RemoveAt | HistoryScreen.js:209 | `splice(i, 1)` removes exactly position `i`; the elements before it keep their positions and the later ones move down by one |
| SessionLog.FindSession | HistoryScreen.js:194 | `findIndex` returns the first session with the id, or nothing when none has it |
| SessionLog.DeletePin | HistoryScreen.js:190-222 | an unknown session or an index past the end leaves the list as it was; otherwise exactly that pin is removed and the other pins keep their order; its session is removed exactly when that was its last pin; every other session is untouched |
| SessionLog.DeletePinKeepsSessionsNonEmpty | HistoryScreen.js:211-213 | after a single delete, no session is left without pins |
| SessionLog.Resolve | HistoryScreen.js:259-265 | a key reaches a pin exactly when its session exists and its index is within that session's pins, and then it names that session and index |
| SessionLog.TargetsAdd | HistoryScreen.js:258-272 | one more key marks at most the one position it resolves to |
| SessionLog.TargetsExact | HistoryScreen.js:258-272 | a pin is marked exactly when its key is selected and its session is the first with its id |
| SessionLog.Without | HistoryScreen.js:276-279 | filtering the marked pins keeps only pins of the row, and no more of them (the exact contents are in `SessionLog.WithoutIsKept`) |
| SessionLog.WithoutNothing | HistoryScreen.js:276-279 | a row with nothing marked is kept whole |
| SessionLog.WithoutOne | HistoryScreen.js:272-279 | marking one index and filtering is the single splice of that index |
| SessionLog.WithoutTwo | HistoryScreen.js:272-279 | marking indices `i < k` and filtering equals splicing `k` then `i`: marking by original index is immune to index shifts |
| SessionLog.Kept | HistoryScreen.js:272-279 | the unmarked indices of a row, strictly ascending, each below the row length: an index is in the list exactly when it is unmarked |
| SessionLog.WithoutIsKept | HistoryScreen.js:276-279 | filtering keeps exactly the unmarked pins in their order: position `m` holds the pin at the `m`-th unmarked index |
| SessionLog.Pruned | HistoryScreen.js:276-279 | every session keeps its place and only its unmarked pins |
| SessionLog.DropEmpty | HistoryScreen.js:282 | the filtered list has no empty session and is no longer than before (which sessions stay, and in which order, are in `SessionLog.DropEmptyMembers` and `SessionLog.DropEmptyAppend`) |
| SessionLog.DropEmptyKeepsNonEmpty | HistoryScreen.js:282 | when no session is empty, the filter keeps the list as it is |
| SessionLog.DropEmptyOne | HistoryScreen.js:282 | when one session is empty, the filter removes exactly that one |
| SessionLog.DropEmptyMembers | HistoryScreen.js:282 | a session stays exactly when it was in the list and has a pin |
| SessionLog.DropEmptySingle | HistoryScreen.js:282 | a single session stays exactly when it has a pin |
| SessionLog.DropEmptyAppend | HistoryScreen.js:282 | the filter works session by session, so the sessions it keeps stay in their order |
| SessionLog.DeleteSelected | HistoryScreen.js:249-290 | after a bulk delete no session has zero pins, and the list is no longer; it is built from `Targets`, `Without` and `DropEmpty`, whose lemmas below state exactly which pins and sessions stay |
| SessionLog.SelectionOfNothing | HistoryScreen.js:262-265 | keys naming a missing session or index are skipped: the list stays as it was |
| SessionLog.SelectionOfOne | HistoryScreen.js:249-290 | bulk deleting one selected pin is the single-pin delete of it |
| SessionLog.TwoTargets | HistoryScreen.js:258-272 | two keys naming pins `i` and `k` of one session mark exactly those two positions |
| SessionLog.BulkTwoReplaces | HistoryScreen.js:258-282 | bulk deleting pins `i < k` of one session replaces its pins by the list with `k` and then `i` spliced out |
| SessionLog.SelectionOfTwo | HistoryScreen.js:249-290 | bulk deleting pins `i < k` of one session is deleting `k` and then `i` one at a time |
| SessionLog.PrunedOneRow | HistoryScreen.js:276-279 | when only one row loses pins, the pruned list is the list with that row replaced |
| SessionLog.ReplaceThenDrop | HistoryScreen.js:276-282 | replacing one row's pins and filtering empty sessions drops that row exactly when it became empty |
| SessionLog.DeleteTwice | HistoryScreen.js:190-213 | two single deletes in one session, the higher index first, replace that session's pins by the two splices |
| SessionLog.SameIdsSameFind | HistoryScreen.js:194 | the session lookup depends on the session ids only |
| SessionLog.SelectionOrderIrrelevant | HistoryScreen.js:258-282 | the outcome of a bulk delete does not depend on the order in which pins were selected (immediate for a key set; `History.HistoryScreen.HandleDeleteSelected` states its result through that set) |
| SessionLog.SelectedClipsAreTargets | HistoryScreen.js:267-270 | every clip file the bulk delete asks to remove belongs to a pin that the bulk delete removes |
| SessionLog.TargetsHaveSelectedClips | HistoryScreen.js:258-272 | every marked pin lies in the list, and when it owns a clip, that clip's deletion is requested |
| SessionLog.SessionLogStore.Append | RecorderScreen.js:399-405 | the log gains the session at the end |
| SessionLog.SessionLogStore.WriteDisplayed | HistoryScreen.js:215 | storage receives the displayed list reversed (storage order is oldest first); with `SessionLog.ReverseReverse`, a reload shows the displayed list |
| SessionLog.ClipStore.DeleteAsync | HistoryScreen.js:202-204 | the deletion request is recorded whatever its outcome |
| Recorder.RecorderScreen.constructor | RecorderScreen.js:34-53 | the screen starts idle, with no pins, slots empty and nothing analysed |
| Recorder.RecorderScreen.CurrentPhase | RecorderScreen.js:449-497 | the recording controls show exactly while recording; the start button exactly when not recording and without a recording URI |
| Recorder.RecorderScreen.StartRecording | RecorderScreen.js:84-115 | a no-op while recording or when permission is refused; otherwise pins, pin count, analysis flag, recording URI and elapsed time are reset and the start time is `now`; recording starts only if the recorder is created |
| Recorder.RecorderScreen.HandlePin | RecorderScreen.js:137-149 | a no-op unless recording; otherwise exactly one unanalysed pin at the whole seconds since the start is appended, and the pin count grows by one |
| Recorder.RecorderScreen.StopRecording | RecorderScreen.js:118-134 | a no-op unless recording, or when stopping fails; otherwise recording ends with the reported URI; without pins or URI nothing else changes; with both, the pins become the analysis run's pins, the requests are the run's, the analysis flag is set exactly on success, one session is appended exactly then when the storage calls succeed (none otherwise), and every other field (slots, clock, pin count) is unchanged |
| Recorder.RecorderScreen.AnalyzePins | RecorderScreen.js:152-187 | no URI or no pins changes nothing; otherwise the pins become the run's pins, even after a failure; the analysis flag is set exactly on success; the requests are the run's requests; the save effect appends one session only when the flag turns true, a URI is set and the storage calls succeed; every other field is unchanged |
| Recorder.RecorderScreen.FinishAnalysis | RecorderScreen.js:171-187 | after the loop the pins and requests are the loop's, the flag is set on success, and the save effect appends the session only when the flag turns true with a URI set and the storage calls succeed; no other field changes |
| Recorder.RecorderScreen.SaveSessionLog | RecorderScreen.js:386-405 | when `getItem` and `setItem` succeed, the log grows by exactly one session, at the end; when either rejects (nothing catches it), the log is unchanged; earlier entries are unchanged in both cases |
| Recorder.RunAnalysis | RecorderScreen.js:158-176 | the loop computes exactly the pins, requests and success of `Pipeline.Analyze` |
| Recorder.RecorderScreen.HandlePlayClip | RecorderScreen.js:293-335 | no clip, or another index in the clip slot, changes nothing; the same index empties the slot; otherwise the slot takes the index if the clip loads; no other field, the speech slot included, changes |
| Recorder.RecorderScreen.StopClip | RecorderScreen.js:337-354 | the clip slot is empty and nothing else changes |
| Recorder.RecorderScreen.OnClipFinished | RecorderScreen.js:322-327 | a finished clip empties the clip slot and changes no other field |
| Recorder.RecorderScreen.HandlePlayTts | RecorderScreen.js:357-383 | no suggestion, or another index in the speech slot, changes nothing; otherwise the clip slot ends empty, the speech slot toggles between this index and empty, and no other field changes |
| Recorder.RecorderScreen.OnSpeechEnded | RecorderScreen.js:378-382 | speech that ends, stops or fails empties the speech slot and changes no other field |
| Recorder.RecorderScreen.HandleReset | RecorderScreen.js:408-422 | both slots are empty, there are no pins, no URI and no recording, and elapsed time and pin count are 0 |
| Recorder.BothSlotsAtOnce | RecorderScreen.js:293-376 | starting speech for pin 0 and then the clip of pin 1 leaves both slots set |
| History.IndexOf | HistoryScreen.js:235 | `indexOf` gives the first position of the key, or -1 exactly when it is absent |
| History.Toggled | HistoryScreen.js:232-242 | toggling a selected key shortens the selection by one, and an unselected key lengthens it by one |
| History.ToggledFlips | HistoryScreen.js:232-242 | toggling flips the membership of the key, of no other key, and never creates duplicates |
| History.ToggleTwiceRestoresMembership | HistoryScreen.js:232-242 | toggling the same key twice restores every key's membership |
| History.ToggleTwiceAbsent | HistoryScreen.js:232-242 | selecting an absent key and deselecting it gives back the same list |
| History.Present | HistoryScreen.js:277 | filtering out nulls never lengthens a row |
| History.PresentIsWithout | HistoryScreen.js:272-279 | filtering a marked row keeps exactly the unmarked pins |
| History.NextKey | HistoryScreen.js:258-272 | one more selected key adds at most its own position to the marked set, and at most its clip to the deletions |
| History.UnmarkedIsPruned | HistoryScreen.js:276-279 | keeping the non-null entries of each marked row is removing exactly the marked pins |
| History.AllPresent | HistoryScreen.js:256 | the copy of the list before any key is processed has every pin present and none marked |
| History.MarkOne | HistoryScreen.js:272 | writing `null` at an existing position marks exactly that position in addition |
| History.BulkDelete | HistoryScreen.js:256-282 | marking the selection in a copy, dropping the marks and then the empty sessions computes exactly `SessionLog.DeleteSelected` of the selected key set, and asks for exactly the marking loop's clip deletions |
| History.MarkSelected | HistoryScreen.js:258-273 | the marking loop nulls exactly the positions the selection resolves to, by original index, and asks once for each reached clip |
| History.MarkKey | HistoryScreen.js:259-272 | one key that names no pin, or an already nulled one, is skipped; otherwise its clip is deleted and its slot nulled |
| History.HistoryScreen.constructor | HistoryScreen.js:44-51 | when the log can be read, the displayed list is the stored log reversed, newest first; when `getItem` rejects, nothing catches it and the list keeps its initial empty value |
| History.HistoryScreen.StopCurrentClip | HistoryScreen.js:61-74 | the single slot is empty, speech is not stopped, and nothing else changes |
| History.HistoryScreen.HandlePlayClip | HistoryScreen.js:76-112 | no clip, or any other key in the slot (the same pin's speech included), changes nothing; the same key empties the slot; otherwise the slot takes the key if the clip plays |
| History.HistoryScreen.HandlePlayTts | HistoryScreen.js:114-141 | no suggestion, or any other key in the slot (the same pin's clip included), changes nothing; the same key empties the slot and stops speech; an empty slot takes the key and speech starts |
| History.HistoryScreen.OnClipFinished | HistoryScreen.js:101-106 | a finished clip empties the slot and leaves speech as it is |
| History.HistoryScreen.OnSpeechEnded | HistoryScreen.js:135-140 | speech that ends, stops or fails empties the slot, whatever key it holds by then |
| History.HistoryScreen.HandleDeletePin | HistoryScreen.js:190-222 | playback stops; the list becomes `SessionLog.DeletePin` of it; a key that names no pin touches neither files nor storage; otherwise the pin's clip is deleted and storage holds the new list reversed; a list without empty sessions keeps none |
| History.HistoryScreen.ToggleSelecting | HistoryScreen.js:225-230 | select mode flips, and leaving it clears the selection |
| History.HistoryScreen.ToggleSelectPin | HistoryScreen.js:232-242 | the selection becomes the toggled list: the key's membership flips, every other key's stays, and no key appears twice |
| History.HistoryScreen.IsPinSelected | HistoryScreen.js:244-247 | a pin is selected exactly when its key is in the key set a bulk delete uses |
| History.HistoryScreen.HandleDeleteSelected | HistoryScreen.js:249-290 | an empty selection changes nothing; otherwise playback stops; the list becomes `SessionLog.DeleteSelected` of the selected key set; storage holds the new list reversed; the clip deletions are those of the marking loop; the selection is cleared and select mode ends |
| History.SpeechOutlivesDelete | HistoryScreen.js:61-74 | after speaking a suggestion and deleting a pin, the slot is empty while speech goes on, and a clip then starts beside it |

## Left out

- Audio, speech synthesis, ffmpeg, Whisper, the chat proxy, the file system and storage are collaborators. The replies the model uses are its parameters: `Correction.Env` for ffmpeg (including a rejected call), Whisper and the chat proxy, and the `loaded`, `granted`, `created`, `stopped` and `stored` flags for audio and storage. Where a storage or audio failure is not one of these flags, a line below names it. Audio content, HTTP, form data, JSON and the ffmpeg command string are not modelled, and neither is the `file://` stripping of the paths.
- Each `Env` answers the same request the same way. A real server may answer two identical requests differently; the model cannot express that.
- Timers are not modelled: the one-second elapsed-time interval, the pin popup timeout and `clipTimeoutRef`. The clock is an input (`now`, `sessionId`, `date`).
- React lifecycle is not modelled: unmount cleanup, stale closures, and the `sound` object held in state. Nor are asynchronous interleavings, such as a tap arriving while the analysis awaits the network, or a speech callback of an earlier utterance arriving late. Each handler runs to completion.
- Rendering, styles and navigation (`handleGoBack`) are not modelled. App.js, AppRoot.js and the proxy worker are not part of this model.
- The calendar branch of `formatRelativeOrDate` is a constant `CalendarDate`. Time zones and date formatting are not modelled.
- Recorder.RecorderScreen.StartRecording: a `requestPermissionsAsync` that throws is folded into a refused permission; the app catches it and changes nothing either. `prepareAudio` catches and logs its own errors, so it never stops the handler.
- Recorder.RecorderScreen.StopClip: the model assumes the audio calls succeed. If `stopAsync` or `unloadAsync` throws, the app keeps `playingAudioIndex`.
- History.HistoryScreen.StopCurrentClip: the model assumes the audio calls succeed. If they throw, the app keeps `playingKey`.
- History.HistoryScreen.HandleDeletePin: the storage write is assumed to succeed. If it throws, the app keeps the old list, but the session's pin array has already been spliced in place through the shared object.
- History.HistoryScreen.HandleDeleteSelected: the storage write is assumed to succeed. It has no `try`, so a throwing write would leave the screen's list and selection as they were, after the `null` writes have already changed the session objects the screen shares.
- A missing `SESSION_LOGS` entry is treated as the empty log. A malformed one is not modelled.
- Selection keys are pairs, not `${sessionId}_${pinIndex}` strings. Session ids are decimal timestamps with no `_`, so splitting the string gives the pair back.
- Playback keys are triples. Session ids have no `-orig`, so the `includes('-orig')` test is the same as asking whether the key is a clip key.
