# Playback engine of the score viewer, in Dafny

The page plays one fixed score through the Web Audio API. Its playback engine lives in `app.js`. It is a small state machine over the array of notes, which is sorted by start beat:

- **The `state` record and the `activeVoices` set.** `state` holds the tempo, the play flag, the loop flag, the stored position, the time anchor (`startBeat`, `startCtxTime`) and the scan cursor `nextIndex`. `activeVoices` is the set of voices that are sounding.
- **Time mapping.** An affine map between beats and audio-clock seconds, anchored on `startBeat`/`startCtxTime`, with the position clamped into the score.
- **Note index.** A lower-bound binary search by start beat. The resume index backs the search off by four beats so that notes still sounding are found again.
- **Look-ahead scheduler.** Every tick walks the cursor over the notes that start within half a second. Each note is skipped, scheduled whole at its own time, or scheduled at once with only its remainder. At the end of the score the tick restarts from beat 0, or stops.
- **Transport.** `play`, `pause`, `stopPlayback`, `setTempo` and `restartFromBeat`.
- **Voices.** `scheduleNote` computes a voice's length and envelope and registers it. `cleanupVoice` unregisters it. `stopAllVoices` fades out every registered voice.

## How the model is built

- **Module Playback** is the specification. It describes the engine as pure transitions over a `PlaybackState` value:
  - the `state` record;
  - whether the audio context exists (`audioReady`);
  - whether a polling interval is installed (`schedulerOn`);
  - the active voices, as a sequence of voice numbers, because a JavaScript `Set` iterates in insertion order;
  - a log of the audio calls the engine makes: voice starts with their envelope, and force-stops.

  The audio clock is the parameter `now`. Every transition preserves the invariant `Inv`.
- **Module Session** is the engine as the page runs it. Class `PlaybackSession` has one field per entry of that state, and its methods update the fields in place:
  - the tick is a `while` loop over the cursor;
  - `stopAllVoices` is a loop over the set;
  - the binary search is a loop in module NoteIndex.

  Each method is proved to leave exactly the state that the matching transition of Playback gives.
- **Modules PlaybackFacts and TransportFacts** prove what the engine promises about those transitions.
- **The other modules:**
  - NoteIndex: the note order, the search and the score data;
  - TimeMap: the beat/time map;
  - VoiceSynth: the voice length and envelope arithmetic;
  - Labels: the label helpers.

## Intended behaviour and what the code does

The model follows the code. In these places the code does something other than what a reader of the engine would expect:

- **No seek or loop control.** `state.loop` looks like a switch, but nothing ever changes it: it stays `true`. The "stop at the end" branch of the tick is modelled and proved, but the page never reaches it.
- **A stop rewinds to beat 0** (app.js:432). This also holds when the tick stops at the end of the score, so the position never rests at the end.
- **A truncated remainder of exactly 0 replays the whole note.** The effective length is `override || note.d`, so a remainder of 0 falls back to `note.d`.
- **Resuming inside a note does not play exactly what is left of it.** One would expect resuming at beat B to play `t + d − B` beats of a note that is sounding at B, and never the whole note. But restartFromBeat places B 0.05 s ahead (app.js:389-390), so its tick sees the playhead `lead = 0.05·tempo/60` beats before B:
  - A note that started more than `lead` beats before B plays `t + d − B + lead` beats, from now + 0.01 s.
  - A note that started within those `lead` beats is played whole, at its own time in the 0.05 s before B.

  TransportFacts.ResumeDecision and TransportFacts.ResumeAtHeldNote state both cases.

## Assumptions on the score

`Score.Valid` states what the engine needs of its data:

- the notes are sorted as at app.js:6-8;
- every note starts at or after beat 0;
- `TOTAL_BEATS` exceeds the end-of-score margin of 0.0001 beats. With a shorter score the loop restart would tick into the end again, and the page would recurse without end;
- the rounded base tempo is at least 1.

## Model

| member | source | states |
|---|---|---|
| NoteIndex.Compare | app.js:6-8 | the comparator orders by start first: a note that starts earlier compares below, and one that compares below does not start later |
| NoteIndex.CompareIsConsistent | app.js:6-8 | the sort comparator is antisymmetric, is zero exactly on equal notes, and orders every pair |
| NoteIndex.NoteLeIsLexicographic | app.js:6-8 | the comparator's order is lexicographic on (start, voice, pitch, duration) |
| NoteIndex.NoteLeTransitive | app.js:6-8 | the comparator's order is transitive |
| NoteIndex.SortedStartsSorted | app.js:6-8 | notes sorted by the comparator are sorted by start beat |
| NoteIndex.BaseTempo | app.js:10 | BASE_TEMPO is 100 for a missing or zero tempo, else the given tempo rounded to the nearest integer |
| NoteIndex.LowerBound | app.js:109-121 | the lower bound lies in [0, \|notes\|], every note before it starts before x, and the note at it starts at or after x |
| NoteIndex.LowerBoundSplits | app.js:109-121 | on sorted notes, every note from the lower bound on starts at or after x |
| NoteIndex.LowerBoundMonotone | app.js:109-121 | a later target never gives an earlier lower bound |
| NoteIndex.BinarySearchByStart | app.js:109-121 | the loop returns the lower bound: notes before lo start before the target, notes from lo on start at or after it |
| NoteIndex.ResumeBeat | app.js:123-125 | the search beat max(0, beat − 4) is never negative, never after a non-negative beat, at most four beats before it, and exactly four before it whenever it is above 0 |
| NoteIndex.StartIndex | app.js:123-125 | findStartIndex(beat) is the lower bound of ResumeBeat(beat): every note before it starts before that beat, and the note at it starts at or after it |
| NoteIndex.StartIndexNotAfter | app.js:123-125 | for a beat ≥ 0 the resume index is never after the lower bound of the beat itself |
| NoteIndex.ResumeIndexCoversHeldNotes | app.js:123-125 | a note of at most four beats that is sounding at the beat is at or after the resume index |
| NoteIndex.LongNoteCanBeMissed | app.js:123-125 | a ten-beat note held at beat 5 lies before the resume index |
| NoteIndex.FindStartIndex | app.js:123-125 | findStartIndex searches from max(0, beat − 4): every note before the result starts before that beat, and for beat ≥ 0 the result is not after the beat's own lower bound |
| TimeMap.Clamp | app.js:73-75 | the result lies in [lo, hi]; a value inside is kept, and one below or above is moved to the nearer bound |
| TimeMap.BeatAt | app.js:94-96 | getCurrentBeatAt always lies in [0, TOTAL_BEATS] |
| TimeMap.TimeForBeat | app.js:105-107 | timeForBeat inverts the anchor: the unclamped beat at the returned time is the given beat, and the anchor beat maps to the anchor time |
| TimeMap.BeatAtTimeForBeat | app.js:94-107 | for a beat in [0, TOTAL_BEATS] and a positive tempo, getCurrentBeatAt(timeForBeat(b)) == b |
| TimeMap.TimeForBeatAt | app.js:94-107 | when the position is not clamped, timeForBeat(getCurrentBeatAt(t)) == t |
| TimeMap.RawBeatAtMonotone | app.js:94-96 | before clamping, a later time gives a later or equal beat at a non-negative tempo |
| TimeMap.ClampMonotone | app.js:73-75 | clamp keeps the order of its inputs |
| TimeMap.BeatAtMonotone | app.js:94-96 | at a non-negative tempo the position never moves backwards as time passes |
| TimeMap.BeatsToSeconds | app.js:77-79 | beatToSeconds: the seconds times the tempo are the beats times 60, and a non-negative span at a positive tempo lasts a non-negative time |
| TimeMap.SecondsScaleInverselyWithTempo | app.js:77-79 | seconds times tempo is beats × 60 at every tempo |
| VoiceSynth.EffectiveDuration | app.js:216 | `override \|\| note.d`: no override and an override of 0 both give note.d; any other override is used as it is |
| VoiceSynth.BaseGain | app.js:236 | base gain 0.2 exactly for voice 1, 0.18 exactly for voice 2, 0.17 otherwise |
| VoiceSynth.DurationSeconds | app.js:221 | the sounding length is at least 0.03 s and at least 0.985 of the note's beats in seconds, and equals one of the two |
| VoiceSynth.DurationScalesInverselyWithTempo | app.js:221 | above the 30 ms floor, sounding length times tempo depends on the beats alone |
| VoiceSynth.MakeEnvelope | app.js:221-244 | the attack is min(0.08, 0.2·durSec) and the release is min(0.12, 0.3·durSec); the sustain point is max(start + attack, start + durSec − release), so it comes after the attack, no later than the end, and the release reaches the end; stopTime = start + durSec + 0.06; the gain follows the voice |
| Labels.MidiToLabel | app.js:66-71 | the label names the pitch class midi mod 12, in the octave where MIDI 60 is octave 4 |
| Labels.MidiToLabelInjective | app.js:66-71 | no two pitches share a label |
| Labels.BarOf | app.js:88-90 | the bar number n satisfies 4(n−1) ≤ beat < 4n |
| Playback.Initial | app.js:41-60 | the page starts paused at beat 0 with its anchor at beat 0 and time 0, the cursor at the first note, looping, at BASE_TEMPO, with no interval, no audio context, no voices and an empty log |
| Playback.BeatNow | app.js:94-96 | getCurrentBeatAt over the state lies in [0, TOTAL_BEATS], and at the anchor time it is the anchor beat when that lies inside the score |
| Playback.Lookahead | app.js:344 | the look-ahead beat lies after the playhead by exactly LOOKAHEAD_SECONDS (0.5 s) of music at the current tempo |
| Playback.TimeOf | app.js:105-107 | timeForBeat over the state: the unclamped beat at the returned time is the given beat, and the anchor beat maps to the anchor time |
| Playback.CurrentBeat | app.js:98-103 | getCurrentBeat lies in [0, TOTAL_BEATS]. While paused it is the stored position; while playing it is getCurrentBeatAt(now) |
| Playback.ScheduleNote | app.js:211-305 | scheduling keeps the invariant: voices stay distinct and below the next fresh number |
| Playback.Remove | app.js:208 | the set after delete holds exactly the other voices, and stays duplicate-free |
| Playback.CleanupVoice | app.js:186-209 | cleanup keeps the invariant |
| Playback.ForceStops | app.js:307-328 | one fade-and-stop per active voice, in set order, stopping 0.04 s after now |
| Playback.StopAllVoices | app.js:307-328 | stopping all voices keeps the invariant |
| Playback.Decide | app.js:352-359 | a note is skipped exactly when it ended 0.001 beats or more before the playhead; otherwise it is scheduled whole at timeForBeat(t) if it starts at or after the playhead, else at now + 0.01 with the remainder noteEnd − currentBeat as override |
| Playback.Visit | app.js:345-361 | one loop step keeps the invariant and advances the cursor by exactly one |
| Playback.Scan | app.js:345-362 | the loop keeps the invariant, moves the cursor only forward, stops at the end or at the first note beyond the look-ahead beat, and passes only notes within it; nothing but the cursor, the voices and the log changes |
| Playback.WillWrap | app.js:364 | the end branch is taken only while playing with audio, and always once the unclamped position has reached TOTAL_BEATS |
| Playback.RestartedTickDoesNotWrap | app.js:364-398 | the tick run by restartFromBeat sees max(0, target − 0.05·tempo/60), which stays below TOTAL_BEATS − 0.0001, so it never reaches the end of the score again |
| Playback.Tick | app.js:337-371 | a tick keeps the invariant |
| Playback.StartScheduler | app.js:373-377 | startScheduler keeps the invariant |
| Playback.Restart | app.js:379-398 | restartFromBeat keeps the invariant |
| Playback.Play | app.js:400-416 | play keeps the invariant |
| Playback.Pause | app.js:418-428 | pause keeps the invariant |
| Playback.StopPlayback | app.js:430-435 | stopPlayback keeps the invariant |
| Playback.RequestedTempo | app.js:438 | the tempo setTempo stores is in [40, 100]: a non-numeric or zero input gives the clamped BASE_TEMPO, and any other input is clamped |
| Playback.SetTempo | app.js:437-455 | setTempo keeps the invariant |
| PlaybackFacts.ScheduleNoteAddsOneVoice | app.js:211-292 | no change without audio or with a non-positive effective length; otherwise exactly one new voice is appended to the set and its start logged with its envelope |
| PlaybackFacts.RemoveAbsent | app.js:208 | deleting a voice that is not in the set changes nothing |
| PlaybackFacts.RemovePresent | app.js:208 | deleting a registered voice shrinks the set by exactly one |
| PlaybackFacts.CleanupVoiceIsIdempotent | app.js:186-209 | cleanup removes the voice and keeps every other; a second cleanup changes nothing |
| PlaybackFacts.StopAllVoicesKeepsMembership | app.js:307-328 | stopAllVoices leaves the set as it is and logs one force-stop per voice when audio exists |
| PlaybackFacts.ResumeInsideNoteIsTruncated | app.js:352-359 | a note the tick's playhead is inside is scheduled for what remains after that playhead: more than nothing and less than the whole note |
| PlaybackFacts.FutureNoteIsScheduledWhole | app.js:354-355 | a note that has not started is scheduled whole at the device time of its start |
| PlaybackFacts.ZeroRemainderReplaysWholeNote | app.js:352-358 | a note that ends exactly at the playhead is scheduled with remainder 0, which falls back to its whole length through `override \|\| note.d` (app.js:216) |
| PlaybackFacts.TruncatedVoiceEndsWithNote | app.js:356-357 | a truncated voice lasts until the device time of the note's end, shifted by the same 10 ms as its start |
| PlaybackFacts.VisitAdds | app.js:350-361 | one loop step logs what ScanAdds describes for the one note it visits |
| PlaybackFacts.ScanStartsEachNoteAtMostOnce | app.js:345-362 | one scan starts a voice for exactly the visited notes whose decision sounds, in increasing note order (so never twice for a note), at the decided time and length, with fresh consecutive voice numbers appended to the set |
| PlaybackFacts.ScanStartsAtMostOneVoicePerNote | app.js:345-362 | a scan starts no more voices than the notes it visits |
| TransportFacts.TickIdleUnlessPlaying | app.js:338-340 | a tick does nothing unless playing with an audio context |
| TransportFacts.TickInsideScore | app.js:337-362 | before the end, a tick moves the cursor forward, never past the notes, and stops at the first note beyond currentBeat + tempo·0.5/60; anchor, tempo and flags stay, and the voices started are exactly those of the scan |
| TransportFacts.ConsecutiveTicksNeverRepeatANote | app.js:345-362 | in two consecutive ticks that do not restart, every note the second starts comes after every note the first started |
| TransportFacts.TickStartsFreshInOrder | app.js:345-362 | a tick before the end starts voices only for notes between its old and new cursor, in strictly increasing note order |
| TransportFacts.UninterruptedRunNeverRepeatsANote | app.js:337-362 | over any number of ticks with no restart, pause or stop in between, every voice started is for a note between the first and last cursor, in strictly increasing note order, so no note gets two voices |
| TransportFacts.StartIndexOfZero | app.js:123-125 | the resume index of beat 0 is the first note |
| TransportFacts.RestartIsRearmedScan | app.js:373-398 | restartFromBeat(beat, true) with audio is one scan of the re-armed state, then the interval installed; that scan starts before the end of the score |
| TransportFacts.RestartPlaysFromClampedBeat | app.js:379-398 | with audio: every voice is force-stopped; position and anchor are the clamped beat at now + 0.05; the cursor starts at findStartIndex of it; playback and the scheduler are on; the nested tick scans from there without reaching the end |
| TransportFacts.ResumeDecision | app.js:352-359 | with beat B anchored 0.05 s ahead, the tick's playhead is lead = 0.05·tempo/60 beats earlier. A note sounding at B that started before B − lead is scheduled at now + 0.01 for t + d − B + lead beats; one that started later is scheduled whole, at its own time within the 0.05 s before B |
| TransportFacts.ResumeAtHeldNote | app.js:379-398 | restartFromBeat(B, true) starts a voice for every note of at most four beats that is sounding at B, with the start time and length of ResumeDecision |
| TransportFacts.RestartWithoutPlaying | app.js:379-398 | without audio nothing changes. With keepPlaying false, these things change and nothing else: the scheduler is cleared, every voice is force-stopped, the position and anchor move to the clamped beat at now + 0.05, and the cursor moves to findStartIndex of that beat. The play flag stays as it was. |
| TransportFacts.TickAtEndLoops | app.js:364-367 | at the end with loop on: voices force-stopped, playing on from beat 0 anchored at now + 0.05, cursor back at the first note |
| TransportFacts.LoopWrapStartsWithFirstNote | app.js:364-398 | after the loop wrap, a note at beat 0 is the first voice started, at now + 0.05, whole |
| TransportFacts.TickAtEndStops | app.js:364-370 | at the end with loop off: paused, scheduler cleared, voices force-stopped, position 0, as stopPlayback (app.js:430-435) leaves it |
| TransportFacts.PlayWhilePlayingIsNoOp | app.js:410-412 | play while playing changes nothing |
| TransportFacts.PlayResumesAtStoredBeat | app.js:400-416 | play while paused resumes at the stored position, 0.05 s from now |
| TransportFacts.PauseStoresLiveBeat | app.js:418-428 | pause does nothing unless playing; otherwise it stores the live beat, leaves isPlaying false, stops the scheduler and force-stops every voice |
| TransportFacts.PauseThenPlayResumes | app.js:400-428 | pausing then playing resumes at the beat reached when paused |
| TransportFacts.StopPlaybackRewinds | app.js:430-435 | stopPlayback leaves playback paused at beat 0 |
| TransportFacts.SetTempoStoresClampedTempo | app.js:437-455 | setTempo always leaves the requested tempo, which is in [40, 100] |
| TransportFacts.SetTempoUnchangedIsNoOp | app.js:439-441 | an unchanged tempo changes nothing |
| TransportFacts.SetTempoWhilePaused | app.js:443-452 | while paused only the tempo changes; the position stays |
| TransportFacts.SetTempoWhilePlaying | app.js:443-449 | while playing, playback restarts at the beat reached under the old tempo, anchored 0.05 s from now under the new one |
| TransportFacts.LongNoteSilentOnResume | app.js:379-398 | restarting at beat 5 of a score whose only note lasts from beat 0 to 10 starts no voice: the log gains only the force-stops, so the held note stays silent |
| TransportFacts.OneNoteScorePlaysOnce | app.js:337-416 | one two-beat note at tempo 60: play starts exactly one voice, at now + 0.05, for 1.97 s; two seconds later the tick is at beat 2, the end of the score |
| Session.PlaybackSession.constructor | app.js:41-60 | the fields start as the initial state |
| Session.PlaybackSession.CurrentBeat | app.js:98-103 | getCurrentBeat over the fields lies inside the score. While paused it is the stored beat; while playing it is getCurrentBeatAt(now) on the fields' anchor and tempo |
| Session.PlaybackSession.ScheduleNote | app.js:211-305 | the in-place update gives Playback.ScheduleNote |
| Session.PlaybackSession.CleanupVoice | app.js:186-209 | the in-place update gives Playback.CleanupVoice |
| Session.PlaybackSession.StopAllVoices | app.js:307-328 | the loop over the set gives Playback.StopAllVoices |
| Session.PlaybackSession.StopScheduler | app.js:330-335 | only the interval is cleared |
| Session.PlaybackSession.Tick | app.js:337-371 | the while loop over the cursor, then the end-of-score check, gives Playback.Tick |
| Session.PlaybackSession.VisitNote | app.js:345-361 | one loop body gives Playback.Visit |
| Session.PlaybackSession.StartScheduler | app.js:373-377 | gives Playback.StartScheduler |
| Session.PlaybackSession.RestartFromBeat | app.js:379-398 | gives Playback.Restart |
| Session.PlaybackSession.Play | app.js:400-416 | gives Playback.Play |
| Session.PlaybackSession.Pause | app.js:418-428 | gives Playback.Pause |
| Session.PlaybackSession.StopPlayback | app.js:430-435 | gives Playback.StopPlayback |
| Session.PlaybackSession.SetTempo | app.js:437-455 | gives Playback.SetTempo |

## Left out

- **Canvas and DOM.** Rendering, layout, labels, playhead following and the UI wiring (app.js:457-638) are display code.
- **Audio graph.** `ensureAudio` and `createImpulseResponse` (app.js:127-184) build the audio graph through foreign API calls. The model has only `audioReady`, which `play` sets, because the model assumes the audio context can always be created. A browser without Web Audio is not modelled. There, `new AudioContextCtor()` throws inside `ensureAudio` (app.js:149-150), so `play` rejects before it reaches its `audioCtx` check.
- **Voice node settings.** Oscillator types, frequencies, vibrato and tremolo settings, the filter, `connect`/`disconnect` and the gain automation inside `scheduleNote` and `stopAllVoices` are not modelled. A voice start is logged with its note, start time, length in beats and envelope. A force-stop is logged with its fade start and oscillator stop time. `midiToHz` and the random vibrato rate (app.js:62-64, 255) are floating-point and random.
- **`vibratoAmount` and `volume`** in `state` are never changed by the core, and only scale audio node settings. They are left out.
- **Timers and async.**
  - `setInterval`, `requestAnimationFrame` and `animationLoop` are not modelled. Each tick is an explicit call with the clock reading `now`. The installed interval is the flag `schedulerOn`.
  - The `await audioCtx.resume()` in `play` is not modelled. `play` runs to completion in one step.
  - A voice's `onended` is the external call `CleanupVoice`.
- **Floating point.** Beats and seconds are reals. The exact inverse of the time map holds over reals only, not in IEEE-754 arithmetic.
- NoteIndex.BinarySearchByStart: the midpoint `(lo + hi) >> 1` (app.js:113) is a 32-bit operation in JavaScript, and the model uses an unbounded `int`. The two differ only when lo + hi reaches 2^31, which needs more than 2^30 notes.
- **Display strings.** `formatClock` and the text of `formatBarBeat` are display strings. Only the bar number is modelled.
- **`setTempo`'s `Number(input)` parsing.** An input is `None` (not a number) or the number itself.
- Labels.MidiToLabel: takes a non-negative MIDI number. With a negative one, the JavaScript code indexes its name array out of range.
- Playback.Tick: its own contract states only the invariant. Its effect is stated by the lemmas of PlaybackFacts and TransportFacts and by Session.PlaybackSession.
- Playback.StartScheduler: its own contract states only the invariant. Its effect is stated by the lemmas of PlaybackFacts and TransportFacts and by Session.PlaybackSession.
- Playback.Restart: its own contract states only the invariant. Its effect is stated by the lemmas of PlaybackFacts and TransportFacts and by Session.PlaybackSession.
- Playback.Play: its own contract states only the invariant. Its effect is stated by the lemmas of PlaybackFacts and TransportFacts and by Session.PlaybackSession.
- Playback.Pause: its own contract states only the invariant. Its effect is stated by the lemmas of PlaybackFacts and TransportFacts and by Session.PlaybackSession.
- Playback.StopPlayback: its own contract states only the invariant. Its effect is stated by the lemmas of PlaybackFacts and TransportFacts and by Session.PlaybackSession.
- Playback.SetTempo: its own contract states only the invariant. Its effect is stated by the lemmas of PlaybackFacts and TransportFacts and by Session.PlaybackSession.
- Playback.ScheduleNote: its own contract states only the invariant. Its effect is stated by the lemmas of PlaybackFacts and TransportFacts and by Session.PlaybackSession.
- Playback.CleanupVoice: its own contract states only the invariant. Its effect is stated by the lemmas of PlaybackFacts and TransportFacts and by Session.PlaybackSession.
- Playback.StopAllVoices: its own contract states only the invariant. Its effect is stated by the lemmas of PlaybackFacts and TransportFacts and by Session.PlaybackSession.
- **Score assumptions.** Score data that breaks the assumptions in `Score.Valid` is out of scope. That covers a score of at most 0.0001 beats, unsorted notes, notes before beat 0, and a base tempo below 1.
