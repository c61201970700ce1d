/** The playback engine as state transitions (app.js:41-60, 186-455): the
    transport record, the set of active voices and a log of the audio calls
    the engine makes. Every operation of the engine is a function from the
    state before to the state after; the class in module Session performs
    the same steps in place and is proved equal to these functions. The
    device clock is the parameter `now`. */
module Playback {
  import opened Optional
  import opened NoteIndex
  import opened TimeMap
  import opened VoiceSynth

  const LOOKAHEAD_SECONDS: real := 0.5
  const RESUME_OFFSET_SECONDS: real := 0.05
  /** A note that ended more than this many beats ago is skipped. */
  const SKIP_EPSILON: real := 0.001
  /** A note resumed mid-sustain starts this long after `now`. */
  const TRUNCATED_START_DELAY: real := 0.01
  /** A force-stopped voice's oscillators stop this long after `now`. */
  const FORCE_STOP_SECONDS: real := 0.04
  const MIN_TEMPO: real := 40.0
  const MAX_TEMPO: real := 100.0

  /** A voice, one per sounding note; the number stands for the voice object. */
  type VoiceId = nat

  /** The audio calls the engine makes, in order. */
  datatype Event =
    | /** scheduleNote built a voice for note `index` and started it */
      VoiceStarted(voice: VoiceId, index: nat, startTime: real, durationBeats: real, envelope: Envelope)
    | /** stopAllVoices faded the voice out from `fadeStart` and stopped it at `stopTime` */
      VoiceForceStopped(voice: VoiceId, fadeStart: real, stopTime: real)

  /** `state`, the audio context's existence, `activeVoices` (a JavaScript
      Set, iterated in insertion order) and the log. `schedulerOn` says
      whether a polling interval is installed. */
  datatype PlaybackState = PlaybackState(
    tempo: real,
    isPlaying: bool,
    loop: bool,
    currentBeat: real,
    startBeat: real,
    startCtxTime: real,
    nextIndex: nat,
    schedulerOn: bool,
    audioReady: bool,
    activeVoices: seq<VoiceId>,
    nextVoice: VoiceId,
    log: seq<Event>)

  ghost predicate Distinct(vs: seq<VoiceId>)
  {
    forall i, j | 0 <= i < j < |vs| :: vs[i] != vs[j]
  }

  /** What every reachable state satisfies: a usable tempo, playing only with
      audio, the paused position inside the score, the scan cursor inside the
      note array, and each active voice registered once. */
  ghost predicate Inv(sc: Score, st: PlaybackState)
  {
    && sc.Valid()
    && st.tempo >= 1.0
    && (st.isPlaying ==> st.audioReady)
    && 0.0 <= st.currentBeat <= sc.totalBeats
    && st.nextIndex <= |sc.notes|
    && Distinct(st.activeVoices)
    && (forall v | v in st.activeVoices :: v < st.nextVoice)
  }

  /** The state the page starts in. */
  function Initial(sc: Score): (st: PlaybackState)
    requires sc.Valid()
    ensures Inv(sc, st)
    ensures !st.isPlaying && !st.audioReady && st.loop && st.currentBeat == 0.0
    ensures st.tempo == sc.Tempo() as real && st.activeVoices == [] && st.log == []
    ensures st.startBeat == 0.0 && st.startCtxTime == 0.0 && st.nextIndex == 0
    ensures !st.schedulerOn && st.nextVoice == 0
  {
    PlaybackState(sc.Tempo() as real, false, true, 0.0, 0.0, 0.0, 0, false, false, [], 0, [])
  }

  // ---- time mapping over the state's anchor ----

  /** getCurrentBeatAt(now). */
  function BeatNow(sc: Score, st: PlaybackState, now: real): (b: real)
    ensures 0.0 <= sc.totalBeats ==> 0.0 <= b <= sc.totalBeats
    ensures now == st.startCtxTime && 0.0 <= st.startBeat <= sc.totalBeats ==> b == st.startBeat
  {
    BeatAt(st.startBeat, st.startCtxTime, st.tempo, sc.totalBeats, now)
  }

  /** getCurrentBeat(): the live position while playing, the stored one otherwise. */
  function CurrentBeat(sc: Score, st: PlaybackState, now: real): (b: real)
    requires Inv(sc, st)
    ensures 0.0 <= b <= sc.totalBeats
    ensures !st.isPlaying ==> b == st.currentBeat
    ensures st.isPlaying ==> b == BeatNow(sc, st, now)
  {
    if !st.isPlaying || !st.audioReady then st.currentBeat else BeatNow(sc, st, now)
  }

  /** The last beat a tick whose playhead is at `currentBeat` schedules:
      half a second of music ahead. */
  function Lookahead(st: PlaybackState, currentBeat: real): (b: real)
    ensures st.tempo > 0.0 ==> currentBeat < b
    ensures st.tempo > 0.0 ==> BeatsToSeconds(b - currentBeat, st.tempo) == LOOKAHEAD_SECONDS
  {
    currentBeat + (st.tempo * LOOKAHEAD_SECONDS) / 60.0
  }

  /** timeForBeat(beat). */
  function TimeOf(st: PlaybackState, beat: real): (t: real)
    requires st.tempo > 0.0
    ensures RawBeatAt(st.startBeat, st.startCtxTime, st.tempo, t) == beat
    ensures beat == st.startBeat ==> t == st.startCtxTime
  {
    TimeForBeat(st.startBeat, st.startCtxTime, st.tempo, beat)
  }

  // ---- voices ----

  /** scheduleNote(note k, startTime, override): without audio, or with an
      effective duration that is not positive, nothing; otherwise one new
      voice is registered and started. */
  function ScheduleNote(sc: Score, st: PlaybackState, k: nat, startTime: real, durationOverride: Option<real>): (r: PlaybackState)
    requires Inv(sc, st) && k < |sc.notes|
    ensures Inv(sc, r)
  {
    var note := sc.notes[k];
    var durationBeats := EffectiveDuration(durationOverride, note.d);
    if !st.audioReady || durationBeats <= 0.0 then st
    else
      var v := st.nextVoice;
      DistinctAppend(st.activeVoices, v);
      st.(activeVoices := st.activeVoices + [v],
          nextVoice := v + 1,
          log := st.log + [VoiceStarted(v, k, startTime, durationBeats, MakeEnvelope(startTime, durationBeats, st.tempo, note.s))])
  }

  /** `vs` without `v`, in the same order. */
  function Remove(vs: seq<VoiceId>, v: VoiceId): (r: seq<VoiceId>)
    ensures forall x :: x in r <==> x in vs && x != v
    ensures Distinct(vs) ==> Distinct(r)
  {
    if vs == [] then []
    else if vs[0] == v then Remove(vs[1..], v)
    else
      var rest := Remove(vs[1..], v);
      DistinctPrepend(vs[0], rest);
      [vs[0]] + rest
  }

  lemma DistinctAppend(vs: seq<VoiceId>, x: VoiceId)
    ensures x !in vs && Distinct(vs) ==> Distinct(vs + [x])
  {
    if x !in vs && Distinct(vs) {
      var s := vs + [x];
      forall i, j | 0 <= i < j < |s| ensures s[i] != s[j] {
        if j == |vs| {
          assert s[i] in vs;
        }
      }
    }
  }

  lemma DistinctPrepend(x: VoiceId, vs: seq<VoiceId>)
    ensures x !in vs && Distinct(vs) ==> Distinct([x] + vs)
  {
    if x !in vs && Distinct(vs) {
      var s := [x] + vs;
      forall i, j | 0 <= i < j < |s| ensures s[i] != s[j] {
        if i == 0 {
          assert s[j] in vs;
        } else {
          assert s[i] == vs[i - 1] && s[j] == vs[j - 1];
        }
      }
    }
  }

  /** cleanupVoice(v), run when the voice's first oscillator ends: the voice
      leaves the active set. Disconnecting its nodes is not logged. */
  function CleanupVoice(sc: Score, st: PlaybackState, v: VoiceId): (r: PlaybackState)
    requires Inv(sc, st)
    ensures Inv(sc, r)
  {
    st.(activeVoices := Remove(st.activeVoices, v))
  }

  /** The force-stop calls stopAllVoices makes, one per voice, in set order. */
  function ForceStops(vs: seq<VoiceId>, now: real): (r: seq<Event>)
    ensures |r| == |vs|
    ensures forall i | 0 <= i < |vs| :: r[i] == VoiceForceStopped(vs[i], now, now + FORCE_STOP_SECONDS)
  {
    seq(|vs|, i requires 0 <= i < |vs| => VoiceForceStopped(vs[i], now, now + FORCE_STOP_SECONDS))
  }

  /** stopAllVoices(): every active voice is faded and stopped early; the
      voices stay registered until their oscillators report the end. */
  function StopAllVoices(sc: Score, st: PlaybackState, now: real): (r: PlaybackState)
    requires Inv(sc, st)
    ensures Inv(sc, r)
  {
    if !st.audioReady then st else st.(log := st.log + ForceStops(st.activeVoices, now))
  }

  // ---- the scheduler ----

  /** One scheduleNote call: a start time and an optional duration override. */
  datatype Call = Call(startTime: real, durationOverride: Option<real>)

  /** The branch of the tick for a note while the playhead is at `currentBeat`
      (app.js:352-359): skipped (None) exactly when the note ended 0.001 beats
      or more ago; otherwise scheduled in full at its own time when it starts at
      or after the playhead, and right away with what remains of it when it
      has already started. */
  function Decide(st: PlaybackState, note: Note, currentBeat: real, now: real): (c: Option<Call>)
    requires st.tempo > 0.0
    ensures c.None? <==> note.t + note.d <= currentBeat - SKIP_EPSILON
    ensures c.Some? && note.t >= currentBeat ==> c == Some(Call(TimeOf(st, note.t), None))
    ensures c.Some? && note.t < currentBeat ==>
      c == Some(Call(now + TRUNCATED_START_DELAY, Some(note.t + note.d - currentBeat)))
  {
    var noteEnd := note.t + note.d;
    if noteEnd > currentBeat - SKIP_EPSILON then
      if note.t >= currentBeat then Some(Call(TimeOf(st, note.t), None))
      else Some(Call(now + TRUNCATED_START_DELAY, Some(noteEnd - currentBeat)))
    else None
  }

  /** One pass of the tick's loop body on the note at the cursor. */
  function Visit(sc: Score, st: PlaybackState, currentBeat: real, now: real): (r: PlaybackState)
    requires Inv(sc, st) && st.nextIndex < |sc.notes|
    ensures Inv(sc, r)
    ensures r.nextIndex == st.nextIndex + 1
  {
    var k := st.nextIndex;
    var st1 := match Decide(st, sc.notes[k], currentBeat, now)
      case None => st
      case Some(c) => ScheduleNote(sc, st, k, c.startTime, c.durationOverride);
    st1.(nextIndex := k + 1)
  }

  /** The tick's loop: visit notes from the cursor until one starts after the
      look-ahead beat or the notes run out. Only the cursor, the voices and
      the log change. */
  function Scan(sc: Score, st: PlaybackState, currentBeat: real, lookahead: real, now: real): (r: PlaybackState)
    requires Inv(sc, st)
    ensures Inv(sc, r)
    ensures st.nextIndex <= r.nextIndex
    ensures r.nextIndex == |sc.notes| || sc.notes[r.nextIndex].t > lookahead
    ensures forall k | st.nextIndex <= k < r.nextIndex :: sc.notes[k].t <= lookahead
    ensures r == st.(nextIndex := r.nextIndex, activeVoices := r.activeVoices, nextVoice := r.nextVoice, log := r.log)
    decreases |sc.notes| - st.nextIndex
  {
    if st.nextIndex == |sc.notes| || sc.notes[st.nextIndex].t > lookahead then st
    else Scan(sc, Visit(sc, st, currentBeat, now), currentBeat, lookahead, now)
  }

  /** The tick will reach the end of the score (and so restart or stop). */
  ghost predicate WillWrap(sc: Score, st: PlaybackState, now: real): (w: bool)
    ensures w ==> st.isPlaying && st.audioReady
    ensures (st.isPlaying && st.audioReady && 0.0 <= sc.totalBeats
             && RawBeatAt(st.startBeat, st.startCtxTime, st.tempo, now) >= sc.totalBeats) ==> w
  {
    st.isPlaying && st.audioReady && BeatNow(sc, st, now) >= sc.totalBeats - END_EPSILON
  }

  /** Termination measure of the tick: a wrapping tick calls restartFromBeat,
      which calls startScheduler, which runs a tick that does not wrap. */
  ghost function TickRank(sc: Score, st: PlaybackState, now: real): nat
  {
    if WillWrap(sc, st, now) then 3 else 0
  }

  /** The tick that restartFromBeat runs through startScheduler sees the beat
      max(0, target - 0.05 * tempo / 60), which stays below the end threshold
      TOTAL_BEATS - 0.0001, so it does not reach the end of the score again. */
  lemma RestartedTickDoesNotWrap(sc: Score, st: PlaybackState, now: real)
    requires sc.Valid() && st.tempo >= 1.0
    requires 0.0 <= st.startBeat <= sc.totalBeats
    requires st.startCtxTime == now + RESUME_OFFSET_SECONDS
    ensures BeatNow(sc, st, now) < sc.totalBeats - END_EPSILON
    ensures !WillWrap(sc, st, now)
  {
    var raw := RawBeatAt(st.startBeat, st.startCtxTime, st.tempo, now);
    assert now - st.startCtxTime == -RESUME_OFFSET_SECONDS;
    assert raw == st.startBeat - (RESUME_OFFSET_SECONDS * st.tempo) / 60.0;
    assert raw <= sc.totalBeats - RESUME_OFFSET_SECONDS / 60.0;
  }

  /** schedulerTick(): idle unless playing with audio; otherwise scan the
      look-ahead window from the cursor, then at the end of the score restart
      from beat 0 when looping and stop otherwise. */
  function Tick(sc: Score, st: PlaybackState, now: real): (r: PlaybackState)
    requires Inv(sc, st)
    ensures Inv(sc, r)
    decreases TickRank(sc, st, now)
  {
    if !st.isPlaying || !st.audioReady then st
    else
      var currentBeat := BeatNow(sc, st, now);
      var st1 := Scan(sc, st, currentBeat, Lookahead(st, currentBeat), now);
      if currentBeat >= sc.totalBeats - END_EPSILON then
        if st1.loop then Restart(sc, st1, 0.0, true, now) else StopPlayback(sc, st1, now)
      else st1
  }

  /** startScheduler(): clear the interval, tick once, install the interval. */
  function StartScheduler(sc: Score, st: PlaybackState, now: real): (r: PlaybackState)
    requires Inv(sc, st)
    ensures Inv(sc, r)
    decreases TickRank(sc, st, now) + 1
  {
    Tick(sc, st.(schedulerOn := false), now).(schedulerOn := true)
  }

  /** restartFromBeat(beat, keepPlaying): without audio nothing; otherwise
      stop the scheduler and all voices, re-anchor at the clamped beat 0.05 s
      from now, move the cursor to the resume index and, when asked, play on. */
  function Restart(sc: Score, st: PlaybackState, beat: real, keepPlaying: bool, now: real): (r: PlaybackState)
    requires Inv(sc, st)
    ensures Inv(sc, r)
    decreases 2
  {
    if !st.audioReady then st
    else
      var clamped := Clamp(beat, 0.0, sc.totalBeats);
      var st1 := StopAllVoices(sc, st.(schedulerOn := false), now);
      var st2 := st1.(currentBeat := clamped, startBeat := clamped,
                      startCtxTime := now + RESUME_OFFSET_SECONDS,
                      nextIndex := StartIndex(sc.notes, clamped));
      if keepPlaying then
        var st3 := st2.(isPlaying := true);
        RestartedTickDoesNotWrap(sc, st3, now);
        StartScheduler(sc, st3, now)
      else st2
  }

  // ---- transport ----

  /** play(): create the audio context if needed; unless already playing,
      restart from the stored position and play. */
  function Play(sc: Score, st: PlaybackState, now: real): (r: PlaybackState)
    requires Inv(sc, st)
    ensures Inv(sc, r)
  {
    var st1 := st.(audioReady := true);
    if st1.isPlaying then st1 else Restart(sc, st1, st1.currentBeat, true, now)
  }

  /** pause(): when playing, store the live position, stop the scheduler and
      force-stop all voices. */
  function Pause(sc: Score, st: PlaybackState, now: real): (r: PlaybackState)
    requires Inv(sc, st)
    ensures Inv(sc, r)
  {
    if !st.isPlaying then st
    else StopAllVoices(sc, st.(currentBeat := CurrentBeat(sc, st, now), isPlaying := false, schedulerOn := false), now)
  }

  /** stopPlayback(): pause and rewind to beat 0. */
  function StopPlayback(sc: Score, st: PlaybackState, now: real): (r: PlaybackState)
    requires Inv(sc, st)
    ensures Inv(sc, r)
  {
    Pause(sc, st, now).(currentBeat := 0.0)
  }

  /** The tempo setTempo stores for an input: `Number(input) || BASE_TEMPO`
      clamped into [40, 100]; None stands for an input that is not a number. */
  function RequestedTempo(sc: Score, input: Option<real>): (tempo: real)
    ensures MIN_TEMPO <= tempo <= MAX_TEMPO
    ensures input.None? || input.value == 0.0 ==> tempo == Clamp(sc.Tempo() as real, MIN_TEMPO, MAX_TEMPO)
    ensures input.Some? && input.value != 0.0 ==> tempo == Clamp(input.value, MIN_TEMPO, MAX_TEMPO)
  {
    Clamp(if input.None? || input.value == 0.0 then sc.Tempo() as real else input.value, MIN_TEMPO, MAX_TEMPO)
  }

  /** setTempo(input): an unchanged tempo does nothing; otherwise, while
      playing, restart from the beat reached under the old tempo, and while
      paused store the new tempo (and the unchanged position). */
  function SetTempo(sc: Score, st: PlaybackState, input: Option<real>, now: real): (r: PlaybackState)
    requires Inv(sc, st)
    ensures Inv(sc, r)
  {
    var tempo := RequestedTempo(sc, input);
    if tempo == st.tempo then st
    else
      var wasPlaying := st.isPlaying;
      var beat := CurrentBeat(sc, st, now);
      var st1 := st.(tempo := tempo);
      if wasPlaying && st.audioReady then Restart(sc, st1, beat, true, now)
      else st1.(currentBeat := beat)
  }
}
