/** What a tick does as a whole, and what the transport operations
    guarantee, proved about the transitions of module Playback. */
module TransportFacts {
  import opened Optional
  import opened NoteIndex
  import opened TimeMap
  import opened VoiceSynth
  import opened Playback
  import opened PlaybackFacts

  /** A tick does nothing unless playing with audio. */
  lemma TickIdleUnlessPlaying(sc: Score, st: PlaybackState, now: real)
    requires Inv(sc, st)
    requires !st.isPlaying || !st.audioReady
    ensures Tick(sc, st, now) == st
  {
  }

  /** Before the end of the score a tick only scans: the cursor moves forward,
      never past the notes, and stops at the first note after the look-ahead
      beat; anchor, tempo and transport flags stay; and the log gains exactly
      the voice starts of ScanAdds. */
  lemma TickInsideScore(sc: Score, st: PlaybackState, now: real)
    requires Inv(sc, st) && st.isPlaying && st.audioReady
    requires BeatNow(sc, st, now) < sc.totalBeats - END_EPSILON
    ensures var r := Tick(sc, st, now);
      var currentBeat := BeatNow(sc, st, now);
      && st.nextIndex <= r.nextIndex <= |sc.notes|
      && (r.nextIndex == |sc.notes| || sc.notes[r.nextIndex].t > Lookahead(st, currentBeat))
      && (forall k | st.nextIndex <= k < r.nextIndex :: sc.notes[k].t <= Lookahead(st, currentBeat))
      && SameAnchor(st, r)
      && ScanAdds(sc, st, r, currentBeat, now)
  {
    ScanStartsEachNoteAtMostOnce(sc, st, BeatNow(sc, st, now), Lookahead(st, BeatNow(sc, st, now)), now);
  }

  /** Within one uninterrupted run of ticks no note gets two voices: every
      note the second tick starts comes after every note the first started. */
  lemma ConsecutiveTicksNeverRepeatANote(sc: Score, st: PlaybackState, now1: real, now2: real)
    requires Inv(sc, st) && st.isPlaying && st.audioReady
    requires BeatNow(sc, st, now1) < sc.totalBeats - END_EPSILON
    requires BeatNow(sc, Tick(sc, st, now1), now2) < sc.totalBeats - END_EPSILON
    ensures var r1 := Tick(sc, st, now1);
      var r2 := Tick(sc, r1, now2);
      && |st.log| <= |r1.log| <= |r2.log|
      && forall i, j | |st.log| <= i < |r1.log| <= j < |r2.log| ::
           r1.log[i].VoiceStarted? && r2.log[j].VoiceStarted? && r2.log[i] == r1.log[i] && r1.log[i].index < r2.log[j].index
  {
    var r1 := Tick(sc, st, now1);
    TickInsideScore(sc, st, now1);
    TickInsideScore(sc, r1, now2);
    var r2 := Tick(sc, r1, now2);
    var a1 := r1.log[|st.log|..];
    var a2 := r2.log[|r1.log|..];
    forall i, j | |st.log| <= i < |r1.log| <= j < |r2.log|
      ensures r1.log[i].VoiceStarted? && r2.log[j].VoiceStarted? && r2.log[i] == r1.log[i] && r1.log[i].index < r2.log[j].index
    {
      assert r1.log[i] == a1[i - |st.log|];
      assert r2.log[j] == a2[j - |r1.log|];
      assert r2.log[..|r1.log|] == r1.log;
    }
  }

  /** The ticks run at the clock readings `times`, one after the other. */
  function TickRun(sc: Score, st: PlaybackState, times: seq<real>): (r: PlaybackState)
    requires Inv(sc, st)
    ensures Inv(sc, r)
    decreases |times|
  {
    if times == [] then st else TickRun(sc, Tick(sc, st, times[0]), times[1..])
  }

  /** Every tick of the run plays with audio and none reaches the end of the
      score: nothing restarts, pauses or stops playback in between. */
  ghost predicate Uninterrupted(sc: Score, st: PlaybackState, times: seq<real>)
    requires Inv(sc, st)
    decreases |times|
  {
    times == [] ||
      (&& st.isPlaying && st.audioReady
       && BeatNow(sc, st, times[0]) < sc.totalBeats - END_EPSILON
       && Uninterrupted(sc, Tick(sc, st, times[0]), times[1..]))
  }

  /** The entries of `added` start voices for strictly increasing note indices. */
  ghost predicate StartsIncreasing(added: seq<Event>)
  {
    forall i, j | 0 <= i < j < |added| :: added[i].VoiceStarted? && added[j].VoiceStarted? && added[i].index < added[j].index
  }

  /** The entries from `st` to `r` start voices for notes between the two
      cursors, in strictly increasing note order. */
  ghost predicate StartsFreshInOrder(st: PlaybackState, r: PlaybackState)
  {
    && st.nextIndex <= r.nextIndex
    && Extends(st, r)
    && StartsBetween(r.log[|st.log|..], st.nextIndex, r.nextIndex)
    && StartsIncreasing(r.log[|st.log|..])
  }

  lemma StartsBetweenAppend(a1: seq<Event>, a2: seq<Event>, lo: nat, mid: nat, hi: nat)
    requires lo <= mid <= hi
    requires StartsBetween(a1, lo, mid) && StartsBetween(a2, mid, hi)
    ensures StartsBetween(a1 + a2, lo, hi)
  {
    forall i | 0 <= i < |a1 + a2|
      ensures (a1 + a2)[i].VoiceStarted? && lo <= (a1 + a2)[i].index < hi
    {
      if i >= |a1| {
        assert (a1 + a2)[i] == a2[i - |a1|];
      }
    }
  }

  lemma StartsIncreasingAppend(a1: seq<Event>, a2: seq<Event>, lo: nat, mid: nat, hi: nat)
    requires StartsBetween(a1, lo, mid) && StartsBetween(a2, mid, hi)
    requires StartsIncreasing(a1) && StartsIncreasing(a2)
    ensures StartsIncreasing(a1 + a2)
  {
    forall i, j | 0 <= i < j < |a1 + a2|
      ensures (a1 + a2)[i].VoiceStarted? && (a1 + a2)[j].VoiceStarted? && (a1 + a2)[i].index < (a1 + a2)[j].index
    {
      if j < |a1| {
        assert (a1 + a2)[i] == a1[i] && (a1 + a2)[j] == a1[j];
      } else if i < |a1| {
        assert (a1 + a2)[i] == a1[i] && (a1 + a2)[j] == a2[j - |a1|];
      } else {
        assert (a1 + a2)[i] == a2[i - |a1|] && (a1 + a2)[j] == a2[j - |a1|];
      }
    }
  }

  lemma StartsFreshInOrderCompose(st: PlaybackState, mid: PlaybackState, r: PlaybackState)
    requires StartsFreshInOrder(st, mid) && StartsFreshInOrder(mid, r)
    ensures StartsFreshInOrder(st, r)
  {
    ExtendsCompose(st, mid, r);
    var a1 := mid.log[|st.log|..];
    var a2 := r.log[|mid.log|..];
    StartsBetweenAppend(a1, a2, st.nextIndex, mid.nextIndex, r.nextIndex);
    StartsIncreasingAppend(a1, a2, st.nextIndex, mid.nextIndex, r.nextIndex);
  }

  /** One tick before the end starts voices for fresh notes, in order. */
  lemma TickStartsFreshInOrder(sc: Score, st: PlaybackState, now: real)
    requires Inv(sc, st) && st.isPlaying && st.audioReady
    requires BeatNow(sc, st, now) < sc.totalBeats - END_EPSILON
    ensures StartsFreshInOrder(st, Tick(sc, st, now))
  {
    TickInsideScore(sc, st, now);
  }

  /** Within an uninterrupted run of ticks of any length no note gets two
      voices: the whole run starts voices for notes between the first and the
      last cursor, in strictly increasing note order. */
  lemma {:induction false} UninterruptedRunNeverRepeatsANote(sc: Score, st: PlaybackState, times: seq<real>)
    requires Inv(sc, st) && Uninterrupted(sc, st, times)
    ensures StartsFreshInOrder(st, TickRun(sc, st, times))
    decreases |times|
  {
    if times == [] {
      assert st.log[|st.log|..] == [];
    } else {
      var mid := Tick(sc, st, times[0]);
      TickStartsFreshInOrder(sc, st, times[0]);
      UninterruptedRunNeverRepeatsANote(sc, mid, times[1..]);
      StartsFreshInOrderCompose(st, mid, TickRun(sc, mid, times[1..]));
    }
  }

  /** The resume index of beat 0 is the first note: no note starts before 0. */
  lemma StartIndexOfZero(sc: Score)
    requires sc.Valid()
    ensures StartIndex(sc.notes, 0.0) == 0
  {
  }

  /** The state restartFromBeat(beat, true) hands to its tick: scheduler off,
      every voice force-stopped, anchored at the clamped beat 0.05 s from now,
      cursor at the resume index, playing. */
  function Rearmed(sc: Score, st: PlaybackState, beat: real, now: real): PlaybackState
  {
    var clamped := Clamp(beat, 0.0, sc.totalBeats);
    st.(schedulerOn := false, log := st.log + ForceStops(st.activeVoices, now),
        currentBeat := clamped, startBeat := clamped, startCtxTime := now + RESUME_OFFSET_SECONDS,
        nextIndex := StartIndex(sc.notes, clamped), isPlaying := true)
  }

  /** restartFromBeat(beat, true) with audio is the scan of its re-armed
      state with the scheduler installed after it: its nested tick does not
      reach the end of the score. */
  lemma RestartIsRearmedScan(sc: Score, st: PlaybackState, beat: real, now: real)
    requires Inv(sc, st) && st.audioReady
    ensures var armed := Rearmed(sc, st, beat, now);
      && Inv(sc, armed)
      && BeatNow(sc, armed, now) < sc.totalBeats - END_EPSILON
      && Restart(sc, st, beat, true, now)
           == Scan(sc, armed, BeatNow(sc, armed, now), Lookahead(armed, BeatNow(sc, armed, now)), now).(schedulerOn := true)
  {
    var armed := Rearmed(sc, st, beat, now);
    assert Inv(sc, armed);
    RestartedTickDoesNotWrap(sc, armed, now);
    assert armed.(schedulerOn := false) == armed;
    var currentBeat := BeatNow(sc, armed, now);
    assert Tick(sc, armed, now) == Scan(sc, armed, currentBeat, Lookahead(armed, currentBeat), now);
    assert Restart(sc, st, beat, true, now) == StartScheduler(sc, armed, now);
  }

  /** The playhead of the tick restartFromBeat(beat, true) runs lies 0.05 s
      of music before the clamped beat, or at 0. */
  lemma RearmedPlayhead(sc: Score, st: PlaybackState, beat: real, now: real)
    requires Inv(sc, st)
    ensures var clamped := Clamp(beat, 0.0, sc.totalBeats);
      BeatNow(sc, Rearmed(sc, st, beat, now), now) == Max(0.0, clamped - (RESUME_OFFSET_SECONDS * st.tempo) / 60.0)
  {
    var clamped := Clamp(beat, 0.0, sc.totalBeats);
    var armed := Rearmed(sc, st, beat, now);
    assert RawBeatAt(armed.startBeat, armed.startCtxTime, armed.tempo, now) == clamped - (RESUME_OFFSET_SECONDS * st.tempo) / 60.0;
  }

  /** restartFromBeat(beat, true) with audio: every voice is force-stopped,
      playback goes on from the clamped beat anchored 0.05 s from now, and the
      tick it runs scans from the resume index with the playhead 0.05 s of
      music before the target, without reaching the end of the score. */
  lemma RestartPlaysFromClampedBeat(sc: Score, st: PlaybackState, beat: real, now: real)
    requires Inv(sc, st) && st.audioReady
    ensures var clamped := Clamp(beat, 0.0, sc.totalBeats);
      var armed := Rearmed(sc, st, beat, now);
      var r := Restart(sc, st, beat, true, now);
      && 0.0 <= clamped <= sc.totalBeats
      && r.isPlaying && r.schedulerOn && r.loop == st.loop && r.tempo == st.tempo
      && r.currentBeat == clamped && r.startBeat == clamped
      && r.startCtxTime == now + RESUME_OFFSET_SECONDS
      && StartIndex(sc.notes, clamped) <= r.nextIndex
      && BeatNow(sc, armed, now) < sc.totalBeats - END_EPSILON
      && BeatNow(sc, armed, now) == Max(0.0, clamped - (RESUME_OFFSET_SECONDS * st.tempo) / 60.0)
      && (r.nextIndex == |sc.notes| || sc.notes[r.nextIndex].t > Lookahead(armed, BeatNow(sc, armed, now)))
      && ScanAdds(sc, armed, r, BeatNow(sc, armed, now), now)
  {
    var clamped := Clamp(beat, 0.0, sc.totalBeats);
    var armed := Rearmed(sc, st, beat, now);
    RestartIsRearmedScan(sc, st, beat, now);
    var currentBeat := BeatNow(sc, armed, now);
    ScanStartsEachNoteAtMostOnce(sc, armed, currentBeat, Lookahead(armed, currentBeat), now);
    RearmedPlayhead(sc, st, beat, now);
  }

  /** The tick that restartFromBeat(beat, true) runs, with `beat` anchored
      0.05 s ahead, has its playhead `lead` beats before `beat` (or at 0).
      For a note sounding at `beat` that started more than `lead` beats
      earlier, that tick plays the remainder measured from its playhead,
      `lead` beats more than what is left after `beat`. A note that started
      within those `lead` beats is played whole, in the 0.05 s before `beat`
      is reached. */
  lemma ResumeDecision(st: PlaybackState, beat: real, note: Note, playhead: real, now: real)
    requires st.tempo > 0.0
    requires st.startBeat == beat && st.startCtxTime == now + RESUME_OFFSET_SECONDS
    requires 0.0 <= note.t < beat < note.t + note.d
    requires playhead == Max(0.0, beat - (RESUME_OFFSET_SECONDS * st.tempo) / 60.0)
    ensures var lead := (RESUME_OFFSET_SECONDS * st.tempo) / 60.0;
      var c := Decide(st, note, playhead, now);
      && (note.t < beat - lead ==>
            && c == Some(Call(now + TRUNCATED_START_DELAY, Some(note.t + note.d - beat + lead)))
            && EffectiveDuration(c.value.durationOverride, note.d) == note.t + note.d - beat + lead)
      && (beat - lead <= note.t ==>
            && c == Some(Call(TimeOf(st, note.t), None))
            && EffectiveDuration(c.value.durationOverride, note.d) == note.d
            && now <= TimeOf(st, note.t) < now + RESUME_OFFSET_SECONDS)
  {
    var lead := (RESUME_OFFSET_SECONDS * st.tempo) / 60.0;
    if beat - lead <= note.t {
      ShortSpanLastsLess(beat - note.t, RESUME_OFFSET_SECONDS, st.tempo);
      assert ((note.t - beat) * 60.0) / st.tempo == -(((beat - note.t) * 60.0) / st.tempo);
    }
  }

  /** restartFromBeat(beat, true) gives a note of at most four beats that is
      sounding at `beat` a voice of its own, with the start and length that
      ResumeDecision describes for the re-armed state. */
  lemma ResumeAtHeldNote(sc: Score, st: PlaybackState, beat: real, k: nat, now: real)
    requires Inv(sc, st) && st.audioReady
    requires 0.0 <= beat <= sc.totalBeats
    requires k < |sc.notes| && sc.notes[k].t < beat < sc.notes[k].t + sc.notes[k].d
    requires sc.notes[k].d <= MAX_SUSTAIN_BEATS
    ensures var r := Restart(sc, st, beat, true, now);
      var armed := Rearmed(sc, st, beat, now);
      var note := sc.notes[k];
      var lead := (RESUME_OFFSET_SECONDS * st.tempo) / 60.0;
      exists i | |armed.log| <= i < |r.log| ::
        && r.log[i].VoiceStarted? && r.log[i].index == k
        && (note.t < beat - lead ==>
              r.log[i].startTime == now + TRUNCATED_START_DELAY && r.log[i].durationBeats == note.t + note.d - beat + lead)
        && (beat - lead <= note.t ==>
              r.log[i].startTime == TimeOf(armed, note.t) && r.log[i].durationBeats == note.d)
  {
    var r := Restart(sc, st, beat, true, now);
    var armed := Rearmed(sc, st, beat, now);
    var note := sc.notes[k];
    var lead := (RESUME_OFFSET_SECONDS * st.tempo) / 60.0;
    var p := BeatNow(sc, armed, now);
    RestartPlaysFromClampedBeat(sc, st, beat, now);
    ResumeDecision(armed, beat, note, p, now);
    ResumeIndexCoversHeldNotes(sc.notes, beat, k);
    SortedStartsSorted(sc.notes);
    assert k < r.nextIndex by {
      assert Lookahead(armed, p) > beat;
    }
    assert Sounds(sc, armed, k, p, now);
    var added := r.log[|armed.log|..];
    var i :| 0 <= i < |added| && added[i].VoiceStarted? && added[i].index == k;
    assert StartedAsDecided(sc, armed, added[i], p, now);
    assert r.log[|armed.log| + i] == added[i];
  }

  /** restartFromBeat without audio does nothing; with audio but without
      playing on it only stops voices and re-anchors at the clamped beat. */
  lemma RestartWithoutPlaying(sc: Score, st: PlaybackState, beat: real, keepPlaying: bool, now: real)
    requires Inv(sc, st)
    requires !st.audioReady || !keepPlaying
    ensures var r := Restart(sc, st, beat, keepPlaying, now);
      var clamped := Clamp(beat, 0.0, sc.totalBeats);
      if !st.audioReady then r == st
      else r == Rearmed(sc, st, beat, now).(isPlaying := st.isPlaying)
  {
  }

  /** At the end of the score with looping on, the tick force-stops every
      voice and plays on from beat 0: anchored 0.05 s from now, the cursor back
      at the first note, which the nested tick visits with the playhead at 0. */
  lemma TickAtEndLoops(sc: Score, st: PlaybackState, now: real)
    requires Inv(sc, st) && st.isPlaying && st.audioReady && st.loop
    requires BeatNow(sc, st, now) >= sc.totalBeats - END_EPSILON
    ensures var currentBeat := BeatNow(sc, st, now);
      var scanned := Scan(sc, st, currentBeat, Lookahead(st, currentBeat), now);
      var armed := Rearmed(sc, scanned, 0.0, now);
      var r := Tick(sc, st, now);
      && r.isPlaying && r.schedulerOn && r.loop && r.tempo == st.tempo
      && r.currentBeat == 0.0 && r.startBeat == 0.0
      && r.startCtxTime == now + RESUME_OFFSET_SECONDS
      && armed.nextIndex == 0
      && armed.log == scanned.log + ForceStops(scanned.activeVoices, now)
      && BeatNow(sc, armed, now) == 0.0
      && (r.nextIndex == |sc.notes| || sc.notes[r.nextIndex].t > Lookahead(armed, 0.0))
      && ScanAdds(sc, armed, r, 0.0, now)
  {
    var currentBeat := BeatNow(sc, st, now);
    var scanned := Scan(sc, st, currentBeat, Lookahead(st, currentBeat), now);
    StartIndexOfZero(sc);
    RestartPlaysFromClampedBeat(sc, scanned, 0.0, now);
  }

  /** After a loop wrap, a note at beat 0 is the first voice started: at the
      device time of beat 0, 0.05 s from now, for its whole length. */
  lemma LoopWrapStartsWithFirstNote(sc: Score, st: PlaybackState, now: real)
    requires Inv(sc, st) && st.isPlaying && st.audioReady && st.loop
    requires BeatNow(sc, st, now) >= sc.totalBeats - END_EPSILON
    requires |sc.notes| > 0 && sc.notes[0].t == 0.0 && sc.notes[0].d > 0.0
    ensures var currentBeat := BeatNow(sc, st, now);
      var scanned := Scan(sc, st, currentBeat, Lookahead(st, currentBeat), now);
      var n := |scanned.log| + |scanned.activeVoices|;
      var r := Tick(sc, st, now);
      && n < |r.log|
      && r.log[n].VoiceStarted? && r.log[n].index == 0
      && r.log[n].startTime == now + RESUME_OFFSET_SECONDS
      && r.log[n].durationBeats == sc.notes[0].d
  {
    var currentBeat := BeatNow(sc, st, now);
    var scanned := Scan(sc, st, currentBeat, Lookahead(st, currentBeat), now);
    var armed := Rearmed(sc, scanned, 0.0, now);
    var r := Tick(sc, st, now);
    TickAtEndLoops(sc, st, now);
    assert |armed.log| == |scanned.log| + |scanned.activeVoices|;
    var added := r.log[|armed.log|..];
    assert Lookahead(armed, 0.0) > 0.0;
    assert 0 < r.nextIndex;
    assert TimeOf(armed, 0.0) == now + RESUME_OFFSET_SECONDS;
    assert Sounds(sc, armed, 0, 0.0, now);
    var i :| 0 <= i < |added| && added[i].VoiceStarted? && added[i].index == 0;
    assert r.log[|armed.log|] == added[0];
  }

  /** At the end of the score with looping off, the tick stops: paused, the
      scheduler cleared, every voice force-stopped, position back at beat 0. */
  lemma TickAtEndStops(sc: Score, st: PlaybackState, now: real)
    requires Inv(sc, st) && st.isPlaying && st.audioReady && !st.loop
    requires BeatNow(sc, st, now) >= sc.totalBeats - END_EPSILON
    ensures var currentBeat := BeatNow(sc, st, now);
      var scanned := Scan(sc, st, currentBeat, Lookahead(st, currentBeat), now);
      var r := Tick(sc, st, now);
      && !r.isPlaying && !r.schedulerOn && r.currentBeat == 0.0
      && r.activeVoices == scanned.activeVoices
      && r.log == scanned.log + ForceStops(scanned.activeVoices, now)
  {
  }

  /** play() while playing changes nothing. */
  lemma PlayWhilePlayingIsNoOp(sc: Score, st: PlaybackState, now: real)
    requires Inv(sc, st) && st.isPlaying
    ensures Play(sc, st, now) == st
  {
  }

  /** play() while paused resumes exactly at the stored position. */
  lemma PlayResumesAtStoredBeat(sc: Score, st: PlaybackState, now: real)
    requires Inv(sc, st) && !st.isPlaying
    ensures var r := Play(sc, st, now);
      && r.isPlaying && r.audioReady && r.schedulerOn
      && r.startBeat == st.currentBeat && r.currentBeat == st.currentBeat
      && r.startCtxTime == now + RESUME_OFFSET_SECONDS
      && StartIndex(sc.notes, st.currentBeat) <= r.nextIndex
  {
    RestartPlaysFromClampedBeat(sc, st.(audioReady := true), st.currentBeat, now);
  }

  /** pause() does nothing unless playing; otherwise it stores the live beat,
      stops the scheduler and force-stops every voice, keeping them registered. */
  lemma PauseStoresLiveBeat(sc: Score, st: PlaybackState, now: real)
    requires Inv(sc, st)
    ensures var r := Pause(sc, st, now);
      && !r.isPlaying
      && (!st.isPlaying ==> r == st)
      && (st.isPlaying ==>
            && r.currentBeat == BeatNow(sc, st, now) && !r.schedulerOn
            && r.activeVoices == st.activeVoices
            && r.log == st.log + ForceStops(st.activeVoices, now)
            && r.startBeat == st.startBeat && r.startCtxTime == st.startCtxTime && r.tempo == st.tempo)
  {
  }

  /** Pausing and playing again resumes at the beat reached when paused. */
  lemma PauseThenPlayResumes(sc: Score, st: PlaybackState, pausedAt: real, resumedAt: real)
    requires Inv(sc, st) && st.isPlaying
    ensures var r := Play(sc, Pause(sc, st, pausedAt), resumedAt);
      && r.isPlaying
      && r.startBeat == BeatNow(sc, st, pausedAt)
      && r.startCtxTime == resumedAt + RESUME_OFFSET_SECONDS
  {
    var p := Pause(sc, st, pausedAt);
    PlayResumesAtStoredBeat(sc, p, resumedAt);
  }

  /** stopPlayback() leaves playback paused at beat 0, whatever the state. */
  lemma StopPlaybackRewinds(sc: Score, st: PlaybackState, now: real)
    requires Inv(sc, st)
    ensures var r := StopPlayback(sc, st, now);
      && !r.isPlaying && r.currentBeat == 0.0
      && r.activeVoices == st.activeVoices
  {
  }

  /** setTempo always leaves a tempo in [40, 100]: the requested one, or the
      old one when they are equal. */
  lemma SetTempoStoresClampedTempo(sc: Score, st: PlaybackState, input: Option<real>, now: real)
    requires Inv(sc, st)
    ensures var r := SetTempo(sc, st, input, now);
      && r.tempo == RequestedTempo(sc, input)
      && MIN_TEMPO <= r.tempo <= MAX_TEMPO
  {
    if st.isPlaying && RequestedTempo(sc, input) != st.tempo {
      RestartPlaysFromClampedBeat(sc, st.(tempo := RequestedTempo(sc, input)), CurrentBeat(sc, st, now), now);
    }
  }

  /** setTempo with the tempo already in force changes nothing. */
  lemma SetTempoUnchangedIsNoOp(sc: Score, st: PlaybackState, input: Option<real>, now: real)
    requires Inv(sc, st) && RequestedTempo(sc, input) == st.tempo
    ensures SetTempo(sc, st, input, now) == st
  {
  }

  /** setTempo while paused only stores the new tempo; the position stays. */
  lemma SetTempoWhilePaused(sc: Score, st: PlaybackState, input: Option<real>, now: real)
    requires Inv(sc, st) && !st.isPlaying
    ensures SetTempo(sc, st, input, now) == st.(tempo := RequestedTempo(sc, input))
  {
  }

  /** setTempo while playing restarts at the beat reached under the old
      tempo, now anchored under the new one, still playing. */
  lemma SetTempoWhilePlaying(sc: Score, st: PlaybackState, input: Option<real>, now: real)
    requires Inv(sc, st) && st.isPlaying && RequestedTempo(sc, input) != st.tempo
    ensures var r := SetTempo(sc, st, input, now);
      && r.isPlaying && r.tempo == RequestedTempo(sc, input)
      && r.startBeat == BeatNow(sc, st, now)
      && r.startCtxTime == now + RESUME_OFFSET_SECONDS
  {
    var st1 := st.(tempo := RequestedTempo(sc, input));
    RestartPlaysFromClampedBeat(sc, st1, BeatNow(sc, st, now), now);
  }

  /** A one-note score: middle C in voice 1 for two beats from beat 0, two
      beats long, at tempo 60. */
  function OneNoteScore(): (sc: Score)
    ensures sc.Valid() && sc.Tempo() == 60 && |sc.notes| == 1
  {
    Score([Note(0.0, 2.0, 60, 1)], 2.0, Some(60.0))
  }

  /** A score of one ten-beat note, longer than MAX_SUSTAIN_BEATS, at tempo 60. */
  function LongNoteScore(): (sc: Score)
    ensures sc.Valid() && |sc.notes| == 1 && sc.notes[0].d > MAX_SUSTAIN_BEATS
  {
    Score([Note(0.0, 10.0, 60, 1)], 10.0, Some(60.0))
  }

  /** Resuming at beat 5 of the ten-beat note, which is sounding there, starts
      no voice at all: the restart logs only the force-stops of the voices
      that were active, so the held note stays silent until the loop wraps. */
  lemma LongNoteSilentOnResume(st: PlaybackState, now: real)
    requires Inv(LongNoteScore(), st) && st.audioReady
    ensures var sc := LongNoteScore();
      var r := Restart(sc, st, 5.0, true, now);
      && sc.notes[0].t < 5.0 < sc.notes[0].t + sc.notes[0].d
      && r.isPlaying && r.startBeat == 5.0
      && r.log == st.log + ForceStops(st.activeVoices, now)
  {
    var sc := LongNoteScore();
    var armed := Rearmed(sc, st, 5.0, now);
    var r := Restart(sc, st, 5.0, true, now);
    RestartPlaysFromClampedBeat(sc, st, 5.0, now);
    LongNoteCanBeMissed();
    assert armed.nextIndex == 1 && r.nextIndex == 1;
    var currentBeat := BeatNow(sc, armed, now);
    ScanStartsAtMostOneVoicePerNote(sc, armed, r, currentBeat, now);
    assert r.log == armed.log;
  }

  /** Pressing play on the one-note score starts exactly one voice, voice 0
      for note 0, at 0.05 s from now for the whole two beats (1.97 s of sound
      at tempo 60), and the tick that runs two seconds later is at beat 2,
      the end of the score. */
  lemma OneNoteScorePlaysOnce(now: real)
    ensures var sc := OneNoteScore();
      var r := Play(sc, Initial(sc), now);
      && r.isPlaying && r.tempo == 60.0
      && r.log == [VoiceStarted(0, 0, now + RESUME_OFFSET_SECONDS, 2.0, MakeEnvelope(now + RESUME_OFFSET_SECONDS, 2.0, 60.0, 1))]
      && r.activeVoices == [0]
      && r.log[0].envelope.durSec == 1.97
      && BeatNow(sc, r, now + RESUME_OFFSET_SECONDS + 2.0) == 2.0
      && WillWrap(sc, r, now + RESUME_OFFSET_SECONDS + 2.0)
  {
    OneNoteScoreStartsOneVoice(now);
    assert BeatsToSeconds(2.0, 60.0) == 2.0;
  }

  /** The first half of the scenario: play starts the one voice. */
  lemma OneNoteScoreStartsOneVoice(now: real)
    ensures var sc := OneNoteScore();
      var r := Play(sc, Initial(sc), now);
      && r.isPlaying && r.tempo == 60.0 && r.startBeat == 0.0 && r.startCtxTime == now + RESUME_OFFSET_SECONDS
      && r.log == [VoiceStarted(0, 0, now + RESUME_OFFSET_SECONDS, 2.0, MakeEnvelope(now + RESUME_OFFSET_SECONDS, 2.0, 60.0, 1))]
      && r.activeVoices == [0]
  {
    var sc := OneNoteScore();
    var st1 := Initial(sc).(audioReady := true);
    var r := Play(sc, Initial(sc), now);
    assert r == Restart(sc, st1, 0.0, true, now);
    RestartPlaysFromClampedBeat(sc, st1, 0.0, now);
    StartIndexOfZero(sc);
    var armed := Rearmed(sc, st1, 0.0, now);
    assert ForceStops([], now) == [];
    assert armed.log == [] && armed.nextIndex == 0 && armed.nextVoice == 0;
    assert BeatNow(sc, armed, now) == 0.0;
    assert r.nextIndex == 1;
    assert TimeOf(armed, 0.0) == now + RESUME_OFFSET_SECONDS;
    assert Sounds(sc, armed, 0, 0.0, now);
    var added := r.log[|armed.log|..];
    assert added == r.log;
    var i :| 0 <= i < |added| && added[i].VoiceStarted? && added[i].index == 0;
    ScanStartsAtMostOneVoicePerNote(sc, armed, r, 0.0, now);
  }
}
