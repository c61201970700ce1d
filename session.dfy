/** The engine as the page runs it: one object whose fields are the `state`
    record, the audio context's existence, the `activeVoices` set and the log
    of audio calls, updated in place by the transport and scheduler
    operations. Each operation is proved to produce exactly the state that
    the matching function of module Playback describes. */
module Session {
  import opened Optional
  import opened NoteIndex
  import opened TimeMap
  import opened VoiceSynth
  import opened Playback

  class PlaybackSession {
    const score: Score

    var tempo: real
    var isPlaying: bool
    var loop: bool
    var currentBeat: real
    var startBeat: real
    var startCtxTime: real
    var nextIndex: nat
    var schedulerOn: bool
    var audioReady: bool
    var activeVoices: seq<VoiceId>
    var nextVoice: VoiceId
    var log: seq<Event>

    /** The fields as one value. */
    function State(): PlaybackState
      reads this
    {
      PlaybackState(tempo, isPlaying, loop, currentBeat, startBeat, startCtxTime,
                    nextIndex, schedulerOn, audioReady, activeVoices, nextVoice, log)
    }

    ghost predicate Valid()
      reads this
    {
      Inv(score, State())
    }

    constructor (score: Score)
      requires score.Valid()
      ensures Valid() && this.score == score && State() == Initial(score)
    {
      this.score := score;
      tempo := score.Tempo() as real;
      isPlaying := false;
      loop := true;
      currentBeat := 0.0;
      startBeat := 0.0;
      startCtxTime := 0.0;
      nextIndex := 0;
      schedulerOn := false;
      audioReady := false;
      activeVoices := [];
      nextVoice := 0;
      log := [];
    }

    /** getCurrentBeat(), with the audio clock reading `now`. */
    function CurrentBeat(now: real): (b: real)
      reads this
      requires Valid()
      ensures 0.0 <= b <= score.totalBeats
      ensures !isPlaying ==> b == currentBeat
      ensures isPlaying ==> b == BeatAt(startBeat, startCtxTime, tempo, score.totalBeats, now)
    {
      Playback.CurrentBeat(score, State(), now)
    }

    /** scheduleNote(note k, startTime, override). */
    method ScheduleNote(k: nat, startTime: real, durationOverride: Option<real>)
      requires Valid() && k < |score.notes|
      modifies this
      ensures Valid()
      ensures State() == Playback.ScheduleNote(score, old(State()), k, startTime, durationOverride)
    {
      if !audioReady {
        return;
      }
      var note := score.notes[k];
      var durationBeats := EffectiveDuration(durationOverride, note.d);
      if durationBeats <= 0.0 {
        return;
      }
      var envelope := MakeEnvelope(startTime, durationBeats, tempo, note.s);
      var voice := nextVoice;
      DistinctAppend(activeVoices, voice);
      activeVoices := activeVoices + [voice];
      nextVoice := nextVoice + 1;
      log := log + [VoiceStarted(voice, k, startTime, durationBeats, envelope)];
    }

    /** cleanupVoice(voice): the voice's `onended` handler. */
    method CleanupVoice(voice: VoiceId)
      requires Valid()
      modifies this
      ensures Valid()
      ensures State() == Playback.CleanupVoice(score, old(State()), voice)
    {
      activeVoices := Remove(activeVoices, voice);
    }

    /** stopAllVoices(): fade and stop each active voice, in set order. */
    method StopAllVoices(now: real)
      requires Valid()
      modifies this
      ensures Valid()
      ensures State() == Playback.StopAllVoices(score, old(State()), now)
    {
      if !audioReady {
        return;
      }
      ghost var before := log;
      for i := 0 to |activeVoices|
        invariant activeVoices == old(activeVoices) && State() == old(State()).(log := log)
        invariant |log| == |before| + i && log[..|before|] == before
        invariant forall j | 0 <= j < i :: log[|before| + j] == VoiceForceStopped(activeVoices[j], now, now + FORCE_STOP_SECONDS)
      {
        log := log + [VoiceForceStopped(activeVoices[i], now, now + FORCE_STOP_SECONDS)];
      }
      assert log == before + ForceStops(activeVoices, now);
    }

    /** stopScheduler(): clear the polling interval. */
    method StopScheduler()
      requires Valid()
      modifies this
      ensures Valid()
      ensures State() == old(State()).(schedulerOn := false)
    {
      schedulerOn := false;
    }

    /** schedulerTick(), with the audio clock reading `now`. */
    method Tick(now: real)
      requires Valid()
      modifies this
      ensures Valid()
      ensures State() == Playback.Tick(score, old(State()), now)
      decreases TickRank(score, State(), now)
    {
      if !isPlaying || !audioReady {
        return;
      }
      var beatNow := BeatNow(score, State(), now);
      var lookahead := Lookahead(State(), beatNow);
      ghost var st0 := State();
      while nextIndex < |score.notes|
        invariant Valid()
        invariant Scan(score, State(), beatNow, lookahead, now) == Scan(score, st0, beatNow, lookahead, now)
        decreases |score.notes| - nextIndex
      {
        if score.notes[nextIndex].t > lookahead {
          break;
        }
        VisitNote(beatNow, now);
      }
      assert State() == Scan(score, st0, beatNow, lookahead, now);
      if beatNow >= score.totalBeats - END_EPSILON {
        if loop {
          RestartFromBeat(0.0, true, now);
        } else {
          StopPlayback(now);
        }
      }
    }

    /** The body of the tick's loop for the note at the cursor: skip it,
        schedule it in full, or schedule what remains of it; then advance. */
    method VisitNote(beatNow: real, now: real)
      requires Valid() && nextIndex < |score.notes|
      modifies this
      ensures Valid()
      ensures State() == Visit(score, old(State()), beatNow, now)
    {
      var note := score.notes[nextIndex];
      var noteEnd := note.t + note.d;
      if noteEnd > beatNow - SKIP_EPSILON {
        if note.t >= beatNow {
          ScheduleNote(nextIndex, TimeForBeat(startBeat, startCtxTime, tempo, note.t), None);
        } else {
          ScheduleNote(nextIndex, now + TRUNCATED_START_DELAY, Some(noteEnd - beatNow));
        }
      }
      nextIndex := nextIndex + 1;
    }

    /** startScheduler(): clear the interval, tick once, install the interval. */
    method StartScheduler(now: real)
      requires Valid()
      modifies this
      ensures Valid()
      ensures State() == Playback.StartScheduler(score, old(State()), now)
      decreases TickRank(score, State(), now) + 1
    {
      StopScheduler();
      Tick(now);
      schedulerOn := true;
    }

    /** restartFromBeat(beat, keepPlaying). */
    method RestartFromBeat(beat: real, keepPlaying: bool, now: real)
      requires Valid()
      modifies this
      ensures Valid()
      ensures State() == Playback.Restart(score, old(State()), beat, keepPlaying, now)
      decreases 2
    {
      if !audioReady {
        return;
      }
      StopScheduler();
      StopAllVoices(now);
      var clamped := Clamp(beat, 0.0, score.totalBeats);
      SortedStartsSorted(score.notes);
      var index := FindStartIndex(score.notes, clamped);
      currentBeat := clamped;
      startBeat := clamped;
      startCtxTime := now + RESUME_OFFSET_SECONDS;
      nextIndex := index;
      if keepPlaying {
        isPlaying := true;
        RestartedTickDoesNotWrap(score, State(), now);
        StartScheduler(now);
      }
    }

    /** play(): the audio context exists from here on. */
    method Play(now: real)
      requires Valid()
      modifies this
      ensures Valid()
      ensures State() == Playback.Play(score, old(State()), now)
    {
      audioReady := true;
      if isPlaying {
        return;
      }
      RestartFromBeat(currentBeat, true, now);
    }

    /** pause(). */
    method Pause(now: real)
      requires Valid()
      modifies this
      ensures Valid()
      ensures State() == Playback.Pause(score, old(State()), now)
    {
      if !isPlaying {
        return;
      }
      currentBeat := CurrentBeat(now);
      isPlaying := false;
      StopScheduler();
      StopAllVoices(now);
    }

    /** stopPlayback(). */
    method StopPlayback(now: real)
      requires Valid()
      modifies this
      ensures Valid()
      ensures State() == Playback.StopPlayback(score, old(State()), now)
    {
      Pause(now);
      currentBeat := 0.0;
    }

    /** setTempo(input); None stands for an input that is not a number. */
    method SetTempo(input: Option<real>, now: real)
      requires Valid()
      modifies this
      ensures Valid()
      ensures State() == Playback.SetTempo(score, old(State()), input, now)
    {
      var next := RequestedTempo(score, input);
      if next == tempo {
        return;
      }
      var wasPlaying := isPlaying;
      var beat := CurrentBeat(now);
      tempo := next;
      if wasPlaying && audioReady {
        RestartFromBeat(beat, true, now);
      } else {
        currentBeat := beat;
      }
    }
  }
}
