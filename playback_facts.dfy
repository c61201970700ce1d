/** What the playback engine guarantees, proved about the transitions of
    module Playback. */
module PlaybackFacts {
  import opened Optional
  import opened NoteIndex
  import opened TimeMap
  import opened VoiceSynth
  import opened Playback

  // ---- voice bookkeeping ----

  /** scheduleNote is a no-op without audio or when the effective duration is
      not positive; otherwise it registers exactly one voice that was not
      active before and logs its start with its envelope. */
  lemma ScheduleNoteAddsOneVoice(sc: Score, st: PlaybackState, k: nat, startTime: real, durationOverride: Option<real>)
    requires Inv(sc, st) && k < |sc.notes|
    ensures var r := ScheduleNote(sc, st, k, startTime, durationOverride);
      var durationBeats := EffectiveDuration(durationOverride, sc.notes[k].d);
      if !st.audioReady || durationBeats <= 0.0 then r == st
      else
        && st.nextVoice !in st.activeVoices
        && r.activeVoices == st.activeVoices + [st.nextVoice]
        && |r.activeVoices| == |st.activeVoices| + 1
        && r.log == st.log + [VoiceStarted(st.nextVoice, k, startTime, durationBeats,
                                           MakeEnvelope(startTime, durationBeats, st.tempo, sc.notes[k].s))]
        && r == st.(activeVoices := r.activeVoices, nextVoice := st.nextVoice + 1, log := r.log)
  {
  }

  /** Removing a voice that is not there changes nothing. */
  lemma {:induction false} RemoveAbsent(vs: seq<VoiceId>, v: VoiceId)
    requires v !in vs
    ensures Remove(vs, v) == vs
  {
    if vs != [] {
      RemoveAbsent(vs[1..], v);
      assert vs == [vs[0]] + vs[1..];
    }
  }

  /** Removing a voice registered once shortens the set by exactly one. */
  lemma {:induction false} RemovePresent(vs: seq<VoiceId>, v: VoiceId)
    requires Distinct(vs) && v in vs
    ensures |Remove(vs, v)| == |vs| - 1
  {
    if vs[0] == v {
      assert v !in vs[1..] by {
        forall i | 0 <= i < |vs| - 1 ensures vs[1..][i] != v {
          assert vs[1..][i] == vs[i + 1];
        }
      }
      RemoveAbsent(vs[1..], v);
    } else {
      assert v in vs[1..];
      RemovePresent(vs[1..], v);
    }
  }

  /** cleanupVoice removes the voice and keeps every other; on a voice that
      was active the count drops by one, and a second cleanup of the same
      voice changes nothing. */
  lemma CleanupVoiceIsIdempotent(sc: Score, st: PlaybackState, v: VoiceId)
    requires Inv(sc, st)
    ensures var r := CleanupVoice(sc, st, v);
      && v !in r.activeVoices
      && (forall x | x != v :: x in r.activeVoices <==> x in st.activeVoices)
      && (v in st.activeVoices ==> |r.activeVoices| == |st.activeVoices| - 1)
      && (v !in st.activeVoices ==> r == st)
      && CleanupVoice(sc, r, v) == r
  {
    var r := CleanupVoice(sc, st, v);
    if v in st.activeVoices {
      RemovePresent(st.activeVoices, v);
    } else {
      RemoveAbsent(st.activeVoices, v);
    }
    RemoveAbsent(r.activeVoices, v);
  }

  /** stopAllVoices leaves the set of active voices as it is and logs one
      force-stop per active voice, in set order. */
  lemma StopAllVoicesKeepsMembership(sc: Score, st: PlaybackState, now: real)
    requires Inv(sc, st)
    ensures var r := StopAllVoices(sc, st, now);
      && r.activeVoices == st.activeVoices
      && r.log == st.log + (if st.audioReady then ForceStops(st.activeVoices, now) else [])
      && r == st.(log := r.log)
  {
  }

  // ---- what a tick does with one note ----

  /** A note the tick's playhead is inside is scheduled for what remains of it
      after the playhead: strictly less than the whole note and more than
      nothing. */
  lemma ResumeInsideNoteIsTruncated(st: PlaybackState, note: Note, currentBeat: real, now: real)
    requires st.tempo > 0.0
    requires note.t < currentBeat < note.t + note.d
    ensures var c := Decide(st, note, currentBeat, now);
      && c == Some(Call(now + TRUNCATED_START_DELAY, Some(note.t + note.d - currentBeat)))
      && EffectiveDuration(c.value.durationOverride, note.d) == note.t + note.d - currentBeat
      && 0.0 < EffectiveDuration(c.value.durationOverride, note.d) < note.d
  {
  }

  /** A note that has not started yet is scheduled whole, at the device time
      of its start beat. */
  lemma FutureNoteIsScheduledWhole(st: PlaybackState, note: Note, currentBeat: real, now: real)
    requires st.tempo > 0.0 && note.d > 0.0
    requires note.t >= currentBeat
    ensures var c := Decide(st, note, currentBeat, now);
      && c == Some(Call(TimeOf(st, note.t), None))
      && EffectiveDuration(c.value.durationOverride, note.d) == note.d
  {
  }

  /** The consequence of `override || note.d`: a note whose remainder is
      exactly 0 when the tick visits it is replayed in full. */
  lemma ZeroRemainderReplaysWholeNote(st: PlaybackState, note: Note, currentBeat: real, now: real)
    requires st.tempo > 0.0
    requires note.t < currentBeat && note.t + note.d == currentBeat
    ensures Decide(st, note, currentBeat, now) == Some(Call(now + TRUNCATED_START_DELAY, Some(0.0)))
    ensures EffectiveDuration(Some(0.0), note.d) == note.d
  {
  }

  /** A truncated voice ends where the note ends: its start, 10 ms after now,
      plus the remaining beats in seconds is the device time of the note's end
      beat plus the same 10 ms, whenever the playhead was not clamped. */
  lemma TruncatedVoiceEndsWithNote(sc: Score, st: PlaybackState, note: Note, now: real)
    requires st.tempo > 0.0
    requires 0.0 <= RawBeatAt(st.startBeat, st.startCtxTime, st.tempo, now) <= sc.totalBeats
    ensures var currentBeat := BeatNow(sc, st, now);
      now + TRUNCATED_START_DELAY + BeatsToSeconds(note.t + note.d - currentBeat, st.tempo)
        == TimeOf(st, note.t + note.d) + TRUNCATED_START_DELAY
  {
  }

  // ---- one tick's scan ----

  /** The note at index k gets a voice in a tick whose playhead is at
      `currentBeat`. */
  ghost predicate Sounds(sc: Score, st: PlaybackState, k: nat, currentBeat: real, now: real)
    requires st.tempo > 0.0 && k < |sc.notes|
  {
    var c := Decide(st, sc.notes[k], currentBeat, now);
    st.audioReady && c.Some? && EffectiveDuration(c.value.durationOverride, sc.notes[k].d) > 0.0
  }

  /** `e` is the start of a voice for the note it names, at the time and for
      the length the tick decides for that note. */
  ghost predicate StartedAsDecided(sc: Score, st: PlaybackState, e: Event, currentBeat: real, now: real)
    requires st.tempo > 0.0
  {
    && e.VoiceStarted?
    && e.index < |sc.notes|
    && var note := sc.notes[e.index];
       var c := Decide(st, note, currentBeat, now);
       && c.Some?
       && e.startTime == c.value.startTime
       && e.durationBeats == EffectiveDuration(c.value.durationOverride, note.d)
       && e.envelope == MakeEnvelope(e.startTime, e.durationBeats, st.tempo, note.s)
  }

  /** Every entry of `added` starts a voice for a note in [lo, hi). */
  ghost predicate StartsBetween(added: seq<Event>, lo: nat, hi: nat)
  {
    forall i | 0 <= i < |added| :: added[i].VoiceStarted? && lo <= added[i].index < hi
  }

  /** The log after a step begins with the log before it. */
  ghost predicate Extends(st: PlaybackState, r: PlaybackState)
  {
    |st.log| <= |r.log| && r.log[..|st.log|] == st.log
  }

  /** Every entry a step adds starts a voice for a note in the visited range,
      as decided for that note, with the next fresh voice number. */
  ghost predicate AddedAsDecided(sc: Score, st: PlaybackState, r: PlaybackState, currentBeat: real, now: real)
    requires st.tempo > 0.0 && Extends(st, r)
  {
    var added := r.log[|st.log|..];
    forall i | 0 <= i < |added| ::
      && StartedAsDecided(sc, st, added[i], currentBeat, now)
      && st.nextIndex <= added[i].index < r.nextIndex
      && added[i].voice == st.nextVoice + i
  }

  /** The entries a step adds name strictly increasing notes. */
  ghost predicate AddedInOrder(st: PlaybackState, r: PlaybackState)
    requires Extends(st, r)
  {
    var added := r.log[|st.log|..];
    forall i, j | 0 <= i < j < |added| :: added[i].VoiceStarted? && added[j].VoiceStarted? && added[i].index < added[j].index
  }

  /** A note of the visited range gets an entry exactly when its decision sounds. */
  ghost predicate AddedExactlySounding(sc: Score, st: PlaybackState, r: PlaybackState, currentBeat: real, now: real)
    requires st.tempo > 0.0 && r.nextIndex <= |sc.notes| && Extends(st, r)
  {
    var added := r.log[|st.log|..];
    forall k | st.nextIndex <= k < r.nextIndex ::
      Sounds(sc, st, k, currentBeat, now) <==> exists i | 0 <= i < |added| :: added[i].VoiceStarted? && added[i].index == k
  }

  /** The voices a step starts join the active set in order. */
  ghost predicate VoicesJoin(st: PlaybackState, r: PlaybackState)
    requires Extends(st, r)
  {
    var n := |r.log| - |st.log|;
    r.nextVoice == st.nextVoice + n && r.activeVoices == st.activeVoices + seq(n, i => st.nextVoice + i)
  }

  /** The log entries one scan adds: voice starts for notes in the visited
      range, in increasing note order (so no note gets two voices in a tick),
      with consecutive fresh voice numbers that join the active set; a note of
      the range gets a voice exactly when the tick's decision for it sounds. */
  ghost predicate ScanAdds(sc: Score, st: PlaybackState, r: PlaybackState, currentBeat: real, now: real)
    requires st.tempo > 0.0
  {
    && r.nextIndex <= |sc.notes|
    && Extends(st, r)
    && AddedAsDecided(sc, st, r, currentBeat, now)
    && AddedInOrder(st, r)
    && AddedExactlySounding(sc, st, r, currentBeat, now)
    && VoicesJoin(st, r)
  }

  /** Visiting one note adds a start for it exactly when its decision sounds. */
  lemma VisitAdds(sc: Score, st: PlaybackState, currentBeat: real, now: real)
    requires Inv(sc, st) && st.nextIndex < |sc.notes|
    ensures ScanAdds(sc, st, Visit(sc, st, currentBeat, now), currentBeat, now)
  {
    var r := Visit(sc, st, currentBeat, now);
    var added := r.log[|st.log|..];
    var k := st.nextIndex;
    if Sounds(sc, st, k, currentBeat, now) {
      assert |added| == 1 && added[0].index == k;
    } else {
      assert added == [];
    }
  }

  /** A step that only moves the cursor, the voices and the log. */
  ghost predicate SameAnchor(st: PlaybackState, mid: PlaybackState)
  {
    mid == st.(nextIndex := mid.nextIndex, activeVoices := mid.activeVoices, nextVoice := mid.nextVoice, log := mid.log)
  }

  lemma ExtendsCompose(st: PlaybackState, mid: PlaybackState, r: PlaybackState)
    requires Extends(st, mid) && Extends(mid, r)
    ensures Extends(st, r)
    ensures r.log[|st.log|..] == mid.log[|st.log|..] + r.log[|mid.log|..]
  {
  }

  lemma AddedAsDecidedCompose(sc: Score, st: PlaybackState, mid: PlaybackState, r: PlaybackState, currentBeat: real, now: real)
    requires st.tempo > 0.0 && SameAnchor(st, mid)
    requires st.nextIndex <= mid.nextIndex <= r.nextIndex
    requires Extends(st, mid) && Extends(mid, r) && Extends(st, r)
    requires r.log[|st.log|..] == mid.log[|st.log|..] + r.log[|mid.log|..]
    requires mid.nextVoice == st.nextVoice + (|mid.log| - |st.log|)
    requires AddedAsDecided(sc, st, mid, currentBeat, now)
    requires AddedAsDecided(sc, mid, r, currentBeat, now)
    ensures AddedAsDecided(sc, st, r, currentBeat, now)
  {
    var a1 := mid.log[|st.log|..];
    var a2 := r.log[|mid.log|..];
    var added := r.log[|st.log|..];
    forall i | 0 <= i < |added|
      ensures StartedAsDecided(sc, st, added[i], currentBeat, now)
      ensures st.nextIndex <= added[i].index < r.nextIndex
      ensures added[i].voice == st.nextVoice + i
    {
      if i < |a1| {
        assert added[i] == a1[i];
      } else {
        assert added[i] == a2[i - |a1|];
        assert Decide(mid, sc.notes[added[i].index], currentBeat, now) == Decide(st, sc.notes[added[i].index], currentBeat, now);
      }
    }
  }

  lemma AddedInOrderCompose(sc: Score, st: PlaybackState, mid: PlaybackState, r: PlaybackState, currentBeat: real, now: real)
    requires st.tempo > 0.0 && SameAnchor(st, mid)
    requires Extends(st, mid) && Extends(mid, r) && Extends(st, r)
    requires r.log[|st.log|..] == mid.log[|st.log|..] + r.log[|mid.log|..]
    requires AddedAsDecided(sc, st, mid, currentBeat, now)
    requires AddedAsDecided(sc, mid, r, currentBeat, now)
    requires AddedInOrder(st, mid) && AddedInOrder(mid, r)
    ensures AddedInOrder(st, r)
  {
  }

  /** A step that keeps the anchor keeps every note's decision. */
  lemma SoundsSameAnchor(sc: Score, st: PlaybackState, mid: PlaybackState, k: nat, currentBeat: real, now: real)
    requires st.tempo > 0.0 && SameAnchor(st, mid) && k < |sc.notes|
    ensures Sounds(sc, st, k, currentBeat, now) == Sounds(sc, mid, k, currentBeat, now)
  {
    assert Decide(mid, sc.notes[k], currentBeat, now) == Decide(st, sc.notes[k], currentBeat, now);
  }

  /** An entry a step adds starts a voice for a note of its range whose decision sounds. */
  lemma EntrySounds(sc: Score, st: PlaybackState, r: PlaybackState, currentBeat: real, now: real, i: nat)
    requires st.tempo > 0.0 && r.nextIndex <= |sc.notes| && Extends(st, r)
    requires StartsBetween(r.log[|st.log|..], st.nextIndex, r.nextIndex)
    requires AddedExactlySounding(sc, st, r, currentBeat, now)
    requires i < |r.log| - |st.log|
    ensures var e := r.log[|st.log|..][i];
      e.VoiceStarted? && st.nextIndex <= e.index < r.nextIndex && Sounds(sc, st, e.index, currentBeat, now)
  {
    var added := r.log[|st.log|..];
    assert added[i].VoiceStarted? && added[i].index == added[i].index;
  }

  /** An entry of the joined log starts a voice for a note whose decision sounds. */
  lemma JoinedEntrySounds(sc: Score, st: PlaybackState, mid: PlaybackState, r: PlaybackState, currentBeat: real, now: real, i: nat)
    requires st.tempo > 0.0 && SameAnchor(st, mid)
    requires st.nextIndex <= mid.nextIndex <= r.nextIndex <= |sc.notes|
    requires Extends(st, mid) && Extends(mid, r) && Extends(st, r)
    requires r.log[|st.log|..] == mid.log[|st.log|..] + r.log[|mid.log|..]
    requires StartsBetween(mid.log[|st.log|..], st.nextIndex, mid.nextIndex)
    requires StartsBetween(r.log[|mid.log|..], mid.nextIndex, r.nextIndex)
    requires AddedExactlySounding(sc, st, mid, currentBeat, now)
    requires AddedExactlySounding(sc, mid, r, currentBeat, now)
    requires i < |r.log| - |st.log|
    ensures var e := r.log[|st.log|..][i];
      e.VoiceStarted? && Sounds(sc, st, e.index, currentBeat, now)
  {
    var added := r.log[|st.log|..];
    var a1 := mid.log[|st.log|..];
    if i < |a1| {
      assert added[i] == a1[i];
      EntrySounds(sc, st, mid, currentBeat, now, i);
    } else {
      assert added[i] == r.log[|mid.log|..][i - |a1|];
      EntrySounds(sc, mid, r, currentBeat, now, i - |a1|);
      SoundsSameAnchor(sc, st, mid, added[i].index, currentBeat, now);
    }
  }

  /** A note of the joined range whose decision sounds has an entry in the joined log. */
  lemma SoundingNoteAdded(sc: Score, st: PlaybackState, mid: PlaybackState, r: PlaybackState, currentBeat: real, now: real, k: nat)
    requires st.tempo > 0.0 && SameAnchor(st, mid)
    requires st.nextIndex <= mid.nextIndex <= r.nextIndex <= |sc.notes|
    requires Extends(st, mid) && Extends(mid, r) && Extends(st, r)
    requires r.log[|st.log|..] == mid.log[|st.log|..] + r.log[|mid.log|..]
    requires AddedExactlySounding(sc, st, mid, currentBeat, now)
    requires AddedExactlySounding(sc, mid, r, currentBeat, now)
    requires st.nextIndex <= k < r.nextIndex && Sounds(sc, st, k, currentBeat, now)
    ensures var added := r.log[|st.log|..];
      exists i | 0 <= i < |added| :: added[i].VoiceStarted? && added[i].index == k
  {
    var a1 := mid.log[|st.log|..];
    var a2 := r.log[|mid.log|..];
    var added := r.log[|st.log|..];
    if k < mid.nextIndex {
      var i :| 0 <= i < |a1| && a1[i].VoiceStarted? && a1[i].index == k;
      assert added[i] == a1[i];
    } else {
      SoundsSameAnchor(sc, st, mid, k, currentBeat, now);
      var j :| 0 <= j < |a2| && a2[j].VoiceStarted? && a2[j].index == k;
      assert added[|a1| + j] == a2[j];
    }
  }

  /** The entries a step adds as decided lie in its visited range. */
  lemma AddedAsDecidedBetween(sc: Score, st: PlaybackState, r: PlaybackState, currentBeat: real, now: real)
    requires st.tempo > 0.0 && Extends(st, r)
    requires AddedAsDecided(sc, st, r, currentBeat, now)
    ensures StartsBetween(r.log[|st.log|..], st.nextIndex, r.nextIndex)
  {
  }

  lemma AddedExactlyCompose(sc: Score, st: PlaybackState, mid: PlaybackState, r: PlaybackState, currentBeat: real, now: real)
    requires st.tempo > 0.0 && SameAnchor(st, mid)
    requires st.nextIndex <= mid.nextIndex <= r.nextIndex <= |sc.notes|
    requires Extends(st, mid) && Extends(mid, r) && Extends(st, r)
    requires r.log[|st.log|..] == mid.log[|st.log|..] + r.log[|mid.log|..]
    requires StartsBetween(mid.log[|st.log|..], st.nextIndex, mid.nextIndex)
    requires StartsBetween(r.log[|mid.log|..], mid.nextIndex, r.nextIndex)
    requires AddedExactlySounding(sc, st, mid, currentBeat, now)
    requires AddedExactlySounding(sc, mid, r, currentBeat, now)
    ensures AddedExactlySounding(sc, st, r, currentBeat, now)
  {
    var added := r.log[|st.log|..];
    forall k | st.nextIndex <= k < r.nextIndex
      ensures Sounds(sc, st, k, currentBeat, now) <==> exists i | 0 <= i < |added| :: added[i].VoiceStarted? && added[i].index == k
    {
      if Sounds(sc, st, k, currentBeat, now) {
        SoundingNoteAdded(sc, st, mid, r, currentBeat, now, k);
      }
      if exists i | 0 <= i < |added| :: added[i].VoiceStarted? && added[i].index == k {
        var i :| 0 <= i < |added| && added[i].VoiceStarted? && added[i].index == k;
        JoinedEntrySounds(sc, st, mid, r, currentBeat, now, i);
      }
    }
  }

  lemma VoicesJoinCompose(st: PlaybackState, mid: PlaybackState, r: PlaybackState)
    requires Extends(st, mid) && Extends(mid, r) && Extends(st, r)
    requires VoicesJoin(st, mid) && VoicesJoin(mid, r)
    ensures VoicesJoin(st, r)
  {
  }

  /** Two consecutive stretches of a scan add what each adds, in order. */
  lemma ScanAddsCompose(sc: Score, st: PlaybackState, mid: PlaybackState, r: PlaybackState, currentBeat: real, now: real)
    requires st.tempo > 0.0 && SameAnchor(st, mid)
    requires st.nextIndex <= mid.nextIndex <= r.nextIndex
    requires ScanAdds(sc, st, mid, currentBeat, now)
    requires ScanAdds(sc, mid, r, currentBeat, now)
    ensures ScanAdds(sc, st, r, currentBeat, now)
  {
    ExtendsCompose(st, mid, r);
    AddedAsDecidedCompose(sc, st, mid, r, currentBeat, now);
    AddedInOrderCompose(sc, st, mid, r, currentBeat, now);
    AddedAsDecidedBetween(sc, st, mid, currentBeat, now);
    AddedAsDecidedBetween(sc, mid, r, currentBeat, now);
    AddedExactlyCompose(sc, st, mid, r, currentBeat, now);
    VoicesJoinCompose(st, mid, r);
  }

  /** One scan starts a voice for each visited note whose decision sounds and
      for no other, never twice for one note, each at the time and for the
      length the decision gives. */
  lemma {:induction false} ScanStartsEachNoteAtMostOnce(sc: Score, st: PlaybackState, currentBeat: real, lookahead: real, now: real)
    requires Inv(sc, st)
    ensures ScanAdds(sc, st, Scan(sc, st, currentBeat, lookahead, now), currentBeat, now)
    decreases |sc.notes| - st.nextIndex
  {
    if st.nextIndex == |sc.notes| || sc.notes[st.nextIndex].t > lookahead {
      assert st.log[|st.log|..] == [];
    } else {
      var mid := Visit(sc, st, currentBeat, now);
      VisitAdds(sc, st, currentBeat, now);
      ScanStartsEachNoteAtMostOnce(sc, mid, currentBeat, lookahead, now);
      ScanAddsCompose(sc, st, mid, Scan(sc, mid, currentBeat, lookahead, now), currentBeat, now);
    }
  }

  /** The i-th voice a scan adds belongs to a note at least i places past
      where the scan began. */
  lemma {:induction false} AddedIndexAtLeast(sc: Score, st: PlaybackState, r: PlaybackState, currentBeat: real, now: real, i: nat)
    requires st.tempo > 0.0 && ScanAdds(sc, st, r, currentBeat, now)
    requires i < |r.log| - |st.log|
    ensures r.log[|st.log| + i].VoiceStarted? && r.log[|st.log| + i].index >= st.nextIndex + i
  {
    var added := r.log[|st.log|..];
    assert added[i] == r.log[|st.log| + i];
    assert StartedAsDecided(sc, st, added[i], currentBeat, now) && st.nextIndex <= added[i].index;
    if i > 0 {
      AddedIndexAtLeast(sc, st, r, currentBeat, now, i - 1);
      assert added[i - 1] == r.log[|st.log| + i - 1];
      assert added[i - 1].index < added[i].index;
    }
  }

  /** A scan starts at most as many voices as it visits notes. */
  lemma ScanStartsAtMostOneVoicePerNote(sc: Score, st: PlaybackState, r: PlaybackState, currentBeat: real, now: real)
    requires st.tempo > 0.0 && st.nextIndex <= r.nextIndex && ScanAdds(sc, st, r, currentBeat, now)
    ensures |r.log| - |st.log| <= r.nextIndex - st.nextIndex
  {
    var added := r.log[|st.log|..];
    if |added| > 0 {
      AddedIndexAtLeast(sc, st, r, currentBeat, now, |added| - 1);
      assert added[|added| - 1] == r.log[|st.log| + |added| - 1];
    }
  }
}
