/** The affine map between beats and device time (app.js:73-107), anchored on
    (startBeat, startCtxTime) and scaled by the tempo in beats per minute. */
module TimeMap {

  function Min(a: real, b: real): real
  {
    if a <= b then a else b
  }

  function Max(a: real, b: real): real
  {
    if a >= b then a else b
  }

  /** clamp(v, lo, hi) = Math.min(hi, Math.max(lo, v)). */
  function Clamp(v: real, lo: real, hi: real): (r: real)
    ensures lo <= hi ==> lo <= r <= hi
    ensures lo <= v <= hi ==> r == v
    ensures lo <= hi && v < lo ==> r == lo
    ensures lo <= hi && hi < v ==> r == hi
  {
    Min(hi, Max(lo, v))
  }

  /** The beat the anchor puts at device time `time`, before clamping. */
  function RawBeatAt(startBeat: real, startTime: real, tempo: real, time: real): real
  {
    startBeat + ((time - startTime) * tempo) / 60.0
  }

  /** getCurrentBeatAt(time): the anchored beat, clamped into the score. */
  function BeatAt(startBeat: real, startTime: real, tempo: real, totalBeats: real, time: real): (r: real)
    ensures 0.0 <= totalBeats ==> 0.0 <= r <= totalBeats
  {
    Clamp(RawBeatAt(startBeat, startTime, tempo, time), 0.0, totalBeats)
  }

  /** timeForBeat(beat): the device time the anchor assigns to `beat`. */
  function TimeForBeat(startBeat: real, startTime: real, tempo: real, beat: real): (t: real)
    requires tempo != 0.0
    ensures RawBeatAt(startBeat, startTime, tempo, t) == beat
    ensures beat == startBeat ==> t == startTime
  {
    var seconds := ((beat - startBeat) * 60.0) / tempo;
    assert seconds * tempo == (beat - startBeat) * 60.0;
    var beats := (startTime + seconds - startTime) * tempo;
    assert beats == (beat - startBeat) * 60.0;
    assert beats / 60.0 == beat - startBeat;
    assert RawBeatAt(startBeat, startTime, tempo, startTime + seconds) == beat;
    startTime + seconds
  }

  /** Seconds per beat span at a tempo: beats * 60 / tempo. */
  function BeatsToSeconds(beats: real, tempo: real): (s: real)
    requires tempo != 0.0
    ensures s * tempo == beats * 60.0
    ensures tempo > 0.0 && beats >= 0.0 ==> s >= 0.0
  {
    (beats * 60.0) / tempo
  }

  /** Reading the beat back at the time assigned to it gives the beat again,
      for every beat inside the score. */
  lemma BeatAtTimeForBeat(startBeat: real, startTime: real, tempo: real, totalBeats: real, beat: real)
    requires tempo > 0.0
    requires 0.0 <= beat <= totalBeats
    ensures BeatAt(startBeat, startTime, tempo, totalBeats, TimeForBeat(startBeat, startTime, tempo, beat)) == beat
  {
  }

  /** Conversely, the time assigned to the beat read at `time` is `time`,
      as long as clamping did not move that beat. */
  lemma TimeForBeatAt(startBeat: real, startTime: real, tempo: real, totalBeats: real, time: real)
    requires tempo > 0.0
    requires 0.0 <= RawBeatAt(startBeat, startTime, tempo, time) <= totalBeats
    ensures TimeForBeat(startBeat, startTime, tempo, BeatAt(startBeat, startTime, tempo, totalBeats, time)) == time
  {
  }

  /** Before clamping, time never runs the playhead backwards. */
  lemma RawBeatAtMonotone(startBeat: real, startTime: real, tempo: real, t1: real, t2: real)
    requires tempo >= 0.0
    requires t1 <= t2
    ensures RawBeatAt(startBeat, startTime, tempo, t1) <= RawBeatAt(startBeat, startTime, tempo, t2)
  {
    MulMonotone(t1 - startTime, t2 - startTime, tempo);
  }

  /** Clamping keeps the order of its inputs. */
  lemma ClampMonotone(a: real, b: real, lo: real, hi: real)
    requires a <= b
    ensures Clamp(a, lo, hi) <= Clamp(b, lo, hi)
  {
  }

  /** Time never runs the playhead backwards. */
  lemma BeatAtMonotone(startBeat: real, startTime: real, tempo: real, totalBeats: real, t1: real, t2: real)
    requires tempo >= 0.0
    requires t1 <= t2
    ensures BeatAt(startBeat, startTime, tempo, totalBeats, t1) <= BeatAt(startBeat, startTime, tempo, totalBeats, t2)
  {
    RawBeatAtMonotone(startBeat, startTime, tempo, t1, t2);
    ClampMonotone(RawBeatAt(startBeat, startTime, tempo, t1), RawBeatAt(startBeat, startTime, tempo, t2), 0.0, totalBeats);
  }

  /** A span of beats lasts 60/tempo seconds per beat: the product of its
      length in seconds and the tempo does not depend on the tempo. */
  lemma SecondsScaleInverselyWithTempo(beats: real, tempo1: real, tempo2: real)
    requires tempo1 > 0.0 && tempo2 > 0.0
    ensures BeatsToSeconds(beats, tempo1) * tempo1 == BeatsToSeconds(beats, tempo2) * tempo2 == beats * 60.0
  {
  }

  /** A span shorter than `seconds` of music at a tempo lasts less than `seconds`. */
  lemma ShortSpanLastsLess(beats: real, seconds: real, tempo: real)
    requires tempo > 0.0
    requires 0.0 <= beats <= (seconds * tempo) / 60.0
    ensures 0.0 <= BeatsToSeconds(beats, tempo) <= seconds
  {
    var t := BeatsToSeconds(beats, tempo);
    assert t * tempo == beats * 60.0;
    assert (seconds - t) * tempo >= 0.0;
  }

  lemma MulMonotone(a: real, b: real, c: real)
    requires a <= b && c >= 0.0
    ensures a * c <= b * c
  {
    assert (b - a) * c >= 0.0;
  }
}
