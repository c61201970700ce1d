/** The arithmetic scheduleNote performs before it builds a voice
    (app.js:211-239): the effective duration, the duration in seconds, the
    gain envelope and the per-voice loudness. The audio nodes themselves are
    outside the model. */
module VoiceSynth {
  import opened Optional
  import opened TimeMap

  /** Shortest voice, in seconds. */
  const MIN_DURATION_SECONDS: real := 0.03
  /** Share of the note's span that sounds before the release ends. */
  const ARTICULATION: real := 0.985
  /** Oscillators stop this long after the envelope has reached silence. */
  const STOP_TAIL_SECONDS: real := 0.06
  const MAX_ATTACK_SECONDS: real := 0.08
  const MAX_RELEASE_SECONDS: real := 0.12

  /** The times and level of one voice's gain envelope. */
  datatype Envelope = Envelope(
    durSec: real,
    attackTime: real,
    releaseTime: real,
    sustainPoint: real,
    stopTime: real,
    baseGain: real)

  /** `durationBeatsOverride || note.d`: an absent override and an override
      of exactly 0 both fall back to the note's own duration. */
  function EffectiveDuration(durationOverride: Option<real>, d: real): (r: real)
    ensures durationOverride.None? ==> r == d
    ensures durationOverride == Some(0.0) ==> r == d
    ensures durationOverride.Some? && durationOverride.value != 0.0 ==> r == durationOverride.value
  {
    if durationOverride.Some? && durationOverride.value != 0.0 then durationOverride.value else d
  }

  /** Loudness by voice: the first voice loudest, every voice other than 1
      and 2 at the third level. */
  function BaseGain(voice: int): (g: real)
    ensures 0.17 <= g <= 0.2
    ensures voice == 1 <==> g == 0.2
    ensures voice == 2 <==> g == 0.18
    ensures voice != 1 && voice != 2 ==> g == 0.17
  {
    if voice == 1 then 0.2 else if voice == 2 then 0.18 else 0.17
  }

  /** The voice's length in seconds: 98.5% of the beats' length at the tempo,
      but never below 30 ms. */
  function DurationSeconds(durationBeats: real, tempo: real): (r: real)
    requires tempo > 0.0
    ensures r >= MIN_DURATION_SECONDS
    ensures r >= BeatsToSeconds(durationBeats, tempo) * ARTICULATION
    ensures r == MIN_DURATION_SECONDS || r == BeatsToSeconds(durationBeats, tempo) * ARTICULATION
  {
    Max(MIN_DURATION_SECONDS, BeatsToSeconds(durationBeats, tempo) * ARTICULATION)
  }

  /** Above the 30 ms floor a voice's length scales as 60/tempo: length times
      tempo is fixed by the beats alone. */
  lemma DurationScalesInverselyWithTempo(durationBeats: real, tempo: real)
    requires tempo > 0.0
    requires BeatsToSeconds(durationBeats, tempo) * ARTICULATION >= MIN_DURATION_SECONDS
    ensures DurationSeconds(durationBeats, tempo) * tempo == durationBeats * 60.0 * ARTICULATION
  {
  }

  /** The envelope of a voice that starts at `startTime` and lasts
      `durationBeats` at `tempo`: a short attack to the voice's base gain, a
      sustain, a release that ends the sound, and an oscillator stop 60 ms
      later. Attack and release are capped absolutely and as a share of the
      voice's length, so a short voice never outlasts its own span. */
  function MakeEnvelope(startTime: real, durationBeats: real, tempo: real, voice: int): (e: Envelope)
    requires tempo > 0.0
    ensures e.durSec == DurationSeconds(durationBeats, tempo)
    ensures 0.0 < e.attackTime <= MAX_ATTACK_SECONDS && e.attackTime <= 0.2 * e.durSec
    ensures e.attackTime == MAX_ATTACK_SECONDS || e.attackTime == 0.2 * e.durSec
    ensures 0.0 < e.releaseTime <= MAX_RELEASE_SECONDS && e.releaseTime <= 0.3 * e.durSec
    ensures e.releaseTime == MAX_RELEASE_SECONDS || e.releaseTime == 0.3 * e.durSec
    ensures startTime + e.attackTime <= e.sustainPoint <= startTime + e.durSec
    ensures e.sustainPoint + e.releaseTime >= startTime + e.durSec
    ensures e.sustainPoint == Max(startTime + e.attackTime, startTime + e.durSec - e.releaseTime)
    ensures e.stopTime == startTime + e.durSec + STOP_TAIL_SECONDS
    ensures e.baseGain == BaseGain(voice)
  {
    var durSec := DurationSeconds(durationBeats, tempo);
    var attackTime := Min(MAX_ATTACK_SECONDS, durSec * 0.2);
    var releaseTime := Min(MAX_RELEASE_SECONDS, durSec * 0.3);
    var sustainPoint := Max(startTime + attackTime, startTime + durSec - releaseTime);
    Envelope(durSec, attackTime, releaseTime, sustainPoint, startTime + durSec + STOP_TAIL_SECONDS, BaseGain(voice))
  }
}
