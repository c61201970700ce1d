/** The two pure helpers of the position read-out and the keyboard labels
    (app.js:66-71, 89): a pitch's name and octave, and the bar a beat falls in. */
module Labels {

  const NOTE_NAMES: seq<string> := ["C", "C#", "D", "D#", "E", "F", "F#", "G", "G#", "A", "A#", "B"]

  /** A pitch label, name and octave; the page prints them side by side. */
  datatype Label = Label(name: string, octave: int)

  /** midiToLabel: the name of the pitch class and the octave, with middle C
      (MIDI 60) in octave 4. */
  function MidiToLabel(midi: nat): (r: Label)
    ensures r.name == NOTE_NAMES[midi % 12]
    ensures 12 * (r.octave + 1) + midi % 12 == midi
  {
    Label(NOTE_NAMES[midi % 12], midi / 12 - 1)
  }

  /** No two pitches share a label. */
  lemma MidiToLabelInjective(a: nat, b: nat)
    requires MidiToLabel(a) == MidiToLabel(b)
    ensures a == b
  {
  }

  /** The bar number of the read-out: four beats to the bar, bars counted from 1. */
  function BarOf(beat: real): (bar: int)
    ensures 4.0 * (bar - 1) as real <= beat < 4.0 * bar as real
  {
    (beat / 4.0).Floor + 1
  }
}
