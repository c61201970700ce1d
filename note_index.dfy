/** The score as loaded and the sorted note index over it (app.js:6-12,
    109-125): a lower-bound search by start beat, and the resume index that
    backs the search off by the longest sustain the score is assumed to hold. */
module NoteIndex {
  import opened Optional

  /** One note: start beat `t`, duration `d` in beats, MIDI pitch `m`, voice `s`. */
  datatype Note = Note(t: real, d: real, m: int, s: int)

  /** The longest note a resume is guaranteed not to miss, in beats. */
  const MAX_SUSTAIN_BEATS: real := 4.0

  /** The position a tick treats as the end of the score lies this close to TOTAL_BEATS. */
  const END_EPSILON: real := 0.0001

  /** The comparator the loader hands to the sort: the first non-zero
      difference among start, voice, pitch and duration. */
  function Compare(a: Note, b: Note): (c: real)
    ensures a.t < b.t ==> c < 0.0
    ensures c < 0.0 ==> a.t <= b.t
  {
    if a.t != b.t then a.t - b.t
    else if a.s != b.s then (a.s - b.s) as real
    else if a.m != b.m then (a.m - b.m) as real
    else a.d - b.d
  }

  /** `a` may precede `b` in the sorted score. */
  predicate NoteLe(a: Note, b: Note)
  {
    Compare(a, b) <= 0.0
  }

  /** The comparator is consistent: swapping its arguments negates it, and it
      is zero only on equal notes, so the sorted order is total and unique up to
      duplicates. */
  lemma CompareIsConsistent(a: Note, b: Note)
    ensures Compare(a, b) == -Compare(b, a)
    ensures Compare(a, b) == 0.0 <==> a == b
    ensures NoteLe(a, b) || NoteLe(b, a)
  {
  }

  /** The order the comparator induces is the lexicographic order on (t, s, m, d). */
  lemma NoteLeIsLexicographic(a: Note, b: Note)
    ensures NoteLe(a, b) <==>
      a.t < b.t || (a.t == b.t && (a.s < b.s || (a.s == b.s && (a.m < b.m || (a.m == b.m && a.d <= b.d)))))
  {
  }

  /** The order the comparator induces is transitive. */
  lemma NoteLeTransitive(a: Note, b: Note, c: Note)
    requires NoteLe(a, b) && NoteLe(b, c)
    ensures NoteLe(a, c)
  {
  }

  /** NOTES after the load-time sort. */
  ghost predicate Sorted(notes: seq<Note>)
  {
    forall i, j | 0 <= i < j < |notes| :: NoteLe(notes[i], notes[j])
  }

  /** Start beats never decrease along the sequence. */
  ghost predicate StartsSorted(notes: seq<Note>)
  {
    forall i, j | 0 <= i < j < |notes| :: notes[i].t <= notes[j].t
  }

  lemma SortedStartsSorted(notes: seq<Note>)
    requires Sorted(notes)
    ensures StartsSorted(notes)
  {
  }

  /** BASE_TEMPO: the score's tempo, 100 when it is missing or zero, rounded
      to the nearest integer with halves rounded up. */
  function BaseTempo(raw: Option<real>): (r: int)
    ensures raw.None? || raw.value == 0.0 ==> r == 100
    ensures raw.Some? && raw.value != 0.0 ==> r as real - 0.5 <= raw.value < r as real + 0.5
  {
    ((if raw.None? || raw.value == 0.0 then 100.0 else raw.value) + 0.5).Floor
  }

  /** The score data the page loads before the engine starts. */
  datatype Score = Score(notes: seq<Note>, totalBeats: real, rawTempo: Option<real>)
  {
    function Tempo(): int
    {
      BaseTempo(rawTempo)
    }

    /** What the engine assumes of its score: sorted notes that start at or
        after beat 0, a length longer than the end-of-score margin, and a
        usable tempo. */
    ghost predicate Valid()
    {
      && Sorted(notes)
      && (forall k | 0 <= k < |notes| :: notes[k].t >= 0.0)
      && totalBeats > END_EPSILON
      && Tempo() >= 1
    }
  }

  /** The index of the first note that starts at or after `x`, or |notes|. */
  function LowerBound(notes: seq<Note>, x: real): (r: nat)
    ensures r <= |notes|
    ensures forall k | 0 <= k < r :: notes[k].t < x
    ensures r < |notes| ==> notes[r].t >= x
  {
    if notes == [] || notes[0].t >= x then 0 else 1 + LowerBound(notes[1..], x)
  }

  /** Over start-sorted notes the lower bound splits the score: everything
      from it on starts at or after `x`. */
  lemma LowerBoundSplits(notes: seq<Note>, x: real, k: int)
    requires StartsSorted(notes)
    requires LowerBound(notes, x) <= k < |notes|
    ensures notes[k].t >= x
  {
  }

  /** A later target never yields an earlier index. */
  lemma LowerBoundMonotone(notes: seq<Note>, x: real, y: real)
    requires x <= y
    ensures LowerBound(notes, x) <= LowerBound(notes, y)
  {
  }

  /** binarySearchByStart: the lower bound, found by halving [lo, hi). */
  method BinarySearchByStart(notes: seq<Note>, target: real) returns (lo: nat)
    requires StartsSorted(notes)
    ensures lo == LowerBound(notes, target)
    ensures forall k | 0 <= k < lo :: notes[k].t < target
    ensures forall k | lo <= k < |notes| :: notes[k].t >= target
  {
    lo := 0;
    var hi := |notes|;
    while lo < hi
      invariant lo <= hi <= |notes|
      invariant forall k | 0 <= k < lo :: notes[k].t < target
      invariant forall k | hi <= k < |notes| :: notes[k].t >= target
    {
      var mid := (lo + hi) / 2;
      if notes[mid].t < target {
        lo := mid + 1;
      } else {
        hi := mid;
      }
    }
    var r := LowerBound(notes, target);
    assert lo < |notes| ==> notes[lo].t >= target;
    assert r < |notes| ==> notes[r].t >= target;
  }

  /** The beat the resume search starts from: MAX_SUSTAIN_BEATS earlier, not below 0. */
  function ResumeBeat(beat: real): (r: real)
    ensures 0.0 <= r
    ensures beat >= 0.0 ==> r <= beat
    ensures beat - r <= MAX_SUSTAIN_BEATS
    ensures r > 0.0 ==> beat - r == MAX_SUSTAIN_BEATS
  {
    if beat - MAX_SUSTAIN_BEATS < 0.0 then 0.0 else beat - MAX_SUSTAIN_BEATS
  }

  /** The value of findStartIndex(beat). */
  function StartIndex(notes: seq<Note>, beat: real): (i: nat)
    ensures i <= |notes|
    ensures forall k | 0 <= k < i :: notes[k].t < ResumeBeat(beat)
    ensures i < |notes| ==> notes[i].t >= ResumeBeat(beat)
  {
    LowerBound(notes, ResumeBeat(beat))
  }

  /** For a beat inside the score the resume index never lies after the plain
      lower bound of the same beat. */
  lemma StartIndexNotAfter(notes: seq<Note>, beat: real)
    requires beat >= 0.0
    ensures StartIndex(notes, beat) <= LowerBound(notes, beat)
  {
  }

  /** A note that is sounding at `beat` and is no longer than MAX_SUSTAIN_BEATS
      lies at or after the resume index, so resuming at `beat` revisits it. */
  lemma ResumeIndexCoversHeldNotes(notes: seq<Note>, beat: real, k: int)
    requires 0 <= k < |notes|
    requires notes[k].t >= 0.0
    requires notes[k].t <= beat < notes[k].t + notes[k].d
    requires notes[k].d <= MAX_SUSTAIN_BEATS
    ensures StartIndex(notes, beat) <= k
  {
  }

  /** The documented limit of the back-off: a note longer than
      MAX_SUSTAIN_BEATS that is still sounding can lie before the resume index. */
  lemma LongNoteCanBeMissed()
    ensures var notes := [Note(0.0, 10.0, 60, 1)];
      notes[0].t <= 5.0 < notes[0].t + notes[0].d && StartIndex(notes, 5.0) == 1
  {
  }

  /** findStartIndex: the lower bound of the resume beat. */
  method FindStartIndex(notes: seq<Note>, beat: real) returns (i: nat)
    requires StartsSorted(notes)
    ensures i == StartIndex(notes, beat)
    ensures beat >= 0.0 ==> i <= LowerBound(notes, beat)
    ensures forall k | 0 <= k < i :: notes[k].t < ResumeBeat(beat)
  {
    i := BinarySearchByStart(notes, ResumeBeat(beat));
    if beat >= 0.0 {
      StartIndexNotAfter(notes, beat);
    }
  }
}
