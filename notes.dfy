/** The note record the collectors emit. */
module Notes {
  import opened Primitives

  datatype Note = Note(noteNumber: NoteNumber, start: Time, duration: Duration, velocity: uint8, instrument: Instrument)
  {
    /** The tick at which the note was closed. */
    function End(): Time { start + duration }
  }

  /** Field-by-field comparison; it coincides with value equality. */
  function NoteEquals(a: Note, b: Note): (r: bool)
    ensures r <==> a == b
  {
    && a.noteNumber == b.noteNumber
    && a.start == b.start
    && a.duration == b.duration
    && a.velocity == b.velocity
    && a.instrument == b.instrument
  }

  /** The negation of NoteEquals. */
  function NoteDiffers(a: Note, b: Note): (r: bool)
    ensures r <==> a != b
  {
    !NoteEquals(a, b)
  }

  /** Notes listed in the order in which they were closed. */
  predicate CloseOrdered(ns: seq<Note>)
  {
    forall i, j :: 0 <= i < j < |ns| ==> ns[i].End() <= ns[j].End()
  }
}
