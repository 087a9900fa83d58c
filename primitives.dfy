/** The scalar types of the translator and the two wrapper datatypes used for
    optional values and failures. Time and Duration are tick counts; Channel,
    NoteNumber and Instrument are the MIDI 1.0 ranges. */
module Primitives {

  type uint8 = x: int | 0 <= x < 0x100
  type uint16 = x: int | 0 <= x < 0x1_0000

  /** One of the 16 MIDI channels. */
  type Channel = x: int | 0 <= x < 16

  /** A MIDI note number, an index into a 128-entry table. */
  type NoteNumber = x: int | 0 <= x < 128

  /** A General MIDI program number, as set by a program-change message. */
  type Instrument = x: int | 0 <= x < 128

  /** Absolute tick position since the start of a track. */
  type Time = nat

  /** A tick delta: the delta-time of an event, or the length of a note. */
  type Duration = nat

  datatype Option<+T> = None | Some(value: T)

  datatype Result<+T, +E> = Success(value: T) | Failure(error: E)

  /** Regrouping a concatenation of three sequences, as the folds that append
      notes and events one step at a time need it. */
  lemma AppendAssoc<T>(a: seq<T>, b: seq<T>, c: seq<T>)
    ensures a + b + c == a + (b + c)
  {
  }
}
