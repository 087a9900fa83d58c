/** The events an event receiver is told about: one constructor per receiver
    callback, with the callback's arguments except the delta-time. */
module Events {
  import opened Primitives

  datatype Event =
    | NoteOn(channel: Channel, note: NoteNumber, velocity: uint8)
    | NoteOff(channel: Channel, note: NoteNumber, velocity: uint8)
    | PolyphonicKeyPressure(channel: Channel, note: NoteNumber, pressure: uint8)
    | ControlChange(channel: Channel, controller: uint8, value: uint8)
    | ProgramChange(channel: Channel, program: Instrument)
    | ChannelPressure(channel: Channel, pressure: uint8)
    | PitchWheelChange(channel: Channel, wheel: uint16)
    | Meta(kind: uint8, data: seq<uint8>)
    | Sysex(data: seq<uint8>)

  /** An event together with the ticks elapsed since the previous event. */
  datatype TimedEvent = TimedEvent(dt: Duration, event: Event)

  predicate IsChannelEvent(e: Event) { !e.Meta? && !e.Sysex? }

  predicate AddressedTo(e: Event, c: Channel) { IsChannelEvent(e) && e.channel == c }

  /** The end-of-track meta event (type 0x2F). */
  predicate IsEndOfTrack(e: Event) { e.Meta? && e.kind == 0x2F }

  /** The sum of the delta-times of a run of events. */
  function TotalDelta(es: seq<TimedEvent>): nat
  {
    if es == [] then 0 else TotalDelta(es[..|es| - 1]) + es[|es| - 1].dt
  }
}
