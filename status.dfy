/** Classification of the status byte that starts an MTrk event, following the
    "MTrk events" section of Standard MIDI Files 1.0 and the "Channel Voice
    Messages" table of the MIDI 1.0 Detailed Specification. */
module Status {
  import opened Primitives

  /** A system-exclusive event starts with 0xF0 or 0xF7. */
  predicate IsSysexEvent(b: uint8) { b == 0xF0 || b == 0xF7 }

  /** A meta event starts with 0xFF. */
  predicate IsMetaEvent(b: uint8) { b == 0xFF }

  /** A channel message has a high nibble between 0x8 and 0xE. */
  predicate IsMidiEvent(b: uint8) { 0x80 <= b < 0xF0 }

  /** A byte with the high bit clear is a data byte: the previous status is reused. */
  predicate IsRunningStatus(b: uint8) { b < 0x80 }

  /** The message type: the high nibble of the status byte. */
  function ExtractMidiEventType(status: uint8): (t: uint8)
    ensures t < 16
    ensures IsMidiEvent(status) <==> 0x8 <= t <= 0xE
    ensures IsRunningStatus(status) <==> t < 0x8
  {
    status / 16
  }

  /** The channel: the low nibble. Type and channel together give back the byte. */
  function ExtractMidiEventChannel(status: uint8): (c: Channel)
    ensures 16 * ExtractMidiEventType(status) + c == status
  {
    status % 16
  }

  predicate IsNoteOff(status: uint8) { ExtractMidiEventType(status) == 0x8 }
  predicate IsNoteOn(status: uint8) { ExtractMidiEventType(status) == 0x9 }
  predicate IsPolyphonicKeyPressure(status: uint8) { ExtractMidiEventType(status) == 0xA }
  predicate IsControlChange(status: uint8) { ExtractMidiEventType(status) == 0xB }
  predicate IsProgramChange(status: uint8) { ExtractMidiEventType(status) == 0xC }
  predicate IsChannelPressure(status: uint8) { ExtractMidiEventType(status) == 0xD }
  predicate IsPitchWheelChange(status: uint8) { ExtractMidiEventType(status) == 0xE }

  /** The families a status byte can belong to; bytes 0xF1-0xFE other than
      0xF7 are system messages that cannot appear in a track. */
  datatype StatusClass = RunningStatus | ChannelMessage | MetaEvent | SysexEvent | Unrecognized

  function Classify(b: uint8): (k: StatusClass)
    ensures k == RunningStatus <==> IsRunningStatus(b)
    ensures k == ChannelMessage <==> IsMidiEvent(b)
    ensures k == MetaEvent <==> IsMetaEvent(b)
    ensures k == SysexEvent <==> IsSysexEvent(b)
    ensures k == Unrecognized <==> 0xF1 <= b <= 0xFE && b != 0xF7
  {
    if IsRunningStatus(b) then RunningStatus
    else if IsMidiEvent(b) then ChannelMessage
    else if IsMetaEvent(b) then MetaEvent
    else if IsSysexEvent(b) then SysexEvent
    else Unrecognized
  }

  /** The four classifiers never overlap. */
  lemma ClassifiersExclusive(b: uint8)
    ensures !(IsSysexEvent(b) && IsMetaEvent(b))
    ensures !(IsSysexEvent(b) && IsMidiEvent(b))
    ensures !(IsSysexEvent(b) && IsRunningStatus(b))
    ensures !(IsMetaEvent(b) && IsMidiEvent(b))
    ensures !(IsMetaEvent(b) && IsRunningStatus(b))
    ensures !(IsMidiEvent(b) && IsRunningStatus(b))
  {
  }

  function Indicator(p: bool): nat { if p then 1 else 0 }

  /** How many of the seven channel-message tests hold of a status byte. */
  function KindCount(status: uint8): nat
  {
    Indicator(IsNoteOff(status)) + Indicator(IsNoteOn(status)) +
    Indicator(IsPolyphonicKeyPressure(status)) + Indicator(IsControlChange(status)) +
    Indicator(IsProgramChange(status)) + Indicator(IsChannelPressure(status)) +
    Indicator(IsPitchWheelChange(status))
  }

  /** A channel message is exactly one of the seven kinds; any other byte is none. */
  lemma ExactlyOneMessageKind(status: uint8)
    ensures KindCount(status) == if IsMidiEvent(status) then 1 else 0
  {
  }

  /** The kind depends on the type nibble only, never on the channel. */
  lemma KindIgnoresChannel(s: uint8, t: uint8)
    requires ExtractMidiEventType(s) == ExtractMidiEventType(t)
    ensures IsNoteOff(s) == IsNoteOff(t) && IsNoteOn(s) == IsNoteOn(t)
    ensures IsPolyphonicKeyPressure(s) == IsPolyphonicKeyPressure(t)
    ensures IsControlChange(s) == IsControlChange(t)
    ensures IsProgramChange(s) == IsProgramChange(t)
    ensures IsChannelPressure(s) == IsChannelPressure(t)
    ensures IsPitchWheelChange(s) == IsPitchWheelChange(t)
  {
  }

  /** Program change and channel pressure carry one data byte, the others two. */
  function DataByteCount(status: uint8): (n: nat)
    requires IsMidiEvent(status)
    ensures n == 1 || n == 2
    ensures n == 1 <==> ExtractMidiEventType(status) == 0xC || ExtractMidiEventType(status) == 0xD
  {
    if IsProgramChange(status) || IsChannelPressure(status) then 1 else 2
  }
}
