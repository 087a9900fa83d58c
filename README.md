# MIDI note extraction, modelled in Dafny

This project models the core of a MIDI translator. The translator reads the
track chunks (`MTrk`) of a Standard MIDI File. It decodes each track's bytes
into timed events, using delta-times, running status, and meta and sysex
framing. It then rebuilds notes (pitch, start, duration, velocity,
instrument) by pairing each note-on with the note-off that closes it, channel
by channel. All declarations are in `src/midi/midi/midi.h`, and the model
follows that header.

- **Status-byte classifiers** (`Status`). Each test is a predicate on a byte.
  `Classify` sorts a byte into exactly one family.
- **Events** (`Events`). The receiver's nine callbacks become one `Event`
  datatype with one constructor per callback. A `TimedEvent` pairs an event
  with its delta-time.
- **Note** (`Notes`). The note record and its comparison operators.
- **Channel note collector** (`CollectorSpec`, `Collectors.ChannelNoteCollector`).
  The class keeps the header's fields: `channel`, `instrument`, `time`, and the
  two 128-entry arrays `timeArray` and `snelheden`. Velocity 128 marks a pitch
  with no open note. Each method is proved to perform the transition that
  `CollectorSpec.Step` describes on a value-level state, and the pairing rules
  are proved about `Step` and `Run`.
- **Event multicaster and note collector** (`BankSpec`,
  `Collectors.EventMulticaster`, `Collectors.NoteCollector`). The multicaster
  forwards each event to every receiver in list order. `create_list` builds
  sixteen collectors, one per channel. They are proved to behave like sixteen
  independent collectors. Only the addressed collector reacts, and notes
  reach the callback in the order they were closed.
- **Track reader** (`Reader`, `Decoder`, `Track.ReadMtrk`):
  - `Decoder.Decode` is a function that gives the events a track payload
    decodes to, and the error decoding ends in.
  - The variable-length quantity reader and the event loop are methods. Each
    is proved to compute exactly what the function specifies.
  - As its inverse partner, `Encoder` writes events back to bytes. Decoding an
    encoded track is proved to give the events back.
- **Note reader** (`Track.ReadNotes`). It runs every track through a fresh
  note collector. All collectors feed one note callback.

The header's `std::function` note callback becomes a `NoteSink` object that
accumulates notes in a `seq`. Byte streams become `seq<uint8>` with a
position.

## Model

| member | source | states |
|---|---|---|
| Status.IsSysexEvent | src/midi/midi/midi.h:33 | definition: 0xF0 or 0xF7 |
| Status.IsMetaEvent | src/midi/midi/midi.h:34 | definition: 0xFF |
| Status.IsMidiEvent | src/midi/midi/midi.h:35 | definition: 0x80 up to 0xEF, a channel status byte |
| Status.IsRunningStatus | src/midi/midi/midi.h:36 | definition: below 0x80, a data byte |
| Status.ExtractMidiEventType | src/midi/midi/midi.h:38 | the type is the high nibble (below 16); it lies in 0x8..0xE exactly for channel status bytes and below 0x8 exactly for data bytes |
| Status.ExtractMidiEventChannel | src/midi/midi/midi.h:38-39 | type and channel together give back the status byte (16 * type + channel) |
| Status.Classify | src/midi/midi/midi.h:33-36 | a byte is a data byte, a channel status, a meta marker or a sysex marker exactly when the corresponding classifier holds; it is unrecognized exactly for 0xF1-0xFE other than 0xF7 |
| Status.IsNoteOff | src/midi/midi/midi.h:42 | definition: type nibble 0x8 |
| Status.IsNoteOn | src/midi/midi/midi.h:43 | definition: type nibble 0x9 |
| Status.IsPolyphonicKeyPressure | src/midi/midi/midi.h:44 | definition: type nibble 0xA |
| Status.IsControlChange | src/midi/midi/midi.h:45 | definition: type nibble 0xB |
| Status.IsProgramChange | src/midi/midi/midi.h:46 | definition: type nibble 0xC |
| Status.IsChannelPressure | src/midi/midi/midi.h:47 | definition: type nibble 0xD |
| Status.IsPitchWheelChange | src/midi/midi/midi.h:48 | definition: type nibble 0xE |
| Status.ClassifiersExclusive | src/midi/midi/midi.h:33-36 | no byte satisfies two of the four classifiers |
| Status.ExactlyOneMessageKind | src/midi/midi/midi.h:42-48 | a channel status byte satisfies exactly one of the seven message-kind tests; any other byte satisfies none |
| Status.KindIgnoresChannel | src/midi/midi/midi.h:38-48 | two status bytes with the same type nibble pass the same kind tests, whatever their channels |
| Status.DataByteCount | src/midi/midi/midi.h:52-58 | program change and channel pressure carry one data byte; every other channel message carries two |
| Notes.NoteEquals | src/midi/midi/midi.h:77 | field-by-field comparison holds exactly when the two notes are equal |
| Notes.NoteDiffers | src/midi/midi/midi.h:78 | holds exactly when the notes differ; it is the negation of `==` |
| CollectorSpec.Initial | src/midi/midi/midi.h:86-98 | a new collector has the given channel, program 0, time 0 and no open note |
| CollectorSpec.Close | src/midi/midi/midi.h:102 | closing an open pitch emits exactly one note, from its start to now, with its stored velocity and the current instrument, and frees only that slot; closing a free pitch changes nothing |
| CollectorSpec.Open | src/midi/midi/midi.h:101 | opening stores the current time and the velocity for that pitch, leaves every other pitch's start time and velocity as they were, and keeps channel, time and instrument |
| CollectorSpec.Step | src/midi/midi/midi.h:101-109 | every event advances the clock by its delta-time, keeps the channel and keeps the state well formed; what each kind of event does is stated by the lemmas below |
| CollectorSpec.StepEffects | src/midi/midi/midi.h:101-109 | one event emits at most one note, ending now, with the instrument in force before it; only a program change changes the instrument; an event for another channel (or meta or sysex) only advances the clock |
| CollectorSpec.Run | src/midi/midi/midi.h:83-110 | after a run of events the clock has advanced by the sum of the delta-times, and the state is well formed |
| CollectorSpec.RunEmitsInCloseOrder | src/midi/midi/midi.h:85 | every note a run emits ends within the run, and the notes come out in the order in which they were closed |
| CollectorSpec.ZeroVelocityIsNoteOff | src/midi/midi/midi.h:101-102 | a note-on with velocity 0 has exactly the effect of a note-off |
| CollectorSpec.UnmatchedNoteOffIgnored | src/midi/midi/midi.h:102 | a note-off for a pitch with no open note emits nothing and only advances the clock |
| CollectorSpec.NoteOnOpens | src/midi/midi/midi.h:101 | a note-on with a non-zero 7-bit velocity on a free pitch emits nothing; the whole new state is the old one with the clock advanced and only that pitch opened now with that velocity (the sentinel 128 is never a real velocity) |
| CollectorSpec.NoteOffCloses | src/midi/midi/midi.h:102 | a note-off for an open pitch emits that note, from its start to now, with its velocity; the whole new state is the old one with the clock advanced and only that pitch freed |
| CollectorSpec.NoteOnRetriggers | src/midi/midi/midi.h:101 | a note-on for a sounding pitch first emits the open note ended now; the whole new state is the old one with the clock advanced and only that pitch reopened now with the new velocity |
| CollectorSpec.ProgramChangeSetsInstrument | src/midi/midi/midi.h:105 | a program change on the collector's channel emits nothing, makes its program the instrument and changes nothing else but the clock |
| CollectorSpec.OtherChannelMessagesOnlyAdvanceTime | src/midi/midi/midi.h:103-107 | key pressure, control change, channel pressure and pitch wheel, on any channel including the collector's own, emit nothing and only advance the clock |
| CollectorSpec.OpenThenClose | src/midi/midi/midi.h:101-102 | note-on then note-off on a free pitch: nothing, then exactly the note from the note-on lasting the second delta-time |
| CollectorSpec.NotePairing | src/midi/midi/midi.h:101-102 | a run of note-on then note-off on a free pitch emits exactly one note with the note-on's start, the second delta-time as duration and the note-on's velocity |
| CollectorSpec.RetriggerThenClose | src/midi/midi/midi.h:101-102 | the same two events on a sounding pitch: the old note, then the new one |
| CollectorSpec.Retrigger | src/midi/midi/midi.h:101-102 | a run of note-on then note-off on a sounding pitch emits two notes in closing order: the old note ended at the note-on, then the new one |
| CollectorSpec.ForeignEventsIgnored | src/midi/midi/midi.h:101-109 | a run with no event addressed to the collector's channel emits nothing and changes only the clock |
| CollectorSpec.ChannelIsolation | src/midi/midi/midi.h:84 | two runs with the same timing that agree on the events of the collector's channel have the same effect on it |
| BankSpec.InitialBank | src/midi/midi/midi.h:136-147 | sixteen collectors, collector i on channel i, all at time 0 with program 0 and no open note |
| BankSpec.EmittedUpTo | src/midi/midi/midi.h:119-127 | the first k receivers emit at most k notes for one event |
| BankSpec.ForwardedStates | src/midi/midi/midi.h:119-127 | forwarding to the first k receivers keeps the number of receivers |
| BankSpec.Broadcast | src/midi/midi/midi.h:113-128 | after forwarding one event, receiver i is in the state its own step gives, and all stay well formed |
| BankSpec.RunBank | src/midi/midi/midi.h:113-128 | a run through the multicaster keeps the number of receivers and their well-formedness |
| BankSpec.UnaddressedEmitsNothing | src/midi/midi/midi.h:119-127 | receivers that do not listen to the event's channel emit nothing |
| BankSpec.SingleListenerEmits | src/midi/midi/midi.h:119-127 | when one receiver alone listens to the channel, the notes emitted are exactly its own |
| BankSpec.BankRouting | src/midi/midi/midi.h:130-147 | in the sixteen-channel list a channel event yields exactly the notes of its channel's collector, a meta or sysex event yields none, and the list stays one collector per channel |
| BankSpec.BankStatesArePerReceiverRuns | src/midi/midi/midi.h:113-128 | after any run each receiver is in the state it would reach had it received the run alone |
| BankSpec.BankCollectsEveryReceiver | src/midi/midi/midi.h:113-128 | as a multiset, the shared callback gets exactly the notes the receivers would emit one by one: none lost, none duplicated |
| BankSpec.EmittedAtCurrentTime | src/midi/midi/midi.h:119-127 | receivers on a common clock emit only notes ending at the event's time |
| BankSpec.BankEmitsInCloseOrder | src/midi/midi/midi.h:130-134 | receivers on a common clock stay on it; the notes of all channels end within the run and reach the callback in closing order |
| Collectors.NoteSink.constructor | src/midi/midi/midi.h:85 | a new callback has received no notes |
| Collectors.NoteSink.Accept | src/midi/midi/midi.h:85 | the note is appended to those received |
| Collectors.ChannelNoteCollector.constructor | src/midi/midi/midi.h:91-98 | the fields form the initial state of the given channel (every velocity entry set to 128), the callback is the one given, and both tables are fresh |
| Collectors.ChannelNoteCollector.CloseNote | src/midi/midi/midi.h:102 | the collector's new state and the notes handed to the callback are those of `Close` |
| Collectors.ChannelNoteCollector.Receive | src/midi/midi/midi.h:101-109 | the collector's new state and the notes handed to the callback are those of `Step` |
| Collectors.EventMulticaster.StatesUpTo | src/midi/midi/midi.h:114 | the states of the first k receivers, k of them |
| Collectors.EventMulticaster.States | src/midi/midi/midi.h:114 | one state per receiver |
| Collectors.EventMulticaster.StatesAreReceiverStates | src/midi/midi/midi.h:114 | entry j of the states is receiver j's state |
| Collectors.EventMulticaster.constructor | src/midi/midi/midi.h:116-117 | keeps the given receivers, in order, with their current states |
| Collectors.EventMulticaster.Receive | src/midi/midi/midi.h:119-127 | the receivers' new states and the notes handed to the callback are those of `Broadcast` |
| Collectors.EventMulticaster.ForwardTo | src/midi/midi/midi.h:119-127 | receiver i takes its step and every other receiver is unchanged |
| Collectors.NoteCollector.CreateList | src/midi/midi/midi.h:136-147 | sixteen fresh, pairwise distinct collectors, collector i for channel i in its initial state, all feeding the given callback |
| Collectors.NoteCollector.constructor | src/midi/midi/midi.h:149-150 | the receiver list is `InitialBank()` and the callback is the one given |
| Collectors.NoteCollector.Receive | src/midi/midi/midi.h:152-160 | the new states are those of `Broadcast`; a channel event hands the callback exactly the notes of its channel's collector, and a meta or sysex event hands it nothing |
| Reader.Pow128 | src/midi/midi/midi.h:63 | a power of 128 is at least 1 |
| Reader.ReadVarintFromExtent | src/midi/midi/midi.h:63 | a read stops at the first byte below 0x80 and every earlier byte it consumed is at least 0x80; it fails, with `TruncatedStream`, exactly when every remaining byte has the continuation bit set |
| Reader.ReadVarintFromBound | src/midi/midi/midi.h:63 | a quantity read over k bytes is below 128^k, scaled by what was already accumulated |
| Reader.ReadVarintExtent | src/midi/midi/midi.h:63 | the extent and bound facts for a read that starts from nothing |
| Reader.ReadVarint | src/midi/midi/midi.h:63 | definition: the quantity at a position, most significant seven-bit group first, ending at the first byte below 0x80; its meaning is given by `ReadVarintExtent` and `VarintRoundTrip` |
| Reader.ReadVariableLengthInteger | src/midi/midi/midi.h:63 | the byte-by-byte loop returns exactly `ReadVarint` |
| Reader.LeadingGroups | src/midi/midi/midi.h:63 | the leading groups are non-empty and all carry the continuation bit |
| Reader.EncodeVarint | src/midi/midi/midi.h:63 | the encoding is non-empty; only its last byte is below 0x80 |
| Reader.Shifted | src/midi/midi/midi.h:63 | shifting groups in never decreases the accumulator |
| Reader.ReadContinuationBytes | src/midi/midi/midi.h:63 | reading over continuation bytes shifts each of them into the accumulator |
| Reader.ShiftedSnoc | src/midi/midi/midi.h:63 | one more group at the end multiplies by 128 and adds its seven bits |
| Reader.ShiftedLeadingGroups | src/midi/midi/midi.h:63 | the leading groups of m hold m in base 128 |
| Reader.VarintAt | src/midi/midi/midi.h:63 | an encoded quantity at any position reads back as its number and consumes exactly its bytes |
| Reader.VarintRoundTrip | src/midi/midi/midi.h:63 | reading the encoding of n, whatever surrounds it, gives n and consumes exactly the encoding |
| Reader.LeadingGroupsLength | src/midi/midi/midi.h:63 | a value below 128^k has at most k leading groups |
| Reader.EncodeVarintLength | src/midi/midi/midi.h:63 | a value below 128^k encodes in at most k bytes |
| Reader.DeltaTimeFitsFourBytes | src/midi/midi/midi.h:63 | every delta-time up to 0x0FFFFFFF encodes in one to four bytes and reads back |
| Decoder.ChannelEventOf | src/midi/midi/midi.h:42-58 | the event takes the status byte's channel, and its kind is the one the matching `is_*` test selects, for each of the seven kinds |
| Decoder.ReadChannelMessage | src/midi/midi/midi.h:63 | on success the message advances within the payload and its status becomes the running status; a failure is never `UnknownStatus` (`ReadChannelMessageOfLength` says which failure when) |
| Decoder.ReadChannelMessageOfLength | src/midi/midi/midi.h:63 | `TruncatedStream` exactly when the status's data bytes run past the end of the payload, `MalformedDataByte` exactly when they are all there and one has its high bit set, and otherwise the message of that status and those data bytes, ending right after them |
| Decoder.ReadPayload | src/midi/midi/midi.h:59-60 | on success the data is the slice of the payload just before the new position, with at least one byte between pos and the data; a failure is `TruncatedStream` (`ReadPayloadOfLength` ties it to the length read) |
| Decoder.ReadPayloadOfLength | src/midi/midi/midi.h:59-60 | the read succeeds exactly when the length quantity at the position is read and the bytes it announces all remain; the data are then exactly those bytes, right after the quantity, and any failure is `TruncatedStream` |
| Decoder.ReadMeta | src/midi/midi/midi.h:59 | on success a meta event, running status unchanged; a failure is `TruncatedStream` |
| Decoder.ReadSysex | src/midi/midi/midi.h:60 | on success a sysex event, running status unchanged; a failure is `TruncatedStream` |
| Decoder.DecodeMessage | src/midi/midi/midi.h:63 | a channel message sets the running status to a byte of its own channel; meta and sysex leave it; a message position at or past the end of the payload is `TruncatedStream`; the result is `UnknownStatus` exactly for an unrecognized byte or a data byte with no running status |
| Decoder.ChannelMessageStatus | src/midi/midi/midi.h:63 | a data byte with a running status starts a channel message of that status; a channel status byte starts one of its own |
| Decoder.DecodeEvent | src/midi/midi/midi.h:63 | a decoded event advances the position within the payload |
| Decoder.DecodeEventOfParts | src/midi/midi/midi.h:63 | unfolding lemma, kept for proof cost: `DecodeEvent` unfolded — an event is its delta-time read followed by its message read; the first of the two that fails decides the error |
| Decoder.DeltaTimeAtEnd | src/midi/midi/midi.h:63 | an event whose delta-time is the last thing in the payload fails with `TruncatedStream` |
| Decoder.DecodeFrom | src/midi/midi/midi.h:63 | only the last decoded event can be the end-of-track event, and there are no more events than bytes |
| Decoder.DecodeFromStep | src/midi/midi/midi.h:63 | unfolding lemma, kept for proof cost: `DecodeFrom` unfolded by one event — it hands out the next event, then stops at end-of-track or carries on after it |
| Decoder.Decode | src/midi/midi/midi.h:63 | only the last decoded event of a track can be the end-of-track event |
| Decoder.DataByteFirst | src/midi/midi/midi.h:63 | a data byte where the first status belongs is `UnknownStatus`, with no event |
| Decoder.RunningStatusReused | src/midi/midi/midi.h:63 | at any position and after any delta-time, a message that starts with a data byte is decoded as a message of the running status's kind and channel, with that byte as its first data byte, and the running status stays |
| Decoder.EndOfTrackIgnoresRest | src/midi/midi/midi.h:63 | the end-of-track event ends decoding whatever bytes follow it |
| Decoder.TruncatedMetaPayload | src/midi/midi/midi.h:59 | a meta event anywhere in the payload whose length announces more bytes than remain is `TruncatedStream`, not a read past the end |
| Decoder.ReadVarintFromAppend | src/midi/midi/midi.h:63 | a successful quantity read looks at no byte past its end |
| Decoder.ReadPayloadAppend | src/midi/midi/midi.h:59-60 | a successful payload read looks at no byte past its end |
| Decoder.DecodeEventAppend | src/midi/midi/midi.h:63 | a successful event read looks at no byte past its end |
| Decoder.DecodeFromIgnoresTrailing | src/midi/midi/midi.h:63 | bytes after an end-of-track event never change the decoding |
| Decoder.DecodeIgnoresTrailing | src/midi/midi/midi.h:63 | a track that decodes cleanly up to its end-of-track event decodes the same with anything appended |
| Encoder.StatusOf | src/midi/midi/midi.h:38-39 | the status byte written for a channel event carries the event's channel |
| Encoder.EncodeMessage | src/midi/midi/midi.h:63 | every message takes at least two bytes |
| Encoder.PayloadAt | src/midi/midi/midi.h:59-60 | an encoded payload reads back whole |
| Encoder.ChannelMessageOfEncoding | src/midi/midi/midi.h:42-58 | an encoded channel message has the data byte count of its status and 7-bit data bytes, and `ChannelEventOf` gives the event back |
| Encoder.ChannelMessageAt | src/midi/midi/midi.h:63 | an encoded channel message decodes back and becomes the running status |
| Encoder.MetaAt | src/midi/midi/midi.h:59 | an encoded meta event decodes back and leaves the running status |
| Encoder.SysexAt | src/midi/midi/midi.h:60 | an encoded sysex event decodes back and leaves the running status |
| Encoder.MessageAt | src/midi/midi/midi.h:63 | any encodable message decodes back wherever it sits |
| Encoder.EventAt | src/midi/midi/midi.h:63 | any encodable timed event decodes back wherever it sits |
| Encoder.EventRoundTrip | src/midi/midi/midi.h:63 | an encoded event decodes back whatever precedes or follows it |
| Encoder.DecodeFromEncoding | src/midi/midi/midi.h:63 | where encoded events fill the rest of the payload, decoding gives exactly them, with no error |
| Encoder.EncodedLast | src/midi/midi/midi.h:63 | an encoded end-of-track event ends decoding cleanly, whatever follows it |
| Encoder.EncodedCons | src/midi/midi/midi.h:63 | an encoded event followed by a clean decode of the rest is a clean decode of both |
| Encoder.TrackRoundTrip | src/midi/midi/midi.h:63 | decoding an encoded track gives back its events with no error, provided end-of-track comes only last |
| Track.ReadMtrk | src/midi/midi/midi.h:63 | the error returned is the decoding error of the payload; the collector's new states and the notes handed to its callback are those of running the decoded events through `RunBank` |
| Track.TrackNotes | src/midi/midi/midi.h:164 | definition: the notes a fresh note collector emits for one track, those of running its decoded events through sixteen initial collectors |
| Track.TrackNotesInCloseOrder | src/midi/midi/midi.h:164 | a track's notes come out in closing order and none ends after the track's last event |
| Track.NotesOf | src/midi/midi/midi.h:164 | definition: the notes of the tracks read in order, each through a fresh note collector, up to and including the first track that fails, and that track's error |
| Track.NotesOfSnoc | src/midi/midi/midi.h:164 | unfolding lemma, kept for proof cost: `NotesOf` unfolded by one track at the end — one more track appends its notes, unless reading has already stopped |
| Track.ErrorIsFinal | src/midi/midi/midi.h:164 | tracks after the first failing one add nothing |
| Track.NoErrorIffAllTracksDecode | src/midi/midi/midi.h:164 | reading ends without an error exactly when every track decodes without one |
| Track.TracksAreIndependent | src/midi/midi/midi.h:164 | after tracks that all decode, the notes of the rest are appended exactly as if those tracks were read alone |
| Track.CollectTrack | src/midi/midi/midi.h:149-150 | a fresh note collector over one track hands the callback exactly that track's notes and returns its error |
| Track.ReadNotes | src/midi/midi/midi.h:164 | the notes and the error are exactly `NotesOf` the tracks |

## Left out

- Chunk framing and the header chunk (`CHUNK_HEADER`, `read_chunk_header`, `header_id`, `MTHD`, `read_mthd`, midi.h:13-31) are left out. They are fixed-size big-endian reads from a stream. Here a track is given as its payload bytes, and `ReadNotes` takes the list of track payloads.
- `operator<<` for notes (midi.h:81) is left out: it only formats output.
- midi.cpp and primitives.h are not part of this model. The bodies of the handlers, the classifiers and the two readers follow the header's declarations and the MIDI 1.0 rules. Without primitives.h, `Time` and `Duration` are unbounded naturals, so the model does not capture any wrap-around of the header's integer types.
- Stream I/O (`std::istream`) becomes a byte sequence and a position. The `std::unique_ptr` buffer and size of the meta and sysex callbacks become one `seq<uint8>`.
- Collectors.EventMulticaster: the list holds `ChannelNoteCollector` objects that share one note callback. The header allows any `EventReceiver`, shared by pointer. Receivers of other kinds, and one receiver listed twice, are not modelled.
- Collectors.ChannelNoteCollector.Receive: the nine receiver callbacks are one method over the `Event` datatype. Polyphonic key pressure, control change, channel pressure, pitch wheel, meta and sysex only advance the clock.
- Collectors.ChannelNoteCollector.constructor: `timeArray` is set to 0. The header leaves it uninitialised, and an entry is read only after a note-on has written it.
- Track.ReadMtrk: it is written for a `NoteCollector` receiver, the only receiver `read_notes` uses, rather than for any `EventReceiver`.
- Decoder.ReadChannelMessage: a data byte of 0x80 or more inside a channel message is reported as an extra error, `MalformedDataByte`. `NoteNumber` and `Instrument` are modelled below 128, because primitives.h is not part of this model and the collector's tables have 128 entries (midi.h:88-89). The same error is raised for velocity, pressure, controller and value bytes, which midi.h:52-57 declares as `uint8_t`; here the model departs from a reader that would pass such bytes on unchanged.
- Decoder.DecodeMessage: meta and sysex events leave the running status as it was. The Standard MIDI Files 1.0 specification (MTrk events) says that sysex and meta events cancel any running status; this model keeps it instead, so a data byte right after a meta or sysex event reuses the status of the last channel message rather than being `UnknownStatus`.
- Reader.ReadVarint: the quantity is not limited to four bytes. `DeltaTimeFitsFourBytes` shows that every value up to 0x0FFFFFFF fits in four bytes.
- Track.ReadNotes: reading stops after the first track whose decoding fails, and the notes gathered so far are kept. Skipping a bad track and going on is not modelled. Each track gets a fresh `NoteCollector`, so every track's clock starts at 0.
- Notes left open at the end of a track are not closed and are not reported.
- The position of an error: a `DecodeError` names only its kind. It carries neither the byte offset in the payload where decoding stopped nor the index of the failing track, so neither `Decode` nor `ReadNotes` tells the caller where the failure was.
