/** The MTrk event-stream decoder as a function of the track payload: each
    event is a delta-time quantity followed by a channel message (with its
    status byte, or reusing the running status), a meta event or a sysex
    event. Decoding stops at the end of the payload, at the end-of-track meta
    event or at the first error; the events decoded before an error are kept. */
module Decoder {
  import opened Primitives
  import opened Status
  import opened Events
  import opened Reader

  /** A status byte that starts a channel message: the only kind that is
      remembered as running status. */
  type StatusByte = b: uint8 | 0x80 <= b < 0xF0 witness 0x80

  /** The channel message a status byte and its data bytes stand for. Program
      change and channel pressure use only d1; the pitch wheel's 14-bit value
      is sent least significant group first. */
  function ChannelEventOf(status: StatusByte, d1: uint8, d2: uint8): (e: Event)
    requires d1 < 0x80 && d2 < 0x80
    ensures IsChannelEvent(e) && e.channel == ExtractMidiEventChannel(status)
    ensures e.NoteOff? <==> IsNoteOff(status)
    ensures e.NoteOn? <==> IsNoteOn(status)
    ensures e.PolyphonicKeyPressure? <==> IsPolyphonicKeyPressure(status)
    ensures e.ControlChange? <==> IsControlChange(status)
    ensures e.ProgramChange? <==> IsProgramChange(status)
    ensures e.ChannelPressure? <==> IsChannelPressure(status)
    ensures e.PitchWheelChange? <==> IsPitchWheelChange(status)
  {
    var c := ExtractMidiEventChannel(status);
    if IsNoteOff(status) then NoteOff(c, d1, d2)
    else if IsNoteOn(status) then NoteOn(c, d1, d2)
    else if IsPolyphonicKeyPressure(status) then PolyphonicKeyPressure(c, d1, d2)
    else if IsControlChange(status) then ControlChange(c, d1, d2)
    else if IsProgramChange(status) then ProgramChange(c, d1)
    else if IsChannelPressure(status) then ChannelPressure(c, d1)
    else PitchWheelChange(c, d2 * 128 + d1)
  }

  /** A decoded message, the position just past it and the running status
      after it. */
  datatype Message = Message(event: Event, next: nat, running: Option<StatusByte>)

  /** The data bytes of a channel message that starts at pos. */
  function ReadChannelMessage(bs: seq<uint8>, pos: nat, status: StatusByte): (r: Result<Message, DecodeError>)
    ensures r.Success? ==> pos < r.value.next <= |bs| && r.value.running == Some(status)
    ensures r.Failure? ==> r.error != UnknownStatus
  {
    var n := DataByteCount(status);
    if pos + n > |bs| then Failure(TruncatedStream)
    else if bs[pos] >= 0x80 || (n == 2 && bs[pos + 1] >= 0x80) then Failure(MalformedDataByte)
    else
      var d2 := if n == 2 then bs[pos + 1] else 0;
      Success(Message(ChannelEventOf(status, bs[pos], d2), pos + n, Some(status)))
  }

  /** A channel message read fails with TruncatedStream exactly when its data
      bytes run past the end of the payload, and with MalformedDataByte exactly
      when they are all there but one has its high bit set; otherwise it is the
      message those data bytes stand for, and the read ends after them. Stated
      apart from ReadChannelMessage so that callers of the function do not
      carry it. */
  lemma ReadChannelMessageOfLength(bs: seq<uint8>, pos: nat, status: StatusByte)
    ensures var r := ReadChannelMessage(bs, pos, status);
      var n := DataByteCount(status);
      && (r == Failure(TruncatedStream) <==> pos + n > |bs|)
      && (r == Failure(MalformedDataByte) <==>
            pos + n <= |bs| && (bs[pos] >= 0x80 || (n == 2 && bs[pos + 1] >= 0x80)))
      && (r.Success? ==>
            && r.value.event == ChannelEventOf(status, bs[pos], if n == 2 then bs[pos + 1] else 0)
            && r.value.next == pos + n)
  {
  }

  /** A length quantity followed by that many bytes. */
  function ReadPayload(bs: seq<uint8>, pos: nat): (r: Result<(seq<uint8>, nat), DecodeError>)
    ensures r.Success? ==>
      && pos < r.value.1 <= |bs| && |r.value.0| < r.value.1 - pos
      && r.value.0 == bs[r.value.1 - |r.value.0|..r.value.1]
    ensures r.Failure? ==> r.error == TruncatedStream
  {
    ReadVarintExtent(bs, pos);
    match ReadVarint(bs, pos)
    case Failure(err) => Failure(err)
    case Success((len, p)) =>
      if p + len > |bs| then Failure(TruncatedStream)
      else Success((bs[p..p + len], p + len))
  }

  /** A payload read succeeds exactly when the length quantity at pos is read
      and the bytes it announces are all there; the data are then those bytes,
      right after the quantity. Stated apart from ReadPayload so that callers
      of the function do not carry it. */
  lemma ReadPayloadOfLength(bs: seq<uint8>, pos: nat)
    ensures var r := ReadPayload(bs, pos);
      var q := ReadVarint(bs, pos);
      && (r.Success? <==> q.Success? && q.value.1 + q.value.0 <= |bs|)
      && (r.Success? ==> r.value == (bs[q.value.1..q.value.1 + q.value.0], q.value.1 + q.value.0))
      && (r.Failure? ==> r.error == TruncatedStream)
  {
  }

  /** A meta event after its 0xFF: the type byte, then the payload. */
  function ReadMeta(bs: seq<uint8>, pos: nat, running: Option<StatusByte>): (r: Result<Message, DecodeError>)
    ensures r.Success? ==> pos < r.value.next <= |bs| && r.value.event.Meta? && r.value.running == running
    ensures r.Failure? ==> r.error == TruncatedStream
  {
    if pos >= |bs| then Failure(TruncatedStream)
    else match ReadPayload(bs, pos + 1)
      case Failure(err) => Failure(err)
      case Success((data, next)) => Success(Message(Meta(bs[pos], data), next, running))
  }

  /** A sysex event after its 0xF0 or 0xF7: the payload. */
  function ReadSysex(bs: seq<uint8>, pos: nat, running: Option<StatusByte>): (r: Result<Message, DecodeError>)
    ensures r.Success? ==> pos < r.value.next <= |bs| && r.value.event.Sysex? && r.value.running == running
    ensures r.Failure? ==> r.error == TruncatedStream
  {
    match ReadPayload(bs, pos)
    case Failure(err) => Failure(err)
    case Success((data, next)) => Success(Message(Sysex(data), next, running))
  }

  /** The message that starts at pos: a byte below 0x80 reuses the running
      status and is the first data byte; a channel status byte becomes the new
      running status; meta and sysex events leave it as it was. */
  function DecodeMessage(bs: seq<uint8>, pos: nat, running: Option<StatusByte>): (r: Result<Message, DecodeError>)
    ensures r.Success? ==> pos < r.value.next <= |bs|
    ensures pos >= |bs| ==> r == Failure(TruncatedStream)
    ensures r.Success? && IsChannelEvent(r.value.event) ==>
      && r.value.running.Some?
      && r.value.event.channel == ExtractMidiEventChannel(r.value.running.value)
    ensures r.Success? && !IsChannelEvent(r.value.event) ==> r.value.running == running
    ensures r.Failure? && r.error == UnknownStatus <==>
      pos < |bs| && (Classify(bs[pos]) == Unrecognized || (IsRunningStatus(bs[pos]) && running.None?))
  {
    if pos >= |bs| then Failure(TruncatedStream)
    else
      var b := bs[pos];
      match Classify(b)
      case RunningStatus =>
        if running.None? then Failure(UnknownStatus) else ReadChannelMessage(bs, pos, running.value)
      case ChannelMessage => ReadChannelMessage(bs, pos + 1, b)
      case MetaEvent => ReadMeta(bs, pos + 1, running)
      case SysexEvent => ReadSysex(bs, pos + 1, running)
      case Unrecognized => Failure(UnknownStatus)
  }

  /** The kind of a channel message comes from its status byte: its own, or
      the running status when the message starts with a data byte. */
  lemma ChannelMessageStatus(bs: seq<uint8>, pos: nat, running: Option<StatusByte>)
    requires pos < |bs|
    ensures IsRunningStatus(bs[pos]) && running.Some? ==>
      DecodeMessage(bs, pos, running) == ReadChannelMessage(bs, pos, running.value)
    ensures IsMidiEvent(bs[pos]) ==> DecodeMessage(bs, pos, running) == ReadChannelMessage(bs, pos + 1, bs[pos])
  {
  }

  /** One timed event, the position after it and the running status after it. */
  datatype Decoded = Decoded(event: TimedEvent, next: nat, running: Option<StatusByte>)

  /** The delta-time, then the message. */
  function DecodeEvent(bs: seq<uint8>, pos: nat, running: Option<StatusByte>): (r: Result<Decoded, DecodeError>)
    ensures r.Success? ==> pos < r.value.next <= |bs|
  {
    ReadVarintExtent(bs, pos);
    match ReadVarint(bs, pos)
    case Failure(err) => Failure(err)
    case Success((dt, p)) =>
      match DecodeMessage(bs, p, running)
      case Failure(err) => Failure(err)
      case Success(m) => Success(Decoded(TimedEvent(dt, m.event), m.next, m.running))
  }

  /** An event is its delta-time read followed by its message read; the
      first of the two that fails decides the error. */
  lemma DecodeEventOfParts(bs: seq<uint8>, pos: nat, running: Option<StatusByte>)
    ensures ReadVarint(bs, pos).Failure? ==>
      DecodeEvent(bs, pos, running) == Failure(ReadVarint(bs, pos).error)
    ensures ReadVarint(bs, pos).Success? ==>
      var (dt, p) := ReadVarint(bs, pos).value;
      var r := DecodeMessage(bs, p, running);
      && (r.Failure? ==> DecodeEvent(bs, pos, running) == Failure(r.error))
      && (r.Success? ==>
          DecodeEvent(bs, pos, running) == Success(Decoded(TimedEvent(dt, r.value.event), r.value.next, r.value.running)))
  {
  }

  /** A delta-time read followed by a message read make up the event. This is
      the success case of DecodeEventOfParts with the two reads named by the
      caller; stating it apart keeps the callers' proof obligations small. */
  lemma DecodeEventOf(bs: seq<uint8>, pos: nat, running: Option<StatusByte>, dt: nat, p: nat, m: Message)
    requires ReadVarint(bs, pos) == Success((dt, p))
    requires DecodeMessage(bs, p, running) == Success(m)
    ensures DecodeEvent(bs, pos, running) == Success(Decoded(TimedEvent(dt, m.event), m.next, m.running))
  {
  }

  /** An event whose delta-time is the last thing in the payload is cut off
      before its message: TruncatedStream. */
  lemma DeltaTimeAtEnd(bs: seq<uint8>, pos: nat, running: Option<StatusByte>, dt: nat)
    requires ReadVarint(bs, pos) == Success((dt, |bs|))
    ensures DecodeEvent(bs, pos, running) == Failure(TruncatedStream)
  {
  }

  /** The events handed to the receiver and the error decoding ended in, if any. */
  datatype Trace = Trace(events: seq<TimedEvent>, error: Option<DecodeError>)

  /** Only the last event of a trace can be the end-of-track event. */
  predicate EndOfTrackLast(es: seq<TimedEvent>)
  {
    forall i :: 0 <= i < |es| - 1 ==> !IsEndOfTrack(es[i].event)
  }

  function DecodeFrom(bs: seq<uint8>, pos: nat, running: Option<StatusByte>): (t: Trace)
    requires pos <= |bs|
    ensures EndOfTrackLast(t.events)
    ensures |t.events| <= |bs| - pos
    decreases |bs| - pos
  {
    if pos == |bs| then Trace([], None)
    else
      match DecodeEvent(bs, pos, running)
      case Failure(err) => Trace([], Some(err))
      case Success(d) =>
        if IsEndOfTrack(d.event.event) then Trace([d.event], None)
        else
          var rest := DecodeFrom(bs, d.next, d.running);
          Trace([d.event] + rest.events, rest.error)
  }

  /** Decoding from pos gives exactly the events es, with no error. */
  predicate DecodesTo(bs: seq<uint8>, pos: nat, running: Option<StatusByte>, es: seq<TimedEvent>)
  {
    pos <= |bs| && DecodeFrom(bs, pos, running) == Trace(es, None)
  }

  /** Decoding from pos hands out the event that starts there, then either
      stops at the end of the track or carries on after it. */
  lemma DecodeFromStep(bs: seq<uint8>, pos: nat, running: Option<StatusByte>)
    requires pos < |bs| && DecodeEvent(bs, pos, running).Success?
    ensures var d := DecodeEvent(bs, pos, running).value;
      var rest := DecodeFrom(bs, d.next, d.running);
      DecodeFrom(bs, pos, running) ==
        if IsEndOfTrack(d.event.event) then Trace([d.event], None)
        else Trace([d.event] + rest.events, rest.error)
  {
  }

  /** The same unfolding as DecodeFromStep, for a decoded event the caller
      names and that is not the end of the track; the named form keeps the
      callers' proof obligations small. */
  lemma DecodeFromNext(bs: seq<uint8>, pos: nat, running: Option<StatusByte>, d: Decoded)
    requires DecodeEvent(bs, pos, running) == Success(d) && !IsEndOfTrack(d.event.event)
    ensures pos < d.next <= |bs|
    ensures var rest := DecodeFrom(bs, d.next, d.running);
      DecodeFrom(bs, pos, running) == Trace([d.event] + rest.events, rest.error)
  {
  }

  /** The same unfolding as DecodeFromStep, for a named end-of-track event. */
  lemma DecodeFromLast(bs: seq<uint8>, pos: nat, running: Option<StatusByte>, d: Decoded)
    requires DecodeEvent(bs, pos, running) == Success(d) && IsEndOfTrack(d.event.event)
    ensures pos < |bs| && DecodeFrom(bs, pos, running) == Trace([d.event], None)
  {
  }

  /** A track is decoded from its first byte with no running status. */
  function Decode(bs: seq<uint8>): (t: Trace)
    ensures EndOfTrackLast(t.events)
  {
    DecodeFrom(bs, 0, None)
  }

  /** A byte below 0x80 where the first status byte belongs is an error: there
      is no running status yet. */
  lemma DataByteFirst(dt: uint8, b: uint8, rest: seq<uint8>)
    requires dt < 0x80 && b < 0x80
    ensures Decode([dt, b] + rest) == Trace([], Some(UnknownStatus))
  {
    var bs := [dt, b] + rest;
    assert ReadVarint(bs, 0) == Success((dt as nat, 1));
  }

  /** An event whose message starts with a data byte is a message of the
      running status's kind and channel, whatever its delta-time: the data
      byte is the message's first, and the running status stays. */
  lemma RunningStatusReused(bs: seq<uint8>, pos: nat, s: StatusByte)
    requires ReadVarint(bs, pos).Success?
    requires var p := ReadVarint(bs, pos).value.1;
      && p + DataByteCount(s) <= |bs| && bs[p] < 0x80 && (DataByteCount(s) == 2 ==> bs[p + 1] < 0x80)
    ensures var (dt, p) := ReadVarint(bs, pos).value;
      var n := DataByteCount(s);
      var e := ChannelEventOf(s, bs[p], if n == 2 then bs[p + 1] else 0);
      && ExtractMidiEventChannel(s) == e.channel
      && DecodeEvent(bs, pos, Some(s)) == Success(Decoded(TimedEvent(dt, e), p + n, Some(s)))
  {
  }

  /** The end-of-track event ends decoding even when bytes remain after it. */
  lemma EndOfTrackIgnoresRest(rest: seq<uint8>)
    ensures Decode([0x00, 0xFF, 0x2F, 0x00] + rest) == Trace([TimedEvent(0, Meta(0x2F, []))], None)
  {
    var bs := [0x00, 0xFF, 0x2F, 0x00] + rest;
    assert ReadVarint(bs, 0) == Success((0, 1));
    assert ReadVarint(bs, 3) == Success((0, 4));
    assert bs[4..4] == [];
  }

  /** A meta event, wherever it starts, that announces more bytes than the
      payload holds is a truncated stream, not a read past the end. */
  lemma TruncatedMetaPayload(bs: seq<uint8>, pos: nat, running: Option<StatusByte>)
    requires pos + 1 < |bs| && bs[pos] == 0xFF && ReadVarint(bs, pos + 2).Success?
    requires var (len, p) := ReadVarint(bs, pos + 2).value; p + len > |bs|
    ensures DecodeMessage(bs, pos, running) == Failure(TruncatedStream)
  {
  }

  /** A successful read looks at no byte past its end. */
  lemma {:induction false} ReadVarintFromAppend(bs: seq<uint8>, rest: seq<uint8>, pos: nat, acc: nat)
    requires ReadVarintFrom(bs, pos, acc).Success?
    ensures ReadVarintFrom(bs + rest, pos, acc) == ReadVarintFrom(bs, pos, acc)
    decreases |bs| - pos
  {
    assert (bs + rest)[pos] == bs[pos];
    if bs[pos] >= 0x80 {
      ReadVarintFromAppend(bs, rest, pos + 1, acc * 128 + (bs[pos] - 0x80));
    }
  }

  lemma ReadPayloadAppend(bs: seq<uint8>, rest: seq<uint8>, pos: nat)
    requires ReadPayload(bs, pos).Success?
    ensures ReadPayload(bs + rest, pos) == ReadPayload(bs, pos)
  {
    ReadVarintFromAppend(bs, rest, pos, 0);
    var p := ReadVarint(bs, pos).value.1;
    var len := ReadVarint(bs, pos).value.0;
    assert (bs + rest)[p..p + len] == bs[p..p + len];
  }

  lemma DecodeEventAppend(bs: seq<uint8>, rest: seq<uint8>, pos: nat, running: Option<StatusByte>)
    requires DecodeEvent(bs, pos, running).Success?
    ensures DecodeEvent(bs + rest, pos, running) == DecodeEvent(bs, pos, running)
  {
    var bs' := bs + rest;
    assert forall k :: 0 <= k < |bs| ==> bs'[k] == bs[k];
    ReadVarintFromAppend(bs, rest, pos, 0);
    var p := ReadVarint(bs, pos).value.1;
    match Classify(bs[p])
    case MetaEvent =>
      ReadPayloadAppend(bs, rest, p + 2);
    case SysexEvent =>
      ReadPayloadAppend(bs, rest, p + 1);
    case _ =>
  }

  /** Whatever follows a track that ends with its end-of-track event is never
      decoded. */
  lemma {:induction false} DecodeFromIgnoresTrailing(bs: seq<uint8>, rest: seq<uint8>, pos: nat, running: Option<StatusByte>)
    requires pos <= |bs|
    requires var t := DecodeFrom(bs, pos, running);
      t.error.None? && |t.events| > 0 && IsEndOfTrack(t.events[|t.events| - 1].event)
    ensures DecodeFrom(bs + rest, pos, running) == DecodeFrom(bs, pos, running)
    decreases |bs| - pos
  {
    DecodeEventAppend(bs, rest, pos, running);
    var d := DecodeEvent(bs, pos, running).value;
    if !IsEndOfTrack(d.event.event) {
      DecodeFromIgnoresTrailing(bs, rest, d.next, d.running);
    }
  }

  lemma DecodeIgnoresTrailing(bs: seq<uint8>, rest: seq<uint8>)
    requires var t := Decode(bs);
      t.error.None? && |t.events| > 0 && IsEndOfTrack(t.events[|t.events| - 1].event)
    ensures Decode(bs + rest) == Decode(bs)
  {
    DecodeFromIgnoresTrailing(bs, rest, 0, None);
  }
}
