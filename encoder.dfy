/** The inverse of the track decoder: every event written with its own status
    byte (no running status), its delta-time as the shortest variable-length
    quantity, meta and sysex payloads prefixed by their length. Decoding the
    encoding of a list of events gives the list back. */
module Encoder {
  import opened Primitives
  import opened Status
  import opened Events
  import opened Reader
  import opened Decoder

  /** The data fields of a channel message fit in seven bits and the pitch
      wheel in fourteen. */
  predicate Encodable(e: Event)
  {
    match e
    case NoteOff(_, _, v) => v < 0x80
    case NoteOn(_, _, v) => v < 0x80
    case PolyphonicKeyPressure(_, _, p) => p < 0x80
    case ControlChange(_, k, v) => k < 0x80 && v < 0x80
    case ProgramChange(_, _) => true
    case ChannelPressure(_, p) => p < 0x80
    case PitchWheelChange(_, w) => w < 0x4000
    case Meta(_, _) => true
    case Sysex(_) => true
  }

  /** The status byte of a channel message: type in the high nibble, channel
      in the low one. */
  function StatusOf(e: Event): (s: StatusByte)
    requires IsChannelEvent(e)
    ensures ExtractMidiEventChannel(s) == e.channel
  {
    var c := e.channel;
    match e
    case NoteOff(_, _, _) => 0x80 + c
    case NoteOn(_, _, _) => 0x90 + c
    case PolyphonicKeyPressure(_, _, _) => 0xA0 + c
    case ControlChange(_, _, _) => 0xB0 + c
    case ProgramChange(_, _) => 0xC0 + c
    case ChannelPressure(_, _) => 0xD0 + c
    case PitchWheelChange(_, _) => 0xE0 + c
  }

  function EncodeMessage(e: Event): (bs: seq<uint8>)
    requires Encodable(e)
    ensures |bs| >= 2
  {
    match e
    case NoteOff(_, n, v) => [StatusOf(e), n, v]
    case NoteOn(_, n, v) => [StatusOf(e), n, v]
    case PolyphonicKeyPressure(_, n, p) => [StatusOf(e), n, p]
    case ControlChange(_, k, v) => [StatusOf(e), k, v]
    case ProgramChange(_, p) => [StatusOf(e), p]
    case ChannelPressure(_, p) => [StatusOf(e), p]
    case PitchWheelChange(_, w) => [StatusOf(e), w % 128, w / 128]
    case Meta(kind, data) => [0xFF, kind] + EncodeVarint(|data|) + data
    case Sysex(data) => [0xF0] + EncodeVarint(|data|) + data
  }

  function EncodeEvent(x: TimedEvent): (bs: seq<uint8>)
    requires Encodable(x.event)
  {
    EncodeVarint(x.dt) + EncodeMessage(x.event)
  }

  predicate AllEncodable(es: seq<TimedEvent>)
  {
    forall i :: 0 <= i < |es| ==> Encodable(es[i].event)
  }

  /** A track payload: the encoded events one after another. */
  function EncodeTrack(es: seq<TimedEvent>): (bs: seq<uint8>)
    requires AllEncodable(es)
    decreases |es|
  {
    if es == [] then [] else EncodeEvent(es[0]) + EncodeTrack(es[1..])
  }

  /** Two chunks laid out from pos can be read off separately. */
  lemma SliceSplit(bs: seq<uint8>, pos: nat, a: seq<uint8>, b: seq<uint8>)
    requires pos + |a| + |b| <= |bs| && bs[pos..pos + |a| + |b|] == a + b
    ensures bs[pos..pos + |a|] == a
    ensures bs[pos + |a|..pos + |a| + |b|] == b
  {
    assert bs[pos..pos + |a|] == (a + b)[..|a|];
    assert bs[pos + |a|..pos + |a| + |b|] == (a + b)[|a|..];
  }

  /** The first chunk of what follows pos, and the rest. */
  lemma SliceHead(bs: seq<uint8>, pos: nat, a: seq<uint8>, b: seq<uint8>)
    requires pos <= |bs| && bs[pos..] == a + b
    ensures pos + |a| <= |bs|
    ensures bs[pos..pos + |a|] == a
    ensures bs[pos + |a|..] == b
  {
    assert bs[pos..pos + |a|] == (a + b)[..|a|];
    assert bs[pos + |a|..] == (a + b)[|a|..];
  }

  /** The payload of a meta or sysex event is read back whole. */
  lemma PayloadAt(bs: seq<uint8>, pos: nat, data: seq<uint8>)
    requires var m := EncodeVarint(|data|) + data;
      pos + |m| <= |bs| && bs[pos..pos + |m|] == m
    ensures ReadPayload(bs, pos) == Success((data, pos + |EncodeVarint(|data|)| + |data|))
  {
    var v := EncodeVarint(|data|);
    SliceSplit(bs, pos, v, data);
    VarintAt(bs, pos, |data|);
  }

  /** A channel message is decoded from its status byte and data bytes. */
  lemma ChannelMessageOfEncoding(e: Event)
    requires IsChannelEvent(e) && Encodable(e)
    ensures var bs := EncodeMessage(e);
      && DataByteCount(StatusOf(e)) == |bs| - 1
      && bs[1] < 0x80 && (|bs| == 3 ==> bs[2] < 0x80)
      && e == ChannelEventOf(StatusOf(e), bs[1], if |bs| == 3 then bs[2] else 0)
  {
  }

  lemma ChannelMessageAt(bs: seq<uint8>, pos: nat, e: Event, running: Option<StatusByte>)
    requires IsChannelEvent(e) && Encodable(e)
    requires var m := EncodeMessage(e); pos + |m| <= |bs| && bs[pos..pos + |m|] == m
    ensures DecodeMessage(bs, pos, running) == Success(Message(e, pos + |EncodeMessage(e)|, Some(StatusOf(e))))
  {
    var m := EncodeMessage(e);
    ChannelMessageOfEncoding(e);
    assert bs[pos] == m[0] && bs[pos + 1] == m[1];
    if |m| == 3 {
      assert bs[pos + 2] == m[2];
    }
  }

  lemma MetaAt(bs: seq<uint8>, pos: nat, kind: uint8, data: seq<uint8>, running: Option<StatusByte>)
    requires var m := EncodeMessage(Meta(kind, data)); pos + |m| <= |bs| && bs[pos..pos + |m|] == m
    ensures DecodeMessage(bs, pos, running) ==
      Success(Message(Meta(kind, data), pos + |EncodeMessage(Meta(kind, data))|, running))
  {
    var m := EncodeMessage(Meta(kind, data));
    SliceSplit(bs, pos, [0xFF, kind], EncodeVarint(|data|) + data);
    assert bs[pos] == 0xFF && bs[pos + 1] == kind;
    PayloadAt(bs, pos + 2, data);
  }

  lemma SysexAt(bs: seq<uint8>, pos: nat, data: seq<uint8>, running: Option<StatusByte>)
    requires var m := EncodeMessage(Sysex(data)); pos + |m| <= |bs| && bs[pos..pos + |m|] == m
    ensures DecodeMessage(bs, pos, running) ==
      Success(Message(Sysex(data), pos + |EncodeMessage(Sysex(data))|, running))
  {
    SliceSplit(bs, pos, [0xF0], EncodeVarint(|data|) + data);
    assert bs[pos] == 0xF0;
    PayloadAt(bs, pos + 1, data);
  }

  /** The running status after an event: channel messages set it, meta and
      sysex events leave it. */
  function RunningAfter(e: Event, running: Option<StatusByte>): Option<StatusByte>
  {
    if IsChannelEvent(e) then Some(StatusOf(e)) else running
  }

  /** An encoded message is decoded back wherever it sits in the payload; a
      channel message becomes the running status. */
  lemma MessageAt(bs: seq<uint8>, pos: nat, e: Event, running: Option<StatusByte>)
    requires Encodable(e)
    requires var m := EncodeMessage(e); pos + |m| <= |bs| && bs[pos..pos + |m|] == m
    ensures DecodeMessage(bs, pos, running) ==
      Success(Message(e, pos + |EncodeMessage(e)|, RunningAfter(e, running)))
  {
    match e
    case Meta(kind, data) => MetaAt(bs, pos, kind, data, running);
    case Sysex(data) => SysexAt(bs, pos, data, running);
    case _ => ChannelMessageAt(bs, pos, e, running);
  }

  /** An encoded timed event is decoded back wherever it sits in the payload. */
  lemma EventAt(bs: seq<uint8>, pos: nat, x: TimedEvent, running: Option<StatusByte>)
    requires Encodable(x.event)
    requires var c := EncodeEvent(x); pos + |c| <= |bs| && bs[pos..pos + |c|] == c
    ensures DecodeEvent(bs, pos, running) ==
      Success(Decoded(x, pos + |EncodeEvent(x)|, RunningAfter(x.event, running)))
  {
    var v, m := EncodeVarint(x.dt), EncodeMessage(x.event);
    SliceSplit(bs, pos, v, m);
    VarintAt(bs, pos, x.dt);
    MessageAt(bs, pos + |v|, x.event, running);
    DecodeEventOf(bs, pos, running, x.dt, pos + |v|, Message(x.event, pos + |v| + |m|, RunningAfter(x.event, running)));
  }

  /** Decoding the encoding of a single event, whatever surrounds it. */
  lemma EventRoundTrip(before: seq<uint8>, x: TimedEvent, after: seq<uint8>, running: Option<StatusByte>)
    requires Encodable(x.event)
    ensures var bs := before + EncodeEvent(x) + after;
      DecodeEvent(bs, |before|, running) ==
        Success(Decoded(x, |before| + |EncodeEvent(x)|, RunningAfter(x.event, running)))
  {
    var bs := before + EncodeEvent(x) + after;
    assert bs[|before|..|before| + |EncodeEvent(x)|] == EncodeEvent(x);
    EventAt(bs, |before|, x, running);
  }

  /** Decoding from pos, where the encodings of es are laid out up to the end
      of the payload. */
  lemma {:induction false} DecodeFromEncoding(bs: seq<uint8>, pos: nat, es: seq<TimedEvent>, running: Option<StatusByte>)
    requires AllEncodable(es) && EndOfTrackLast(es)
    requires pos <= |bs| && bs[pos..] == EncodeTrack(es)
    ensures DecodesTo(bs, pos, running, es)
    decreases |es|, 1
  {
    if es != [] {
      var x := es[0];
      if IsEndOfTrack(x.event) {
        EncodedLast(bs, pos, running, x, EncodeEvent(x), EncodeTrack(es[1..]));
        assert es == [x];
      } else {
        DecodeFromEncodingStep(bs, pos, es, running);
      }
    }
  }

  /** The induction step: an event other than end-of-track, then the rest. */
  lemma {:induction false} DecodeFromEncodingStep(bs: seq<uint8>, pos: nat, es: seq<TimedEvent>, running: Option<StatusByte>)
    requires es != [] && AllEncodable(es) && EndOfTrackLast(es) && !IsEndOfTrack(es[0].event)
    requires pos <= |bs| && bs[pos..] == EncodeTrack(es)
    ensures DecodesTo(bs, pos, running, es)
    decreases |es|, 0
  {
    var x, tail := es[0], es[1..];
    var c, rest := EncodeEvent(x), EncodeTrack(tail);
    var next, after := pos + |c|, RunningAfter(x.event, running);
    SliceHead(bs, pos, c, rest);
    TailEncoded(es);
    DecodeFromEncoding(bs, next, tail, after);
    EncodedCons(bs, pos, running, x, c, rest, tail, next, after);
    HeadTail(es);
  }

  /** A non-empty list is its first element followed by the rest. */
  lemma HeadTail<T>(es: seq<T>)
    requires es != []
    ensures [es[0]] + es[1..] == es
  {
  }

  /** What remains after the first event is still a list of encodable events
      with end-of-track last. */
  lemma TailEncoded(es: seq<TimedEvent>)
    requires es != [] && AllEncodable(es) && EndOfTrackLast(es)
    ensures AllEncodable(es[1..]) && EndOfTrackLast(es[1..])
  {
    assert forall i :: 0 <= i < |es| - 1 ==> es[1..][i] == es[i + 1];
  }

  /** An encoded end-of-track event ends decoding, whatever follows it. */
  lemma EncodedLastAt(bs: seq<uint8>, pos: nat, running: Option<StatusByte>, x: TimedEvent, c: seq<uint8>)
    requires Encodable(x.event) && IsEndOfTrack(x.event) && c == EncodeEvent(x)
    requires pos + |c| <= |bs| && bs[pos..pos + |c|] == c
    ensures DecodeFrom(bs, pos, running) == Trace([x], None)
  {
    EventAt(bs, pos, x, running);
    DecodeFromLast(bs, pos, running, Decoded(x, pos + |c|, RunningAfter(x.event, running)));
  }

  /** An encoded event followed by a clean decode of what comes after it is a
      clean decode of both. */
  lemma EncodedConsAt(bs: seq<uint8>, pos: nat, running: Option<StatusByte>, x: TimedEvent, c: seq<uint8>,
                      tail: seq<TimedEvent>, next: nat, after: Option<StatusByte>)
    requires Encodable(x.event) && !IsEndOfTrack(x.event) && c == EncodeEvent(x)
    requires pos + |c| <= |bs| && bs[pos..pos + |c|] == c
    requires next == pos + |c| && after == RunningAfter(x.event, running)
    requires DecodesTo(bs, next, after, tail)
    ensures DecodesTo(bs, pos, running, [x] + tail)
  {
    EventAt(bs, pos, x, running);
    DecodeFromNext(bs, pos, running, Decoded(x, next, after));
  }

  /** EncodedLastAt and EncodedConsAt, stated for an event followed by the rest
      of the payload, as the induction over a track lays it out. The slice is
      split here, apart from the decoding facts, to keep each proof small. */
  lemma EncodedLast(bs: seq<uint8>, pos: nat, running: Option<StatusByte>, x: TimedEvent, c: seq<uint8>,
                    rest: seq<uint8>)
    requires Encodable(x.event) && IsEndOfTrack(x.event) && c == EncodeEvent(x)
    requires pos <= |bs| && bs[pos..] == c + rest
    ensures DecodesTo(bs, pos, running, [x])
  {
    SliceHead(bs, pos, c, rest);
    EncodedLastAt(bs, pos, running, x, c);
  }

  lemma EncodedCons(bs: seq<uint8>, pos: nat, running: Option<StatusByte>, x: TimedEvent, c: seq<uint8>,
                    rest: seq<uint8>, tail: seq<TimedEvent>, next: nat, after: Option<StatusByte>)
    requires Encodable(x.event) && !IsEndOfTrack(x.event) && c == EncodeEvent(x)
    requires pos <= |bs| && bs[pos..] == c + rest
    requires next == pos + |c| && after == RunningAfter(x.event, running)
    requires DecodesTo(bs, next, after, tail)
    ensures DecodesTo(bs, pos, running, [x] + tail)
  {
    SliceHead(bs, pos, c, rest);
    EncodedConsAt(bs, pos, running, x, c, tail, next, after);
  }

  /** Decoding the encoding of a track gives back its events, with no error,
      provided the end-of-track event, if any, comes last. */
  lemma TrackRoundTrip(es: seq<TimedEvent>)
    requires AllEncodable(es) && EndOfTrackLast(es)
    ensures Decode(EncodeTrack(es)) == Trace(es, None)
  {
    var bs := EncodeTrack(es);
    assert bs[0..] == bs;
    DecodeFromEncoding(bs, 0, es, None);
  }
}
