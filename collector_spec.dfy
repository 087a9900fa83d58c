/** The state of one channel note collector as a value, and the transition each
    event causes. The collector class implements exactly these transitions. */
module CollectorSpec {
  import opened Primitives
  import opened Notes
  import opened Events

  /** Number of entries in the start-time and velocity tables. */
  const TableSize := 128

  /** Velocity-table value meaning "no note open for this pitch". */
  const Sentinel: uint16 := 128

  datatype CollectorState = CollectorState(
    channel: Channel,
    instrument: Instrument,
    time: Time,
    starts: seq<Time>,
    velocities: seq<uint16>)

  /** What one event does: the new state and the notes handed to the note sink. */
  datatype Outcome = Outcome(state: CollectorState, emitted: seq<Note>)

  /** Both tables have 128 entries, every stored velocity fits a byte, and an
      open note never started after the current time. */
  predicate WellFormed(s: CollectorState)
  {
    && |s.starts| == TableSize
    && |s.velocities| == TableSize
    && forall n :: 0 <= n < TableSize ==>
         s.velocities[n] <= 0xFF && (s.velocities[n] != Sentinel ==> s.starts[n] <= s.time)
  }

  predicate IsOpen(s: CollectorState, n: NoteNumber)
    requires |s.velocities| == TableSize
  {
    s.velocities[n] != Sentinel
  }

  /** A freshly constructed collector: program 0, time 0, no note open. */
  function Initial(ch: Channel): (s: CollectorState)
    ensures WellFormed(s)
    ensures s.channel == ch && s.instrument == 0 && s.time == 0
    ensures forall n: NoteNumber :: !IsOpen(s, n)
  {
    CollectorState(ch, 0, 0, seq(TableSize, _ => 0), seq(TableSize, _ => Sentinel))
  }

  /** Closes the note open for pitch n, if any, at the current time. */
  function Close(s: CollectorState, n: NoteNumber): (o: Outcome)
    requires WellFormed(s)
    ensures WellFormed(o.state) && !IsOpen(o.state, n)
    ensures o.state.channel == s.channel && o.state.time == s.time
    ensures o.state.instrument == s.instrument && o.state.starts == s.starts
    ensures forall m: NoteNumber :: m != n ==> o.state.velocities[m] == s.velocities[m]
    ensures IsOpen(s, n) ==> o.emitted == [Note(n, s.starts[n], s.time - s.starts[n], s.velocities[n], s.instrument)]
    ensures !IsOpen(s, n) ==> o == Outcome(s, [])
  {
    if IsOpen(s, n) then
      var note := Note(n, s.starts[n], s.time - s.starts[n], s.velocities[n], s.instrument);
      Outcome(s.(velocities := s.velocities[n := Sentinel]), [note])
    else
      Outcome(s, [])
  }

  /** Opens pitch n at the current time with velocity v. */
  function Open(s: CollectorState, n: NoteNumber, v: uint8): (r: CollectorState)
    requires WellFormed(s)
    ensures WellFormed(r)
    ensures r.channel == s.channel && r.time == s.time && r.instrument == s.instrument
    ensures r.starts[n] == s.time && r.velocities[n] == v
    ensures v != Sentinel ==> IsOpen(r, n)
    ensures forall m: NoteNumber :: m != n ==> r.starts[m] == s.starts[m] && r.velocities[m] == s.velocities[m]
  {
    s.(starts := s.starts[n := s.time], velocities := s.velocities[n := v])
  }

  /** The transition for one event received dt ticks after the previous one.
      Time always advances by dt; only events addressed to the collector's own
      channel touch the tables or the instrument. */
  function Step(s: CollectorState, dt: Duration, e: Event): (o: Outcome)
    requires WellFormed(s)
    ensures WellFormed(o.state)
    ensures o.state.channel == s.channel && o.state.time == s.time + dt
  {
    var t := s.(time := s.time + dt);
    if !AddressedTo(e, s.channel) then Outcome(t, [])
    else
      match e
      case NoteOn(_, n, v) =>
        var c := Close(t, n);
        if v == 0 then c else Outcome(Open(c.state, n, v), c.emitted)
      case NoteOff(_, n, _) => Close(t, n)
      case ProgramChange(_, p) => Outcome(t.(instrument := p), [])
      case _ => Outcome(t, [])
  }

  /** What any single event does: at most one note comes out, ending now and
      carrying the instrument in force before the event; only a program change
      alters the instrument; an event for another channel, or a meta or sysex
      event, only advances the clock. */
  lemma StepEffects(s: CollectorState, dt: Duration, e: Event)
    requires WellFormed(s)
    ensures var o := Step(s, dt, e);
      && |o.emitted| <= 1
      && (forall m :: m in o.emitted ==> m.End() == o.state.time && m.instrument == s.instrument)
      && (!e.ProgramChange? ==> o.state.instrument == s.instrument)
      && (!AddressedTo(e, s.channel) ==> o == Outcome(s.(time := s.time + dt), []))
  {
  }

  /** The effect of a run of events, in order, on one collector. */
  function Run(s: CollectorState, es: seq<TimedEvent>): (r: Outcome)
    requires WellFormed(s)
    ensures WellFormed(r.state)
    ensures r.state.channel == s.channel && r.state.time == s.time + TotalDelta(es)
    decreases |es|
  {
    if es == [] then Outcome(s, [])
    else
      var o := Run(s, es[..|es| - 1]);
      var p := Step(o.state, es[|es| - 1].dt, es[|es| - 1].event);
      Outcome(p.state, o.emitted + p.emitted)
  }

  /** Every note a run emits was closed during the run, and the notes come out
      in the order in which they were closed. */
  lemma {:induction false} RunEmitsInCloseOrder(s: CollectorState, es: seq<TimedEvent>)
    requires WellFormed(s)
    ensures var r := Run(s, es);
      && (forall i :: 0 <= i < |r.emitted| ==> s.time <= r.emitted[i].End() <= r.state.time)
      && CloseOrdered(r.emitted)
    decreases |es|
  {
    if es != [] {
      var o := Run(s, es[..|es| - 1]);
      RunEmitsInCloseOrder(s, es[..|es| - 1]);
      StepEffects(o.state, es[|es| - 1].dt, es[|es| - 1].event);
    }
  }

  // ---------------------------------------------------------------------------
  // The pairing rules, stated for every state

  /** A note-on with velocity 0 has exactly the effect of a note-off. */
  lemma ZeroVelocityIsNoteOff(s: CollectorState, dt: Duration, c: Channel, n: NoteNumber, v: uint8)
    requires WellFormed(s)
    ensures Step(s, dt, NoteOn(c, n, 0)) == Step(s, dt, NoteOff(c, n, v))
  {
  }

  /** A note-off for a pitch with no open note emits nothing and only advances time. */
  lemma UnmatchedNoteOffIgnored(s: CollectorState, dt: Duration, n: NoteNumber, v: uint8)
    requires WellFormed(s) && !IsOpen(s, n)
    ensures Step(s, dt, NoteOff(s.channel, n, v)) == Outcome(s.(time := s.time + dt), [])
  {
    assert s.(time := s.time + dt).velocities[n] == Sentinel;
  }

  /** One more event at the end of a run: the unfolding of Run, for callers
      that process events left to right. */
  lemma RunSnoc(s: CollectorState, es: seq<TimedEvent>, x: TimedEvent)
    requires WellFormed(s)
    ensures var o := Run(s, es);
      var p := Step(o.state, x.dt, x.event);
      Run(s, es + [x]) == Outcome(p.state, o.emitted + p.emitted)
  {
    assert (es + [x])[..|es|] == es;
  }

  /** A run of one event is that event's step. */
  lemma RunOne(s: CollectorState, x: TimedEvent)
    requires WellFormed(s)
    ensures Run(s, [x]) == Step(s, x.dt, x.event)
  {
    assert [x][..0] == [];
    assert [] + Step(s, x.dt, x.event).emitted == Step(s, x.dt, x.event).emitted;
  }

  /** Two events in a row: the run is the two steps one after the other. */
  lemma RunPair(s: CollectorState, x: TimedEvent, y: TimedEvent)
    requires WellFormed(s)
    ensures var a := Step(s, x.dt, x.event);
      var b := Step(a.state, y.dt, y.event);
      Run(s, [x, y]) == Outcome(b.state, a.emitted + b.emitted)
  {
    RunOne(s, x);
    RunSnoc(s, [x], y);
    assert [x] + [y] == [x, y];
  }

  /** A note-on with a 7-bit non-zero velocity for a closed pitch emits
      nothing and opens the pitch with that velocity, started now: the
      sentinel 128 is never mistaken for such a velocity. */
  lemma NoteOnOpens(s: CollectorState, dt: Duration, n: NoteNumber, v: uint8)
    requires WellFormed(s) && !IsOpen(s, n) && 0 < v < 0x80
    ensures var o := Step(s, dt, NoteOn(s.channel, n, v));
      && o.emitted == []
      && IsOpen(o.state, n)
      && o.state == s.(time := s.time + dt, starts := s.starts[n := s.time + dt], velocities := s.velocities[n := v as uint16])
  {
    var t := s.(time := s.time + dt);
    assert !IsOpen(t, n);
  }

  /** A note-off for an open pitch emits the note, from its start to now, with
      the velocity it was opened with, and closes the pitch. */
  lemma NoteOffCloses(s: CollectorState, dt: Duration, n: NoteNumber, v: uint8)
    requires WellFormed(s) && IsOpen(s, n)
    ensures var o := Step(s, dt, NoteOff(s.channel, n, v));
      && o.emitted == [Note(n, s.starts[n], s.time + dt - s.starts[n], s.velocities[n], s.instrument)]
      && !IsOpen(o.state, n)
      && o.state == s.(time := s.time + dt, velocities := s.velocities[n := Sentinel])
  {
    var t := s.(time := s.time + dt);
    assert IsOpen(t, n);
  }

  /** Retriggering: a note-on for an open pitch first emits the open note,
      ended now, then opens the pitch again with the new velocity. */
  lemma NoteOnRetriggers(s: CollectorState, dt: Duration, n: NoteNumber, v: uint8)
    requires WellFormed(s) && IsOpen(s, n) && 0 < v < 0x80
    ensures var o := Step(s, dt, NoteOn(s.channel, n, v));
      && o.emitted == [Note(n, s.starts[n], s.time + dt - s.starts[n], s.velocities[n], s.instrument)]
      && IsOpen(o.state, n)
      && o.state == s.(time := s.time + dt, starts := s.starts[n := s.time + dt], velocities := s.velocities[n := v as uint16])
  {
    var t := s.(time := s.time + dt);
    assert IsOpen(t, n);
  }

  /** A program change on the collector's channel makes its program the
      instrument of the notes opened and closed from then on, and emits nothing. */
  lemma ProgramChangeSetsInstrument(s: CollectorState, dt: Duration, p: Instrument)
    requires WellFormed(s)
    ensures Step(s, dt, ProgramChange(s.channel, p)) == Outcome(s.(time := s.time + dt, instrument := p), [])
  {
  }

  /** Key pressure, control change, channel pressure and pitch wheel, even on
      the collector's own channel, only advance the clock. */
  lemma OtherChannelMessagesOnlyAdvanceTime(s: CollectorState, dt: Duration, e: Event)
    requires WellFormed(s)
    requires e.PolyphonicKeyPressure? || e.ControlChange? || e.ChannelPressure? || e.PitchWheelChange?
    ensures Step(s, dt, e) == Outcome(s.(time := s.time + dt), [])
  {
  }

  /** Note-on then note-off on a closed pitch, step by step. */
  lemma OpenThenClose(s: CollectorState, dt1: Duration, dt2: Duration, n: NoteNumber, v: uint8, offVelocity: uint8)
    requires WellFormed(s) && !IsOpen(s, n) && 0 < v < 0x80
    ensures var a := Step(s, dt1, NoteOn(s.channel, n, v));
      var b := Step(a.state, dt2, NoteOff(s.channel, n, offVelocity));
      a.emitted == [] && b.emitted == [Note(n, s.time + dt1, dt2, v, s.instrument)] && !IsOpen(b.state, n)
  {
    NoteOnOpens(s, dt1, n, v);
    var a := Step(s, dt1, NoteOn(s.channel, n, v));
    NoteOffCloses(a.state, dt2, n, offVelocity);
    assert a.state.time + dt2 - a.state.starts[n] == dt2;
  }

  /** Note-on after dt1 ticks, then note-off after dt2 more ticks, on a closed
      pitch: exactly one note, started at the note-on and lasting dt2 ticks. */
  lemma NotePairing(s: CollectorState, dt1: Duration, dt2: Duration, n: NoteNumber, v: uint8, offVelocity: uint8)
    requires WellFormed(s) && !IsOpen(s, n) && 0 < v < 0x80
    ensures var r := Run(s, [TimedEvent(dt1, NoteOn(s.channel, n, v)), TimedEvent(dt2, NoteOff(s.channel, n, offVelocity))]);
      r.emitted == [Note(n, s.time + dt1, dt2, v, s.instrument)] && !IsOpen(r.state, n)
  {
    OpenThenClose(s, dt1, dt2, n, v, offVelocity);
    RunPair(s, TimedEvent(dt1, NoteOn(s.channel, n, v)), TimedEvent(dt2, NoteOff(s.channel, n, offVelocity)));
  }

  /** Note-on then note-off on a pitch that is already sounding, step by step. */
  lemma RetriggerThenClose(s: CollectorState, dt1: Duration, dt2: Duration, n: NoteNumber, v: uint8, offVelocity: uint8)
    requires WellFormed(s) && IsOpen(s, n) && 0 < v < 0x80
    ensures var a := Step(s, dt1, NoteOn(s.channel, n, v));
      var b := Step(a.state, dt2, NoteOff(s.channel, n, offVelocity));
      && a.emitted == [Note(n, s.starts[n], s.time + dt1 - s.starts[n], s.velocities[n], s.instrument)]
      && b.emitted == [Note(n, s.time + dt1, dt2, v, s.instrument)] && !IsOpen(b.state, n)
  {
    NoteOnRetriggers(s, dt1, n, v);
    var a := Step(s, dt1, NoteOn(s.channel, n, v));
    NoteOffCloses(a.state, dt2, n, offVelocity);
    assert a.state.time + dt2 - a.state.starts[n] == dt2;
  }

  /** A second note-on for a pitch that is already sounding closes the first
      note at that moment, and the note-off that follows closes the second
      one: two notes, in that order. */
  lemma Retrigger(s: CollectorState, dt1: Duration, dt2: Duration, n: NoteNumber, v: uint8, offVelocity: uint8)
    requires WellFormed(s) && IsOpen(s, n) && 0 < v < 0x80
    ensures var r := Run(s, [TimedEvent(dt1, NoteOn(s.channel, n, v)), TimedEvent(dt2, NoteOff(s.channel, n, offVelocity))]);
      r.emitted == [Note(n, s.starts[n], s.time + dt1 - s.starts[n], s.velocities[n], s.instrument), Note(n, s.time + dt1, dt2, v, s.instrument)]
      && !IsOpen(r.state, n)
  {
    RetriggerThenClose(s, dt1, dt2, n, v, offVelocity);
    RunPair(s, TimedEvent(dt1, NoteOn(s.channel, n, v)), TimedEvent(dt2, NoteOff(s.channel, n, offVelocity)));
  }

  // ---------------------------------------------------------------------------
  // No leakage between channels

  /** A run of events none of which is addressed to the collector's channel
      leaves everything but the time untouched and emits nothing. */
  lemma {:induction false} ForeignEventsIgnored(s: CollectorState, es: seq<TimedEvent>)
    requires WellFormed(s)
    requires forall i :: 0 <= i < |es| ==> !AddressedTo(es[i].event, s.channel)
    ensures Run(s, es) == Outcome(s.(time := s.time + TotalDelta(es)), [])
    decreases |es|
  {
    if es != [] {
      ForeignEventsIgnored(s, es[..|es| - 1]);
    }
  }

  /** Two runs that agree on timing and on every event addressed to the
      collector's channel have the same effect on it: a collector cannot
      observe what happens on other channels. */
  lemma {:induction false} ChannelIsolation(s: CollectorState, es1: seq<TimedEvent>, es2: seq<TimedEvent>)
    requires WellFormed(s)
    requires |es1| == |es2|
    requires forall i :: 0 <= i < |es1| ==> es1[i].dt == es2[i].dt
    requires forall i :: 0 <= i < |es1| && (AddressedTo(es1[i].event, s.channel) || AddressedTo(es2[i].event, s.channel)) ==> es1[i] == es2[i]
    ensures Run(s, es1) == Run(s, es2)
    decreases |es1|
  {
    if es1 != [] {
      var k := |es1| - 1;
      ChannelIsolation(s, es1[..k], es2[..k]);
    }
  }
}
