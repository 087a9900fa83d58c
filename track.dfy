/** The drivers: the track reader, which decodes one MTrk payload and hands
    every event to a note collector as it is read, and the note reader, which
    runs every track through a note collector of its own and gathers the notes
    of all tracks behind one note callback. */
module Track {
  import opened Primitives
  import opened Notes
  import opened Events
  import opened CollectorSpec
  import opened BankSpec
  import opened Collectors
  import opened Reader
  import opened Decoder

  /** Reads the track payload event by event, delivering each to the collector
      before the next is read, and stops after the end-of-track event, at the
      end of the payload or at the first error. The collector ends up having
      received exactly the decoded events, and the error returned is the one
      decoding ends in. */
  method ReadMtrk(bs: seq<uint8>, collector: NoteCollector) returns (error: Option<DecodeError>)
    requires collector.Valid()
    modifies collector.multicaster.Repr, collector.receiver
    ensures collector.Valid()
    ensures error == Decode(bs).error
    ensures collector.States() == RunBank(old(collector.States()), Decode(bs).events).states
    ensures collector.receiver.notes ==
      old(collector.receiver.notes) + RunBank(old(collector.States()), Decode(bs).events).emitted
  {
    ghost var start := collector.States();
    ghost var notes0 := collector.receiver.notes;
    ghost var done: seq<TimedEvent> := [];
    var pos := 0;
    var running: Option<StatusByte> := None;
    while pos < |bs|
      invariant pos <= |bs|
      invariant collector.Valid()
      invariant Decode(bs) == After(done, DecodeFrom(bs, pos, running))
      invariant collector.States() == RunBank(start, done).states
      invariant collector.receiver.notes == notes0 + RunBank(start, done).emitted
      decreases |bs| - pos
    {
      var delta := ReadVariableLengthInteger(bs, pos);
      DecodeEventOfParts(bs, pos, running);
      if delta.Failure? {
        AfterFailure(done, bs, pos, running);
        return Some(delta.error);
      }
      var message := DecodeMessage(bs, delta.value.1, running);
      if message.Failure? {
        AfterFailure(done, bs, pos, running);
        return Some(message.error);
      }
      var x := TimedEvent(delta.value.0, message.value.event);
      AfterEvent(done, bs, pos, running);
      DeliverNext(start, done, x, notes0);
      collector.Receive(x.dt, x.event);
      done := done + [x];
      if IsEndOfTrack(x.event) {
        return None;
      }
      pos, running := message.value.next, message.value.running;
    }
    assert done + [] == done;
    return None;
  }

  /** The trace of a whole track once the events in done have been read and
      decoding goes on as t. */
  function After(done: seq<TimedEvent>, t: Trace): Trace
  {
    Trace(done + t.events, t.error)
  }

  /** Where the next event cannot be read, decoding ends with what was read. */
  lemma AfterFailure(done: seq<TimedEvent>, bs: seq<uint8>, pos: nat, running: Option<StatusByte>)
    requires pos < |bs| && DecodeEvent(bs, pos, running).Failure?
    ensures After(done, DecodeFrom(bs, pos, running)) == Trace(done, Some(DecodeEvent(bs, pos, running).error))
  {
    assert done + [] == done;
  }

  /** Reading one more event moves it from the rest of the track to done. */
  lemma AfterEvent(done: seq<TimedEvent>, bs: seq<uint8>, pos: nat, running: Option<StatusByte>)
    requires pos < |bs| && DecodeEvent(bs, pos, running).Success?
    ensures var d := DecodeEvent(bs, pos, running).value;
      After(done, DecodeFrom(bs, pos, running)) ==
        if IsEndOfTrack(d.event.event) then Trace(done + [d.event], None)
        else After(done + [d.event], DecodeFrom(bs, d.next, d.running))
  {
    DecodeFromStep(bs, pos, running);
    var d := DecodeEvent(bs, pos, running).value;
    AppendAssoc(done, [d.event], DecodeFrom(bs, d.next, d.running).events);
  }

  /** Delivering one more event to the collector extends the run by it. */
  lemma DeliverNext(start: seq<CollectorState>, done: seq<TimedEvent>, x: TimedEvent, notes0: seq<Note>)
    requires AllWellFormed(start)
    ensures var o := RunBank(start, done);
      var p := Broadcast(o.states, x.dt, x.event);
      && RunBank(start, done + [x]).states == p.states
      && notes0 + RunBank(start, done + [x]).emitted == notes0 + o.emitted + p.emitted
  {
    RunBankSnoc(start, done, x);
    var o := RunBank(start, done);
    AppendAssoc(notes0, o.emitted, Broadcast(o.states, x.dt, x.event).emitted);
  }

  /** The notes a fresh note collector emits for one track. */
  function TrackNotes(bs: seq<uint8>): (ns: seq<Note>)
  {
    RunBank(InitialBank(), Decode(bs).events).emitted
  }

  /** Within a track, notes come out in the order they were closed, and none
      ends after the last event of the track. */
  lemma TrackNotesInCloseOrder(bs: seq<uint8>)
    ensures CloseOrdered(TrackNotes(bs))
    ensures forall i :: 0 <= i < |TrackNotes(bs)| ==> TrackNotes(bs)[i].End() <= TotalDelta(Decode(bs).events)
  {
    BankEmitsInCloseOrder(InitialBank(), 0, Decode(bs).events);
  }

  /** The notes gathered from a list of tracks and the error that stopped the
      reading, if any. */
  datatype Collected = Collected(notes: seq<Note>, error: Option<DecodeError>)

  /** Tracks are read in order, each into a fresh note collector; the notes of
      every track read are kept, and reading stops after the first track whose
      decoding fails. */
  function NotesOf(tracks: seq<seq<uint8>>): (c: Collected)
    decreases |tracks|
  {
    if tracks == [] then Collected([], None)
    else
      var c := NotesOf(tracks[..|tracks| - 1]);
      if c.error.Some? then c
      else
        var bs := tracks[|tracks| - 1];
        Collected(c.notes + TrackNotes(bs), Decode(bs).error)
  }

  /** One more track: its notes are appended unless reading has already
      stopped. */
  lemma NotesOfSnoc(tracks: seq<seq<uint8>>, bs: seq<uint8>)
    ensures var c := NotesOf(tracks);
      NotesOf(tracks + [bs]) ==
        if c.error.Some? then c else Collected(c.notes + TrackNotes(bs), Decode(bs).error)
  {
    assert (tracks + [bs])[..|tracks|] == tracks;
  }

  /** The first failing track decides the error: tracks after it add nothing. */
  lemma {:induction false} ErrorIsFinal(tracks: seq<seq<uint8>>, more: seq<seq<uint8>>)
    requires NotesOf(tracks).error.Some?
    ensures NotesOf(tracks + more) == NotesOf(tracks)
    decreases |more|
  {
    if more == [] {
      assert tracks + more == tracks;
    } else {
      var init, bs := more[..|more| - 1], more[|more| - 1];
      ErrorIsFinal(tracks, init);
      assert tracks + more == tracks + init + [bs];
      NotesOfSnoc(tracks + init, bs);
    }
  }

  /** Reading stops with no error exactly when every track decodes without one. */
  lemma {:induction false} NoErrorIffAllTracksDecode(tracks: seq<seq<uint8>>)
    ensures NotesOf(tracks).error.None? <==> forall i :: 0 <= i < |tracks| ==> Decode(tracks[i]).error.None?
    decreases |tracks|
  {
    if tracks != [] {
      var init, bs := tracks[..|tracks| - 1], tracks[|tracks| - 1];
      NoErrorIffAllTracksDecode(init);
      assert tracks == init + [bs];
      NotesOfSnoc(init, bs);
    }
  }

  /** Tracks are independent: after a run of tracks that all decode, the notes
      of the remaining tracks are appended exactly as if they were read alone. */
  lemma {:induction false} TracksAreIndependent(first: seq<seq<uint8>>, rest: seq<seq<uint8>>)
    requires NotesOf(first).error.None?
    ensures NotesOf(first + rest) == Collected(NotesOf(first).notes + NotesOf(rest).notes, NotesOf(rest).error)
    decreases |rest|
  {
    if rest == [] {
      assert first + rest == first;
      assert NotesOf(first).notes + [] == NotesOf(first).notes;
    } else {
      var init, bs := rest[..|rest| - 1], rest[|rest| - 1];
      TracksAreIndependent(first, init);
      assert rest == init + [bs];
      assert first + rest == first + init + [bs];
      NotesOfSnoc(first + init, bs);
      NotesOfSnoc(init, bs);
      var a, b := NotesOf(first).notes, NotesOf(init).notes;
      AppendAssoc(a, b, TrackNotes(bs));
    }
  }

  /** The tracks up to i + 1 are those up to i and then track i. */
  lemma NotesOfPrefix(tracks: seq<seq<uint8>>, i: nat)
    requires i < |tracks|
    ensures var c := NotesOf(tracks[..i]);
      NotesOf(tracks[..i + 1]) ==
        if c.error.Some? then c else Collected(c.notes + TrackNotes(tracks[i]), Decode(tracks[i]).error)
  {
    assert tracks[..i + 1] == tracks[..i] + [tracks[i]];
    NotesOfSnoc(tracks[..i], tracks[i]);
  }

  /** Once every track is read, or one has failed, the tracks read so far
      decide the result. */
  lemma NotesOfStopped(tracks: seq<seq<uint8>>, i: nat)
    requires i <= |tracks|
    requires i == |tracks| || NotesOf(tracks[..i]).error.Some?
    ensures NotesOf(tracks) == NotesOf(tracks[..i])
  {
    if i < |tracks| {
      ErrorIsFinal(tracks[..i], tracks[i..]);
      assert tracks[..i] + tracks[i..] == tracks;
    } else {
      assert tracks[..i] == tracks;
    }
  }

  /** Runs one track through a fresh note collector that feeds sink. */
  method CollectTrack(bs: seq<uint8>, sink: NoteSink) returns (error: Option<DecodeError>)
    modifies sink
    ensures sink.notes == old(sink.notes) + TrackNotes(bs)
    ensures error == Decode(bs).error
  {
    var collector := new NoteCollector(sink);
    error := ReadMtrk(bs, collector);
  }

  /** Reads every track with a note collector of its own, all collectors
      feeding one note callback, and stops after the first track that fails. */
  method ReadNotes(tracks: seq<seq<uint8>>) returns (notes: seq<Note>, error: Option<DecodeError>)
    ensures Collected(notes, error) == NotesOf(tracks)
  {
    var sink := new NoteSink();
    error := None;
    var i := 0;
    while i < |tracks| && error.None?
      invariant 0 <= i <= |tracks|
      invariant NotesOf(tracks[..i]) == Collected(sink.notes, error)
      decreases |tracks| - i
    {
      error := CollectTrack(tracks[i], sink);
      NotesOfPrefix(tracks, i);
      i := i + 1;
    }
    NotesOfStopped(tracks, i);
    notes := sink.notes;
  }
}
