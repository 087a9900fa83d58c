/** The receivers that turn events into notes: the per-channel collector with
    its two 128-entry tables, the multicaster that forwards each event to a
    list of collectors, and the note collector that owns one collector per
    channel. Each method is proved to perform the transition its value-level
    specification describes. */
module Collectors {
  import opened Primitives
  import opened Notes
  import opened Events
  import opened CollectorSpec
  import opened BankSpec

  /** The note callback: every note handed to it is appended to `notes`. */
  class NoteSink {
    var notes: seq<Note>

    constructor()
      ensures notes == []
    {
      notes := [];
    }

    method Accept(note: Note)
      modifies this
      ensures notes == old(notes) + [note]
    {
      notes := notes + [note];
    }
  }

  class ChannelNoteCollector {
    const channel: Channel
    const sink: NoteSink
    var instrument: Instrument
    var time: Time
    /** Start time of the open note, per pitch. */
    const timeArray: array<Time>
    /** Velocity of the open note, per pitch; 128 when none is open. */
    const snelheden: array<uint16>

    ghost function State(): CollectorState
      reads this, timeArray, snelheden
    {
      CollectorState(channel, instrument, time, timeArray[..], snelheden[..])
    }

    ghost predicate Valid()
      reads this, timeArray, snelheden
    {
      WellFormed(State())
    }

    /** Program 0, time 0, and every velocity entry set to the sentinel. */
    constructor(ch: Channel, sink: NoteSink)
      ensures Valid() && State() == Initial(ch)
      ensures this.sink == sink
      ensures fresh(timeArray) && fresh(snelheden)
    {
      channel := ch;
      this.sink := sink;
      instrument := 0;
      time := 0;
      var starts := new Time[TableSize];
      var velocities := new uint16[TableSize];
      for i := 0 to TableSize
        invariant forall j :: 0 <= j < i ==> starts[j] == 0 && velocities[j] == Sentinel
      {
        starts[i] := 0;
        velocities[i] := Sentinel;
      }
      timeArray := starts;
      snelheden := velocities;
      new;
      assert timeArray[..] == Initial(ch).starts;
      assert snelheden[..] == Initial(ch).velocities;
    }

    /** Hands the note open for pitch n, if any, to the sink and frees the slot. */
    method CloseNote(n: NoteNumber)
      requires Valid()
      modifies snelheden, sink
      ensures Valid()
      ensures State() == Close(old(State()), n).state
      ensures sink.notes == old(sink.notes) + Close(old(State()), n).emitted
    {
      if snelheden[n] != Sentinel {
        sink.Accept(Note(n, timeArray[n], time - timeArray[n], snelheden[n] as uint8, instrument));
        snelheden[n] := Sentinel;
      }
    }

    /** One receiver callback: the clock advances by dt; note-on, note-off and
        program-change for this collector's channel act on the tables. */
    method Receive(dt: Duration, e: Event)
      requires Valid()
      modifies this, timeArray, snelheden, sink
      ensures Valid()
      ensures State() == Step(old(State()), dt, e).state
      ensures sink.notes == old(sink.notes) + Step(old(State()), dt, e).emitted
    {
      time := time + dt;
      if AddressedTo(e, channel) {
        match e
        case NoteOn(_, n, v) =>
          CloseNote(n);
          if v != 0 {
            timeArray[n] := time;
            snelheden[n] := v as uint16;
          }
        case NoteOff(_, n, _) =>
          CloseNote(n);
        case ProgramChange(_, p) =>
          instrument := p;
        case _ =>
      }
    }
  }

  /** No two collectors of the list share an object or a table. */
  ghost predicate Disjoint(rs: seq<ChannelNoteCollector>)
  {
    forall i, j :: 0 <= i < |rs| && 0 <= j < |rs| && i != j ==>
      && rs[i] != rs[j]
      && rs[i].timeArray != rs[j].timeArray
      && rs[i].snelheden != rs[j].snelheden
  }

  /** The collectors of a list and their tables. */
  ghost function Footprint(rs: seq<ChannelNoteCollector>): set<object>
  {
    if rs == [] then {}
    else
      var r := rs[|rs| - 1];
      Footprint(rs[..|rs| - 1]) + {r, r.timeArray, r.snelheden}
  }

  lemma FootprintSnoc(rs: seq<ChannelNoteCollector>, r: ChannelNoteCollector)
    ensures Footprint(rs + [r]) == Footprint(rs) + {r, r.timeArray, r.snelheden}
  {
    assert (rs + [r])[..|rs|] == rs;
  }

  /** Every collector of the list lies in its footprint, with its tables. */
  lemma {:induction false} FootprintCovers(rs: seq<ChannelNoteCollector>)
    ensures forall i :: 0 <= i < |rs| ==>
      rs[i] in Footprint(rs) && rs[i].timeArray in Footprint(rs) && rs[i].snelheden in Footprint(rs)
  {
    if rs != [] {
      FootprintCovers(rs[..|rs| - 1]);
    }
  }

  /** A collector sharing nothing with those of a disjoint list keeps it disjoint. */
  lemma DisjointSnoc(rs: seq<ChannelNoteCollector>, r: ChannelNoteCollector)
    requires Disjoint(rs)
    requires forall i :: 0 <= i < |rs| ==>
      rs[i] != r && rs[i].timeArray != r.timeArray && rs[i].snelheden != r.snelheden
    ensures Disjoint(rs + [r])
  {
  }

  class EventMulticaster {
    const receivers: seq<ChannelNoteCollector>
    /** The note callback all receivers share. */
    ghost const sink: NoteSink

    /** The receivers and their tables. */
    ghost const Repr: set<object>

    /** Every receiver is valid, lies in Repr with its tables and feeds the
        shared sink, and no two receivers share an object or a table. */
    ghost predicate Valid()
      reads Repr
    {
      && (forall i :: 0 <= i < |receivers| ==> InRepr(receivers[i]))
      && (forall i :: 0 <= i < |receivers| ==> receivers[i].Valid() && receivers[i].sink == sink)
      && Disjoint(receivers)
      && AllWellFormed(States())
    }

    ghost predicate InRepr(r: ChannelNoteCollector)
    {
      r in Repr && r.timeArray in Repr && r.snelheden in Repr
    }

    /** The states of the first k receivers. */
    ghost function StatesUpTo(k: nat): (cs: seq<CollectorState>)
      requires k <= |receivers|
      requires forall i :: 0 <= i < |receivers| ==> InRepr(receivers[i])
      reads Repr
      ensures |cs| == k
    {
      if k == 0 then []
      else
        StatesUpTo(k - 1) + [receivers[k - 1].State()]
    }

    ghost function States(): (cs: seq<CollectorState>)
      requires forall i :: 0 <= i < |receivers| ==> InRepr(receivers[i])
      reads Repr
      ensures |cs| == |receivers|
    {
      StatesUpTo(|receivers|)
    }

    lemma {:induction false} StatesUpToAreReceiverStates(k: nat)
      requires k <= |receivers|
      requires forall i :: 0 <= i < |receivers| ==> InRepr(receivers[i])
      ensures forall j :: 0 <= j < k ==> StatesUpTo(k)[j] == receivers[j].State()
    {
      if k != 0 {
        StatesUpToAreReceiverStates(k - 1);
      }
    }

    /** Entry j of States() is the state of receiver j. */
    lemma StatesAreReceiverStates()
      requires forall i :: 0 <= i < |receivers| ==> InRepr(receivers[i])
      ensures forall j :: 0 <= j < |receivers| ==> States()[j] == receivers[j].State()
    {
      StatesUpToAreReceiverStates(|receivers|);
    }

    /** The receivers are taken as they are: states names their current
        states, which become the multicaster's. */
    constructor(receivers: seq<ChannelNoteCollector>, ghost sink: NoteSink, ghost states: seq<CollectorState>)
      requires forall i :: 0 <= i < |receivers| ==> receivers[i].Valid() && receivers[i].sink == sink
      requires Disjoint(receivers)
      requires |states| == |receivers| && forall i :: 0 <= i < |receivers| ==> receivers[i].State() == states[i]
      ensures Valid() && this.receivers == receivers && this.sink == sink
      ensures States() == states
      ensures Repr == Footprint(receivers)
    {
      this.receivers := receivers;
      this.sink := sink;
      Repr := Footprint(receivers);
      new;
      FootprintCovers(receivers);
      StatesAreReceiverStates();
    }

    /** Forwards the event to every receiver, first to last. */
    method Receive(dt: Duration, e: Event)
      requires Valid()
      modifies Repr, sink
      ensures Valid()
      ensures States() == Broadcast(old(States()), dt, e).states
      ensures sink.notes == old(sink.notes) + Broadcast(old(States()), dt, e).emitted
    {
      ghost var pre := States();
      ghost var notes0 := sink.notes;
      for i := 0 to |receivers|
        invariant Valid()
        invariant States() == ForwardedStates(pre, dt, e, i)
        invariant sink.notes == notes0 + EmittedUpTo(pre, dt, e, i)
      {
        ForwardNextOf(pre, notes0, i, dt, e);
      }
    }

    /** One iteration of the broadcast: receivers before i have taken the
        event, and receiver i takes it now. */
    method ForwardNextOf(ghost pre: seq<CollectorState>, ghost notes0: seq<Note>, i: nat, dt: Duration, e: Event)
      requires Valid() && i < |receivers| && |pre| == |receivers| && AllWellFormed(pre)
      requires States() == ForwardedStates(pre, dt, e, i)
      requires sink.notes == notes0 + EmittedUpTo(pre, dt, e, i)
      modifies receivers[i], receivers[i].timeArray, receivers[i].snelheden, sink
      ensures Valid()
      ensures States() == ForwardedStates(pre, dt, e, i + 1)
      ensures sink.notes == notes0 + EmittedUpTo(pre, dt, e, i + 1)
    {
      ForwardNext(pre, dt, e, i);
      ForwardTo(i, dt, e);
      AppendAssoc(notes0, EmittedUpTo(pre, dt, e, i), Step(pre[i], dt, e).emitted);
    }

    /** Delivers the event to receiver i alone. */
    method ForwardTo(i: nat, dt: Duration, e: Event)
      requires Valid() && i < |receivers|
      modifies receivers[i], receivers[i].timeArray, receivers[i].snelheden, sink
      ensures Valid()
      ensures States() == old(States())[i := Step(old(States())[i], dt, e).state]
      ensures sink.notes == old(sink.notes) + Step(old(States())[i], dt, e).emitted
    {
      StatesAreReceiverStates();
      receivers[i].Receive(dt, e);
      forall j | 0 <= j < |receivers| && j != i
        ensures receivers[j].State() == old(receivers[j].State())
      {
        assert receivers[j] != receivers[i];
        assert receivers[j].timeArray != receivers[i].timeArray;
        assert receivers[j].snelheden != receivers[i].snelheden;
      }
      StatesAreReceiverStates();
    }
  }

  class NoteCollector {
    const multicaster: EventMulticaster
    const receiver: NoteSink

    /** Sixteen fresh collectors, collector c for channel c, all feeding receiver. */
    static method CreateList(receiver: NoteSink) returns (receivers: seq<ChannelNoteCollector>)
      ensures |receivers| == 16
      ensures forall i :: 0 <= i < 16 ==>
        && fresh(receivers[i]) && fresh(receivers[i].timeArray) && fresh(receivers[i].snelheden)
        && receivers[i].Valid() && receivers[i].State() == Initial(i) && receivers[i].sink == receiver
      ensures Disjoint(receivers)
      ensures fresh(Footprint(receivers))
    {
      receivers := [];
      for channel := 0 to 16
        invariant |receivers| == channel
        invariant forall i :: 0 <= i < channel ==>
          && fresh(receivers[i]) && fresh(receivers[i].timeArray) && fresh(receivers[i].snelheden)
          && receivers[i].Valid() && receivers[i].State() == Initial(i) && receivers[i].sink == receiver
        invariant Disjoint(receivers)
        invariant fresh(Footprint(receivers))
      {
        var collector := new ChannelNoteCollector(channel, receiver);
        FootprintSnoc(receivers, collector);
        DisjointSnoc(receivers, collector);
        receivers := receivers + [collector];
      }
    }

    ghost predicate Valid()
      reads this, multicaster, multicaster.Repr
    {
      && multicaster.Valid()
      && multicaster.sink == receiver
      && ValidBank(multicaster.States())
    }

    ghost function States(): seq<CollectorState>
      requires multicaster.Valid()
      reads this, multicaster, multicaster.Repr
    {
      multicaster.States()
    }

    /** A multicaster over sixteen fresh per-channel collectors. */
    constructor(receiver: NoteSink)
      ensures Valid() && States() == InitialBank() && this.receiver == receiver
      ensures fresh(multicaster) && fresh(multicaster.Repr)
    {
      this.receiver := receiver;
      var list := CreateList(receiver);
      multicaster := new EventMulticaster(list, receiver, InitialBank());
    }

    /** Forwards the event to the multicaster. Only the collector of the
        event's channel hands notes to the receiver. */
    method Receive(dt: Duration, e: Event)
      requires Valid()
      modifies multicaster.Repr, receiver
      ensures Valid()
      ensures States() == Broadcast(old(States()), dt, e).states
      ensures receiver.notes == old(receiver.notes) + Broadcast(old(States()), dt, e).emitted
      ensures IsChannelEvent(e) ==> receiver.notes == old(receiver.notes) + Step(old(States())[e.channel], dt, e).emitted
      ensures !IsChannelEvent(e) ==> receiver.notes == old(receiver.notes)
    {
      BankRouting(multicaster.States(), dt, e);
      multicaster.Receive(dt, e);
    }
  }
}
