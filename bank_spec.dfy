/** Fan-out of one event to a list of channel note collectors, as a value: the
    event multicaster forwards every event to each of its receivers in list
    order, and the note collector's list holds one collector per channel. */
module BankSpec {
  import opened Primitives
  import opened Notes
  import opened Events
  import opened CollectorSpec

  /** The states of a multicaster's receivers after an event, and the notes
      they handed to the shared sink, in receiver order. */
  datatype BankOutcome = BankOutcome(states: seq<CollectorState>, emitted: seq<Note>)

  predicate AllWellFormed(cs: seq<CollectorState>)
  {
    forall i :: 0 <= i < |cs| ==> WellFormed(cs[i])
  }

  /** Sixteen collectors, the i-th one listening to channel i. */
  predicate ValidBank(cs: seq<CollectorState>)
  {
    && |cs| == 16
    && AllWellFormed(cs)
    && forall i :: 0 <= i < 16 ==> cs[i].channel == i
  }

  /** All collectors of a list agree on the current time. */
  predicate Synchronized(cs: seq<CollectorState>, t: Time)
  {
    forall i :: 0 <= i < |cs| ==> cs[i].time == t
  }

  /** The list a freshly built note collector holds: collector i for channel i,
      all at time 0 with program 0 and no open note. */
  function InitialBank(): (cs: seq<CollectorState>)
    ensures ValidBank(cs) && Synchronized(cs, 0)
    ensures forall i :: 0 <= i < 16 ==> cs[i] == Initial(i) && cs[i].instrument == 0
    ensures forall i, n: NoteNumber :: 0 <= i < 16 ==> !IsOpen(cs[i], n)
  {
    seq(16, i requires 0 <= i < 16 => Initial(i))
  }

  /** The notes the first k receivers emit for one event, in receiver order. */
  function EmittedUpTo(cs: seq<CollectorState>, dt: Duration, e: Event, k: nat): (ns: seq<Note>)
    requires AllWellFormed(cs) && k <= |cs|
    ensures |ns| <= k
  {
    if k == 0 then [] else EmittedUpTo(cs, dt, e, k - 1) + Step(cs[k - 1], dt, e).emitted
  }

  /** The receivers' states once the first k of them have taken the event. */
  function ForwardedStates(cs: seq<CollectorState>, dt: Duration, e: Event, k: nat): (ss: seq<CollectorState>)
    requires AllWellFormed(cs) && k <= |cs|
    ensures |ss| == |cs|
  {
    if k == 0 then cs
    else ForwardedStates(cs, dt, e, k - 1)[k - 1 := Step(cs[k - 1], dt, e).state]
  }

  lemma {:induction false} ForwardedStatesAt(cs: seq<CollectorState>, dt: Duration, e: Event, k: nat)
    requires AllWellFormed(cs) && k <= |cs|
    ensures forall j :: 0 <= j < k ==> ForwardedStates(cs, dt, e, k)[j] == Step(cs[j], dt, e).state
    ensures forall j :: k <= j < |cs| ==> ForwardedStates(cs, dt, e, k)[j] == cs[j]
  {
    if k != 0 {
      ForwardedStatesAt(cs, dt, e, k - 1);
    }
  }

  /** Forwarding to receiver k, which has not yet taken the event, is one
      more step of the broadcast. */
  lemma ForwardNext(cs: seq<CollectorState>, dt: Duration, e: Event, k: nat)
    requires AllWellFormed(cs) && k < |cs|
    ensures var s := ForwardedStates(cs, dt, e, k);
      && s[k] == cs[k]
      && ForwardedStates(cs, dt, e, k + 1) == s[k := Step(s[k], dt, e).state]
      && EmittedUpTo(cs, dt, e, k + 1) == EmittedUpTo(cs, dt, e, k) + Step(s[k], dt, e).emitted
  {
    ForwardedStatesAt(cs, dt, e, k);
  }

  /** One event forwarded to every receiver, first to last: each receiver takes
      its own step, and the sink sees their notes in receiver order. */
  function Broadcast(cs: seq<CollectorState>, dt: Duration, e: Event): (o: BankOutcome)
    requires AllWellFormed(cs)
    ensures |o.states| == |cs| && AllWellFormed(o.states)
    ensures forall i :: 0 <= i < |cs| ==> o.states[i] == Step(cs[i], dt, e).state
    ensures |o.emitted| <= |cs|
  {
    ForwardedStatesAt(cs, dt, e, |cs|);
    BankOutcome(ForwardedStates(cs, dt, e, |cs|), EmittedUpTo(cs, dt, e, |cs|))
  }

  /** A run of events through the multicaster. */
  function RunBank(cs: seq<CollectorState>, es: seq<TimedEvent>): (o: BankOutcome)
    requires AllWellFormed(cs)
    ensures |o.states| == |cs| && AllWellFormed(o.states)
    decreases |es|
  {
    if es == [] then BankOutcome(cs, [])
    else
      var o := RunBank(cs, es[..|es| - 1]);
      var p := Broadcast(o.states, es[|es| - 1].dt, es[|es| - 1].event);
      BankOutcome(p.states, o.emitted + p.emitted)
  }

  // ---------------------------------------------------------------------------
  // Routing: in the note collector's list only the addressed collector reacts

  /** If none of the first k receivers listens to the event's channel (in
      particular for meta and sysex events) they emit nothing. */
  lemma {:induction false} UnaddressedEmitsNothing(cs: seq<CollectorState>, dt: Duration, e: Event, k: nat)
    requires AllWellFormed(cs) && k <= |cs|
    requires forall i :: 0 <= i < k ==> !AddressedTo(e, cs[i].channel)
    ensures EmittedUpTo(cs, dt, e, k) == []
  {
    if k != 0 {
      UnaddressedEmitsNothing(cs, dt, e, k - 1);
    }
  }

  /** If receiver j is the only one of the first k that listens to the event's
      channel, the notes they emit are exactly those of receiver j. */
  lemma {:induction false} SingleListenerEmits(cs: seq<CollectorState>, dt: Duration, e: Event, j: nat, k: nat)
    requires AllWellFormed(cs) && j < k <= |cs|
    requires forall i :: 0 <= i < k && i != j ==> !AddressedTo(e, cs[i].channel)
    ensures EmittedUpTo(cs, dt, e, k) == Step(cs[j], dt, e).emitted
  {
    if k - 1 == j {
      UnaddressedEmitsNothing(cs, dt, e, j);
      assert [] + Step(cs[j], dt, e).emitted == Step(cs[j], dt, e).emitted;
    } else {
      SingleListenerEmits(cs, dt, e, j, k - 1);
      assert Step(cs[k - 1], dt, e).emitted == [];
    }
  }

  /** In a list of sixteen per-channel collectors a channel event is handled by
      the collector of its channel alone, meta and sysex events by none, and the
      list stays one collector per channel. */
  lemma BankRouting(cs: seq<CollectorState>, dt: Duration, e: Event)
    requires ValidBank(cs)
    ensures ValidBank(Broadcast(cs, dt, e).states)
    ensures IsChannelEvent(e) ==> Broadcast(cs, dt, e).emitted == Step(cs[e.channel], dt, e).emitted
    ensures !IsChannelEvent(e) ==> Broadcast(cs, dt, e).emitted == []
  {
    if IsChannelEvent(e) {
      SingleListenerEmits(cs, dt, e, e.channel, 16);
    } else {
      UnaddressedEmitsNothing(cs, dt, e, 16);
    }
  }

  // ---------------------------------------------------------------------------
  // A run through the multicaster is the receivers' runs side by side

  lemma RunBankSnoc(cs: seq<CollectorState>, es: seq<TimedEvent>, x: TimedEvent)
    requires AllWellFormed(cs)
    ensures var o := RunBank(cs, es);
      var p := Broadcast(o.states, x.dt, x.event);
      RunBank(cs, es + [x]) == BankOutcome(p.states, o.emitted + p.emitted)
  {
    assert (es + [x])[..|es|] == es;
  }

  /** After any run, each receiver is in the state it would be in had it
      received the run alone. */
  lemma {:induction false} BankStatesArePerReceiverRuns(cs: seq<CollectorState>, es: seq<TimedEvent>)
    requires AllWellFormed(cs)
    ensures forall i :: 0 <= i < |cs| ==> RunBank(cs, es).states[i] == Run(cs[i], es).state
    decreases |es|
  {
    if es != [] {
      var init, x := es[..|es| - 1], es[|es| - 1];
      assert es == init + [x];
      BankStatesArePerReceiverRuns(cs, init);
      RunBankSnoc(cs, init, x);
      forall i | 0 <= i < |cs|
        ensures RunBank(cs, es).states[i] == Run(cs[i], es).state
      {
        RunSnoc(cs[i], init, x);
      }
    }
  }

  /** The notes of the first k lists, as one multiset. */
  ghost function SumOf(nss: seq<seq<Note>>, k: nat): multiset<Note>
    requires k <= |nss|
  {
    if k == 0 then multiset{} else SumOf(nss, k - 1) + multiset(nss[k - 1])
  }

  lemma {:induction false} SumOfPointwise(before: seq<seq<Note>>, steps: seq<seq<Note>>, after: seq<seq<Note>>, k: nat)
    requires k <= |before| && k <= |steps| && k <= |after|
    requires forall i :: 0 <= i < k ==> after[i] == before[i] + steps[i]
    ensures SumOf(after, k) == SumOf(before, k) + SumOf(steps, k)
  {
    if k != 0 {
      SumOfPointwise(before, steps, after, k - 1);
    }
  }

  /** What each receiver would emit over a run, on its own. */
  function RunsEmitted(cs: seq<CollectorState>, es: seq<TimedEvent>): (nss: seq<seq<Note>>)
    requires AllWellFormed(cs)
    ensures |nss| == |cs|
  {
    seq(|cs|, i requires 0 <= i < |cs| => Run(cs[i], es).emitted)
  }

  /** What each receiver emits for one event. */
  function StepsEmitted(cs: seq<CollectorState>, dt: Duration, e: Event): (nss: seq<seq<Note>>)
    requires AllWellFormed(cs)
    ensures |nss| == |cs|
  {
    seq(|cs|, i requires 0 <= i < |cs| => Step(cs[i], dt, e).emitted)
  }

  lemma {:induction false} EmittedUpToSum(cs: seq<CollectorState>, dt: Duration, e: Event, k: nat)
    requires AllWellFormed(cs) && k <= |cs|
    ensures multiset(EmittedUpTo(cs, dt, e, k)) == SumOf(StepsEmitted(cs, dt, e), k)
  {
    if k != 0 {
      EmittedUpToSum(cs, dt, e, k - 1);
    }
  }

  lemma {:induction false} SumOfEmpty(nss: seq<seq<Note>>, k: nat)
    requires k <= |nss| && forall i :: 0 <= i < k ==> nss[i] == []
    ensures SumOf(nss, k) == multiset{}
  {
    if k != 0 {
      SumOfEmpty(nss, k - 1);
    }
  }

  /** Nothing is lost and nothing is duplicated: over any run, the sink shared
      by all receivers gets exactly the notes the receivers would emit each on
      its own. */
  lemma {:induction false} BankCollectsEveryReceiver(cs: seq<CollectorState>, es: seq<TimedEvent>)
    requires AllWellFormed(cs)
    ensures multiset(RunBank(cs, es).emitted) == SumOf(RunsEmitted(cs, es), |cs|)
    decreases |es|
  {
    if es == [] {
      SumOfEmpty(RunsEmitted(cs, es), |cs|);
    } else {
      var init, x := es[..|es| - 1], es[|es| - 1];
      assert es == init + [x];
      BankCollectsEveryReceiver(cs, init);
      BankStatesArePerReceiverRuns(cs, init);
      RunBankSnoc(cs, init, x);
      var states := RunBank(cs, init).states;
      EmittedUpToSum(states, x.dt, x.event, |cs|);
      forall i | 0 <= i < |cs|
        ensures RunsEmitted(cs, es)[i] == RunsEmitted(cs, init)[i] + StepsEmitted(states, x.dt, x.event)[i]
      {
        RunSnoc(cs[i], init, x);
      }
      SumOfPointwise(RunsEmitted(cs, init), StepsEmitted(states, x.dt, x.event), RunsEmitted(cs, es), |cs|);
    }
  }

  // ---------------------------------------------------------------------------
  // Emission order across channels

  lemma {:induction false} EmittedAtCurrentTime(cs: seq<CollectorState>, t: Time, dt: Duration, e: Event, k: nat)
    requires AllWellFormed(cs) && k <= |cs| && Synchronized(cs, t)
    ensures forall m :: m in EmittedUpTo(cs, dt, e, k) ==> m.End() == t + dt
  {
    if k != 0 {
      EmittedAtCurrentTime(cs, t, dt, e, k - 1);
    }
  }

  /** Receivers that start on a common clock stay on it, and the notes of all
      channels reach the sink in the order in which they were closed. */
  lemma {:induction false} BankEmitsInCloseOrder(cs: seq<CollectorState>, t: Time, es: seq<TimedEvent>)
    requires AllWellFormed(cs) && Synchronized(cs, t)
    ensures var o := RunBank(cs, es);
      && Synchronized(o.states, t + TotalDelta(es))
      && (forall i :: 0 <= i < |o.emitted| ==> t <= o.emitted[i].End() <= t + TotalDelta(es))
      && CloseOrdered(o.emitted)
    decreases |es|
  {
    if es != [] {
      var init, x := es[..|es| - 1], es[|es| - 1];
      BankEmitsInCloseOrder(cs, t, init);
      var o := RunBank(cs, init);
      EmittedAtCurrentTime(o.states, t + TotalDelta(init), x.dt, x.event, |o.states|);
      var p := Broadcast(o.states, x.dt, x.event);
      assert forall m :: m in p.emitted ==> m.End() == t + TotalDelta(es);
    }
  }
}
