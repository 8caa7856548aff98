/** One subscription of the event bus (internal/eventbus/eventbus.go) before it is closed:
    publishers, the pump and the consumer take steps in any order, each step one critical
    section, one channel operation or one receive. */
module EventBus {

  datatype Kind = ValuesUpdated | PeriodClosed

  datatype Policy = Coalesce | Lossless

  /** id tells the events of one publisher apart. */
  datatype Event = Event(publisher: nat, kind: Kind, id: int)

  /** Where a publisher is inside deliver. */
  datatype Publisher =
    | Idle
    | Checked(e: Event, queued: bool)
    | Missed(e: Event)
    | Appended

  datatype Pump = Waiting | Peeking | Sending(e: Event) | Popping

  /** log holds, per publisher, every event published and not dropped, in order. */
  datatype State = State(
    policy: Policy, capacity: nat, chan: seq<Event>, overflow: seq<Event>, kick: bool,
    pump: Pump, pubs: seq<Publisher>, received: seq<Event>, log: seq<seq<Event>>, dropped: seq<Event>)

  datatype Action =
    | Publish(e: Event)
    | TrySend(p: nat)
    | Append(p: nat)
    | Kick(p: nat)
    | Wake
    | Peek
    | Send
    | Pop
    | Receive

  predicate Enabled(s: State, a: Action) {
    match a
    case Publish(e) => e.publisher < |s.pubs| && s.pubs[e.publisher].Idle?
    case TrySend(p) => p < |s.pubs| && s.pubs[p].Checked?
    case Append(p) => p < |s.pubs| && s.pubs[p].Missed?
    case Kick(p) => p < |s.pubs| && s.pubs[p].Appended?
    case Wake => s.pump.Waiting? && s.kick
    case Peek => s.pump.Peeking?
    case Send => s.pump.Sending? && |s.chan| < s.capacity
    case Pop => s.pump.Popping? && s.overflow != []
    case Receive => s.chan != []
  }

  predicate Sized(s: State) {
    |s.log| == |s.pubs|
  }

  function Step(s: State, a: Action): State
    requires Sized(s) && Enabled(s, a)
  {
    match a
    case Publish(e) =>
      var p := e.publisher;
      s.(pubs := s.pubs[p := Checked(e, s.overflow != [])], log := s.log[p := s.log[p] + [e]])
    case TrySend(p) =>
      var e := s.pubs[p].e;
      if !s.pubs[p].queued && |s.chan| < s.capacity then
        s.(pubs := s.pubs[p := Idle], chan := s.chan + [e])
      else if s.policy == Coalesce && e.kind == ValuesUpdated then
        s.(pubs := s.pubs[p := Idle], log := s.log[p := ButLast(s.log[p])], dropped := s.dropped + [e])
      else s.(pubs := s.pubs[p := Missed(e)])
    case Append(p) => s.(pubs := s.pubs[p := Appended], overflow := s.overflow + [s.pubs[p].e])
    case Kick(p) => s.(pubs := s.pubs[p := Idle], kick := true)
    case Wake => s.(kick := false, pump := Peeking)
    case Peek => s.(pump := if s.overflow == [] then Waiting else Sending(s.overflow[0]))
    case Send => s.(chan := s.chan + [s.pump.e], pump := Popping)
    case Pop => s.(overflow := s.overflow[1..], pump := Peeking)
    case Receive => s.(received := s.received + [s.chan[0]], chan := s.chan[1..])
  }

  function ButLast(es: seq<Event>): seq<Event> {
    if es == [] then [] else es[..|es| - 1]
  }

  predicate Init(s: State) {
    && Sized(s) && s.capacity >= 1 && s.chan == [] && s.overflow == [] && !s.kick && s.pump == Waiting
    && s.received == [] && s.dropped == []
    && (forall p :: 0 <= p < |s.pubs| ==> s.pubs[p] == Idle && s.log[p] == [])
  }

  ghost predicate Run(ss: seq<State>, acts: seq<Action>) {
    && |ss| == |acts| + 1 && Init(ss[0])
    && forall i {:trigger acts[i]} :: 0 <= i < |acts| ==>
         Sized(ss[i]) && Enabled(ss[i], acts[i]) && ss[i + 1] == Step(ss[i], acts[i])
  }

  // ---- what every step keeps ----

  /** The overflow list without the head that has been sent but not popped yet. */
  function Unsent(s: State): seq<Event> {
    if s.pump.Popping? && s.overflow != [] then s.overflow[1..] else s.overflow
  }

  /** Everything delivered or still queued, in delivery order. */
  function Stream(s: State): seq<Event> {
    s.received + s.chan + Unsent(s)
  }

  function Of(es: seq<Event>, p: nat): seq<Event> {
    if es == [] then []
    else
      var n := |es| - 1;
      if es[n].publisher == p then Of(es[..n], p) + [es[n]] else Of(es[..n], p)
  }

  /** The event a publisher is still delivering. */
  function InFlight(q: Publisher): seq<Event> {
    if q.Checked? || q.Missed? then [q.e] else []
  }

  /** Exactly once and in order: each publisher's events that were not dropped are the ones
      delivered, then the ones queued, then the one in flight. */
  predicate Ordered(s: State, p: nat)
    requires Sized(s) && p < |s.pubs|
  {
    s.log[p] == Of(Stream(s), p) + InFlight(s.pubs[p])
  }

  predicate PublisherOk(s: State, p: nat)
    requires Sized(s) && p < |s.pubs|
  {
    && Ordered(s, p)
    && (s.pubs[p].Checked? || s.pubs[p].Missed? ==> s.pubs[p].e.publisher == p)
    && (s.pubs[p].Checked? && !s.pubs[p].queued ==> Of(Unsent(s), p) == [])
  }

  predicate PumpOk(s: State) {
    && (s.pump.Sending? ==> s.overflow != [] && s.pump.e == s.overflow[0])
    && (s.pump.Popping? ==> s.overflow != [])
  }

  /** A non-empty overflow implies a pending kick, a draining pump, or a publisher between
      its append and its kick. */
  ghost predicate WillWake(s: State) {
    s.overflow != [] ==>
      s.kick || !s.pump.Waiting? || exists p :: 0 <= p < |s.pubs| && s.pubs[p].Appended?
  }

  ghost predicate Inv(s: State) {
    && Sized(s) && s.capacity >= 1 && |s.chan| <= s.capacity
    && PumpOk(s) && WillWake(s)
    && (forall p :: 0 <= p < |s.pubs| ==> PublisherOk(s, p))
    && (forall e :: e in s.dropped ==> s.policy == Coalesce && e.kind == ValuesUpdated)
  }

  lemma {:induction false} OfConcat(a: seq<Event>, b: seq<Event>, p: nat)
    ensures Of(a + b, p) == Of(a, p) + Of(b, p)
    decreases |b|
  {
    if b == [] {
      assert a + b == a;
    } else {
      var n := |b| - 1;
      OfConcat(a, b[..n], p);
      assert (a + b)[..|a + b| - 1] == a + b[..n];
    }
  }

  lemma OfOne(e: Event, p: nat)
    ensures Of([e], p) == if e.publisher == p then [e] else []
  {
    assert [e][..0] == [];
  }

  lemma StreamOf(s: State, p: nat)
    ensures Of(Stream(s), p) == Of(s.received, p) + Of(s.chan, p) + Of(Unsent(s), p)
  {
    OfConcat(s.received + s.chan, Unsent(s), p);
    OfConcat(s.received, s.chan, p);
  }

  lemma PublishKeeps(s: State, e: Event, p: nat)
    requires Inv(s) && Enabled(s, Publish(e)) && p < |s.pubs|
    ensures PublisherOk(Step(s, Publish(e)), p)
  {
    var s' := Step(s, Publish(e));
    assert PublisherOk(s, p) && Stream(s') == Stream(s) && Unsent(s') == Unsent(s);
  }

  /** An event put into the channel reaches its own publisher's stream behind everything
      sent, and no one else's. */
  lemma InChannel(received: seq<Event>, chan: seq<Event>, unsent: seq<Event>, e: Event, p: nat)
    ensures e.publisher != p ==> Of(received + (chan + [e]) + unsent, p) == Of(received + chan + unsent, p)
    ensures e.publisher == p && Of(unsent, p) == [] ==>
      Of(received + (chan + [e]) + unsent, p) == Of(received + chan + unsent, p) + [e]
  {
    OfConcat(received + (chan + [e]), unsent, p);
    OfConcat(received + chan, unsent, p);
    assert received + (chan + [e]) == received + chan + [e];
    OfConcat(received + chan, [e], p);
    OfOne(e, p);
  }

  /** An event put into the overflow list reaches its publisher's stream last. */
  lemma InOverflow(before: seq<Event>, unsent: seq<Event>, e: Event, p: nat)
    ensures Of(before + (unsent + [e]), p) == Of(before + unsent, p) + (if e.publisher == p then [e] else [])
  {
    assert before + (unsent + [e]) == before + unsent + [e];
    OfConcat(before + unsent, [e], p);
    OfOne(e, p);
  }

  lemma TrySendKeeps(s: State, q: nat, p: nat)
    requires Inv(s) && Enabled(s, TrySend(q)) && p < |s.pubs|
    ensures PublisherOk(Step(s, TrySend(q)), p)
  {
    var s', e := Step(s, TrySend(q)), s.pubs[q].e;
    assert PublisherOk(s, p) && PublisherOk(s, q);
    if !s.pubs[q].queued && |s.chan| < s.capacity {
      SentKeeps(s, s', q, p, e);
    } else {
      assert Stream(s') == Stream(s) && Unsent(s') == Unsent(s);
    }
  }

  lemma SentKeeps(s: State, s': State, q: nat, p: nat, e: Event)
    requires Sized(s) && p < |s.pubs| && q < |s.pubs| && PublisherOk(s, p) && PublisherOk(s, q)
    requires s.pubs[q] == Checked(e, false)
    requires s' == s.(pubs := s.pubs[q := Idle], chan := s.chan + [e])
    ensures PublisherOk(s', p)
  {
    assert Unsent(s') == Unsent(s);
    InChannel(s.received, s.chan, Unsent(s), e, p);
  }

  lemma AppendKeeps(s: State, q: nat, p: nat)
    requires Inv(s) && Enabled(s, Append(q)) && p < |s.pubs|
    ensures PublisherOk(Step(s, Append(q)), p)
  {
    assert PublisherOk(s, p) && PublisherOk(s, q);
    AppendedKeeps(s, Step(s, Append(q)), q, p, s.pubs[q].e);
  }

  lemma AppendedKeeps(s: State, s': State, q: nat, p: nat, e: Event)
    requires Sized(s) && p < |s.pubs| && q < |s.pubs| && PublisherOk(s, p) && PublisherOk(s, q) && PumpOk(s)
    requires s.pubs[q] == Missed(e)
    requires s' == s.(pubs := s.pubs[q := Appended], overflow := s.overflow + [e])
    ensures PublisherOk(s', p)
  {
    UnsentGrows(s, s', e);
    StreamAppended(s, s', Unsent(s), Unsent(s'), e, p);
    assert s'.pubs[p] == if p == q then Appended else s.pubs[p];
    if p == q {
      assert s.log[p] == Of(Stream(s), p) + [e];
    } else {
      assert Of(Stream(s'), p) == Of(Stream(s), p) + [] == Of(Stream(s), p);
    }
  }

  lemma StreamAppended(s: State, s': State, u: seq<Event>, u': seq<Event>, e: Event, p: nat)
    requires u == Unsent(s) && u' == Unsent(s') && u' == u + [e]
    requires s'.received == s.received && s'.chan == s.chan
    ensures Of(Stream(s'), p) == Of(Stream(s), p) + (if e.publisher == p then [e] else [])
    ensures Of(u', p) == Of(u, p) + (if e.publisher == p then [e] else [])
  {
    InOverflow(s.received + s.chan, u, e, p);
    OfConcat(u, [e], p);
    OfOne(e, p);
  }

  lemma UnsentGrows(s: State, s': State, e: Event)
    requires PumpOk(s) && s'.pump == s.pump && s'.overflow == s.overflow + [e]
    ensures Unsent(s') == Unsent(s) + [e]
  {
  }

  lemma SendKeeps(s: State, p: nat)
    requires Inv(s) && Enabled(s, Send) && p < |s.pubs|
    ensures PublisherOk(Step(s, Send), p)
  {
    var s' := Step(s, Send);
    assert PublisherOk(s, p);
    assert s.overflow == [s.overflow[0]] + s.overflow[1..];
    assert Stream(s') == Stream(s);
    OfConcat([s.overflow[0]], s.overflow[1..], p);
  }

  lemma ReceiveKeeps(s: State, p: nat)
    requires Inv(s) && Enabled(s, Receive) && p < |s.pubs|
    ensures PublisherOk(Step(s, Receive), p)
  {
    var s' := Step(s, Receive);
    assert PublisherOk(s, p);
    assert s.chan == [s.chan[0]] + s.chan[1..];
    assert Stream(s') == Stream(s);
  }

  lemma OtherKeeps(s: State, a: Action, p: nat)
    requires Inv(s) && Enabled(s, a) && p < |s.pubs| && (a.Kick? || a.Wake? || a.Peek? || a.Pop?)
    ensures PublisherOk(Step(s, a), p)
  {
    var s' := Step(s, a);
    assert PublisherOk(s, p);
    assert Unsent(s') == Unsent(s);
  }

  lemma StepKeepsWake(s: State, a: Action)
    requires Inv(s) && Enabled(s, a)
    ensures WillWake(Step(s, a)) && PumpOk(Step(s, a))
  {
    var s' := Step(s, a);
    match a
    case Append(p) => assert s'.pubs[p].Appended?;
    case Publish(e) => OthersStay(s, s', e.publisher);
    case TrySend(p) => OthersStay(s, s', p);
    case _ =>
  }

  lemma OthersStay(s: State, s': State, q: nat)
    requires |s.pubs| == |s'.pubs| && q < |s.pubs| && !s.pubs[q].Appended?
    requires forall p :: 0 <= p < |s.pubs| && p != q ==> s'.pubs[p] == s.pubs[p]
    requires WillWake(s) && s'.overflow == s.overflow && s'.kick == s.kick && s'.pump == s.pump
    ensures WillWake(s')
  {
    if p :| 0 <= p < |s.pubs| && s.pubs[p].Appended? {
      assert s'.pubs[p].Appended?;
    }
  }

  lemma StepKeepsInv(s: State, a: Action)
    requires Inv(s) && Enabled(s, a)
    ensures Inv(Step(s, a))
  {
    var s' := Step(s, a);
    StepKeepsWake(s, a);
    forall p | 0 <= p < |s'.pubs|
      ensures PublisherOk(s', p)
    {
      match a
      case Publish(e) => PublishKeeps(s, e, p);
      case TrySend(q) => TrySendKeeps(s, q, p);
      case Append(q) => AppendKeeps(s, q, p);
      case Send => SendKeeps(s, p);
      case Receive => ReceiveKeeps(s, p);
      case _ => OtherKeeps(s, a, p);
    }
    StepKeepsRest(s, a);
  }

  lemma StepKeepsRest(s: State, a: Action)
    requires Inv(s) && Enabled(s, a)
    ensures var s' := Step(s, a);
      && Sized(s') && s'.capacity == s.capacity && |s'.chan| <= s'.capacity
      && forall e :: e in s'.dropped ==> s'.policy == Coalesce && e.kind == ValuesUpdated
  {
  }

  /** In every run: nothing is lost, duplicated or reordered within a publisher, only
      ValuesUpdated events of a coalescing subscription are dropped, and queued events
      always have someone on the way to move them. */
  lemma {:induction false} RunKeepsInv(ss: seq<State>, acts: seq<Action>, i: nat)
    requires Run(ss, acts) && i < |ss|
    ensures Inv(ss[i])
  {
    if i > 0 {
      RunKeepsInv(ss, acts, i - 1);
      StepKeepsInv(ss[i - 1], acts[i - 1]);
    }
  }

  // ---- everything is delivered in the end ----

  /** Only a new publish is possible. */
  ghost predicate Quiet(s: State) {
    forall a :: Enabled(s, a) ==> a.Publish?
  }

  /** Once nothing but a new publish can happen, the consumer has received every event that
      was not dropped, each publisher's in order. */
  lemma QuietMeansDelivered(ss: seq<State>, acts: seq<Action>, i: nat, p: nat)
    requires Run(ss, acts) && i < |ss| && Quiet(ss[i]) && p < |ss[i].pubs|
    ensures p < |ss[i].log| && Of(ss[i].received, p) == ss[i].log[p]
    ensures ss[i].chan == [] && ss[i].overflow == [] && ss[i].pubs[p].Idle?
  {
    RunKeepsInv(ss, acts, i);
    QuietIdle(ss[i], p);
    QuietEmpty(ss[i]);
    assert PublisherOk(ss[i], p);
    StreamOf(ss[i], p);
  }

  lemma QuietIdle(s: State, p: nat)
    requires Quiet(s) && p < |s.pubs|
    ensures s.pubs[p].Idle?
  {
    assert !Enabled(s, TrySend(p)) && !Enabled(s, Append(p)) && !Enabled(s, Kick(p));
  }

  lemma QuietEmpty(s: State)
    requires Quiet(s) && PumpOk(s) && WillWake(s) && s.capacity >= 1
    ensures s.chan == [] && s.overflow == []
  {
    assert !Enabled(s, Receive) && !Enabled(s, Wake) && !Enabled(s, Peek) && !Enabled(s, Send) && !Enabled(s, Pop);
    if s.overflow != [] {
      assert s.pump.Waiting? && !s.kick;
      var p :| 0 <= p < |s.pubs| && s.pubs[p].Appended?;
      QuietIdle(s, p);
    }
  }

  /** How much there is left to do before the system is quiet. */
  function Work(q: Publisher): nat {
    match q
    case Idle => 0
    case Checked(_, _) => 11
    case Missed(_) => 10
    case Appended => 5
  }

  function TotalWork(pubs: seq<Publisher>): nat {
    if pubs == [] then 0 else TotalWork(pubs[..|pubs| - 1]) + Work(pubs[|pubs| - 1])
  }

  function PumpWork(u: Pump): nat {
    match u
    case Waiting => 0
    case Peeking => 3
    case Sending(_) => 2
    case Popping => 0
  }

  function Left(s: State): nat {
    TotalWork(s.pubs) + 4 * |s.overflow| + |s.chan| + (if s.kick then 4 else 0) + PumpWork(s.pump)
  }

  lemma {:induction false} WorkOf(pubs: seq<Publisher>, p: nat, q: Publisher)
    requires p < |pubs|
    ensures TotalWork(pubs[p := q]) + Work(pubs[p]) == TotalWork(pubs) + Work(q)
    decreases |pubs|
  {
    var n := |pubs| - 1;
    if p < n {
      WorkOf(pubs[..n], p, q);
      assert pubs[p := q][..n] == pubs[..n][p := q];
    } else {
      assert pubs[p := q][..n] == pubs[..n];
    }
  }

  /** Every step but a publish leaves less to do, so a burst of events is delivered within a
      bounded number of steps, in whatever order they are taken. */
  lemma StepProgresses(s: State, a: Action)
    requires Inv(s) && Enabled(s, a) && !a.Publish?
    ensures Left(Step(s, a)) < Left(s)
  {
    match a
    case TrySend(p) =>
      WorkOf(s.pubs, p, Idle);
      WorkOf(s.pubs, p, Missed(s.pubs[p].e));
    case Append(p) => WorkOf(s.pubs, p, Appended);
    case Kick(p) => WorkOf(s.pubs, p, Idle);
    case _ =>
  }
}
