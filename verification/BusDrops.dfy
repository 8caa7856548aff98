/** When an event is dropped: exactly at the send of a ValuesUpdated to a coalescing
    subscription that was congested, and then nothing else is lost either. */
module BusDrops {
  import opened EventBus

  /** The event a publisher is about to send at state i was published at step j. */
  ghost predicate PublishedAt(ss: seq<State>, acts: seq<Action>, p: nat, j: int, i: int)
    requires |ss| == |acts| + 1
  {
    && 0 <= j < i < |ss| && p < |ss[i].pubs| && ss[i].pubs[p].Checked?
    && acts[j] == Publish(ss[i].pubs[p].e) && ss[i].pubs[p].e.publisher == p
    && forall m :: j < m <= i ==> SameSend(ss[m], ss[i], p)
  }

  predicate SameSend(s: State, t: State, p: nat) {
    p < |s.pubs| && p < |t.pubs| && s.pubs[p] == t.pubs[p]
  }

  lemma StepAt(ss: seq<State>, acts: seq<Action>, i: nat)
    requires Run(ss, acts) && i < |acts|
    ensures Sized(ss[i]) && Enabled(ss[i], acts[i]) && ss[i + 1] == Step(ss[i], acts[i])
  {
  }

  /** Another step leaves a publisher between its check and its send alone. */
  lemma SendWaits(ss: seq<State>, acts: seq<Action>, p: nat, i: nat)
    requires Run(ss, acts) && i < |acts| && p < |ss[i + 1].pubs| && ss[i + 1].pubs[p].Checked?
    ensures p < |ss[i].pubs|
    ensures ss[i].pubs[p] == ss[i + 1].pubs[p]
      || (acts[i].Publish? && acts[i].e.publisher == p && ss[i + 1].pubs[p] == Checked(acts[i].e, ss[i].overflow != []))
  {
    StepAt(ss, acts, i);
  }

  /** Every send belongs to one publish; whether it counts as queued was decided there. */
  lemma {:induction false} SendWasPublished(ss: seq<State>, acts: seq<Action>, p: nat, i: nat) returns (j: nat)
    requires Run(ss, acts) && i < |ss| && p < |ss[i].pubs| && ss[i].pubs[p].Checked?
    ensures PublishedAt(ss, acts, p, j, i) && (ss[i].pubs[p].queued <==> ss[j].overflow != [])
  {
    if i == 0 {
      assert false;
    } else {
      SendWaits(ss, acts, p, i - 1);
      if ss[i - 1].pubs[p] == ss[i].pubs[p] {
        j := SendWasPublished(ss, acts, p, i - 1);
        assert forall m :: j < m <= i ==> SameSend(ss[m], ss[i], p) by {
          forall m | j < m <= i
            ensures SameSend(ss[m], ss[i], p)
          {
            assert m <= i - 1 ==> SameSend(ss[m], ss[i - 1], p);
          }
        }
      } else {
        j := i - 1;
      }
    }
  }

  lemma WasIdle(ss: seq<State>, acts: seq<Action>, p: nat, j: int, i: int)
    requires Run(ss, acts) && PublishedAt(ss, acts, p, j, i)
    ensures p < |ss[j].pubs| && ss[j].pubs[p].Idle?
  {
    StepAt(ss, acts, j);
  }

  lemma StaysChecked(ss: seq<State>, acts: seq<Action>, p: nat, j: int, m: int, i: int)
    requires |ss| == |acts| + 1 && PublishedAt(ss, acts, p, j, i) && j < m <= i
    ensures p < |ss[m].pubs| && ss[m].pubs[p].Checked?
  {
    assert SameSend(ss[m], ss[i], p);
  }

  lemma PublishedOnce(ss: seq<State>, acts: seq<Action>, p: nat, j: int, k: int, i: int)
    requires Run(ss, acts) && PublishedAt(ss, acts, p, j, i) && PublishedAt(ss, acts, p, k, i)
    ensures j == k
  {
    WasIdle(ss, acts, p, j, i);
    WasIdle(ss, acts, p, k, i);
    if j < k {
      StaysChecked(ss, acts, p, j, k, i);
    } else if k < j {
      StaysChecked(ss, acts, p, k, j, i);
    }
  }

  /** The send at step i meets a full channel, or events were already queued when its event
      was published. */
  ghost predicate Congested(ss: seq<State>, acts: seq<Action>, p: nat, i: nat)
    requires |ss| == |acts| + 1 && i < |ss|
  {
    |ss[i].chan| >= ss[i].capacity || exists j :: PublishedAt(ss, acts, p, j, i) && ss[j].overflow != []
  }

  /** A ValuesUpdated, sent to a coalescing subscription that is congested. */
  ghost predicate Refused(ss: seq<State>, acts: seq<Action>, i: nat)
    requires |ss| == |acts| + 1 && i < |acts|
  {
    && acts[i].TrySend? && acts[i].p < |ss[i].pubs| && ss[i].pubs[acts[i].p].Checked?
    && ss[i].policy == Coalesce && ss[i].pubs[acts[i].p].e.kind == ValuesUpdated
    && Congested(ss, acts, acts[i].p, i)
  }

  lemma QueuedIs(ss: seq<State>, acts: seq<Action>, p: nat, i: nat)
    requires Run(ss, acts) && i < |ss| && p < |ss[i].pubs| && ss[i].pubs[p].Checked?
    ensures ss[i].pubs[p].queued <==> exists j :: PublishedAt(ss, acts, p, j, i) && ss[j].overflow != []
  {
    var j := SendWasPublished(ss, acts, p, i);
    if k :| PublishedAt(ss, acts, p, k, i) && ss[k].overflow != [] {
      PublishedOnce(ss, acts, p, j, k, i);
    }
  }

  /** A step drops an event exactly when it is refused, and then that event. */
  lemma DropsExactly(ss: seq<State>, acts: seq<Action>, i: nat)
    requires Run(ss, acts) && i < |acts|
    ensures acts[i].TrySend? ==> acts[i].p < |ss[i].pubs| && ss[i].pubs[acts[i].p].Checked?
    ensures ss[i + 1].dropped == ss[i].dropped + if Refused(ss, acts, i) then [ss[i].pubs[acts[i].p].e] else []
  {
    StepAt(ss, acts, i);
    if acts[i].TrySend? {
      QueuedIs(ss, acts, acts[i].p, i);
    }
  }

  /** The events refused in the first n steps, in order. */
  ghost function RefusedEvents(ss: seq<State>, acts: seq<Action>, n: nat): seq<Event>
    requires |ss| == |acts| + 1 && n <= |acts|
  {
    if n == 0 then []
    else RefusedEvents(ss, acts, n - 1) + if Refused(ss, acts, n - 1) then [ss[n - 1].pubs[acts[n - 1].p].e] else []
  }

  /** In every run the dropped events are exactly the refused ones. */
  lemma {:induction false} DroppedAreRefused(ss: seq<State>, acts: seq<Action>, n: nat)
    requires Run(ss, acts) && n < |ss|
    ensures ss[n].dropped == RefusedEvents(ss, acts, n)
  {
    if n > 0 {
      DroppedAreRefused(ss, acts, n - 1);
      DropsExactly(ss, acts, n - 1);
    }
  }

  // ---- what is sent without congestion arrives ----

  /** Everything the consumer has, or will read next. */
  function Arrived(s: State): seq<Event> {
    s.received + s.chan
  }

  lemma ArrivedGrows(s: State, a: Action)
    requires Sized(s) && Enabled(s, a)
    ensures Arrived(s) <= Arrived(Step(s, a))
  {
    var s' := Step(s, a);
    match a
    case TrySend(p) => assert s'.chan == s.chan || s'.chan == s.chan + [s.pubs[p].e];
    case Send => assert s'.chan == s.chan + [s.pump.e];
    case Receive =>
      assert s.chan == [s.chan[0]] + s.chan[1..];
      assert Arrived(s') == Arrived(s);
    case _ => assert Arrived(s') == Arrived(s);
  }

  lemma {:induction false} ArrivedStays(ss: seq<State>, acts: seq<Action>, i: nat, n: nat)
    requires Run(ss, acts) && i <= n < |ss|
    ensures Arrived(ss[i]) <= Arrived(ss[n])
    decreases n
  {
    if i < n {
      ArrivedStays(ss, acts, i, n - 1);
      StepAt(ss, acts, n - 1);
      ArrivedGrows(ss[n - 1], acts[n - 1]);
    }
  }

  /** An event published while nothing was queued and sent while the channel has room, of
      whatever kind, is in the channel at once, and in every later state it is there or has
      been received, behind everything sent before it. */
  lemma UncongestedArrives(ss: seq<State>, acts: seq<Action>, i: nat, n: nat, p: nat)
    requires Run(ss, acts) && i < n < |ss| && acts[i] == TrySend(p)
    ensures p < |ss[i].pubs| && ss[i].pubs[p].Checked?
    ensures !Congested(ss, acts, p, i) ==> Arrived(ss[i]) + [ss[i].pubs[p].e] <= Arrived(ss[n])
  {
    StepAt(ss, acts, i);
    QueuedIs(ss, acts, p, i);
    ArrivedStays(ss, acts, i + 1, n);
    if !Congested(ss, acts, p, i) {
      assert Arrived(ss[i + 1]) == Arrived(ss[i]) + [ss[i].pubs[p].e];
    }
  }
}
