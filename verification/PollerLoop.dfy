/** The poll loop's write path (internal/poller/cycle.go, poller.go) over the attributor and
    the store: each cycle takes the step that Polling describes. */
module PollerLoop {
  import opened Calendar
  import opened Registers
  import opened Energy
  import opened Plan
  import opened Ledger
  import opened Rollover
  import opened Attribution
  import opened Polling
  import opened Transactions
  import Storage

  function Part(closes: map<string, int>, keys: set<string>): map<string, int> {
    map k | k in closes && k in keys :: closes[k]
  }

  lemma MergedMore(pending: map<string, int>, closes: map<string, int>, done: set<string>, k: string)
    requires k in closes && k !in done
    ensures Merged(pending, Part(closes, done + {k}))
         == Merged(pending, Part(closes, done))[k := Max(ClosedOf(pending, k), closes[k])]
    ensures ClosedOf(Merged(pending, Part(closes, done)), k) == ClosedOf(pending, k)
  {
  }

  /** Keeps the later of two pending closes per key. */
  method Merge(pending: map<string, int>, closes: map<string, int>) returns (merged: map<string, int>)
    ensures merged == Merged(pending, closes)
  {
    merged := pending;
    ghost var done: set<string> := {};
    var todo := closes.Keys;
    NothingMerged(pending, closes);
    while todo != {}
      invariant todo <= closes.Keys <= done + todo && done !! todo
      invariant merged == Merged(pending, Part(closes, done))
      decreases |todo|
    {
      var k :| k in todo;
      MergedMore(pending, closes, done, k);
      var was := if k in merged then merged[k] else NONE;
      merged := merged[k := if was > closes[k] then was else closes[k]];
      done, todo := done + {k}, todo - {k};
    }
    PartAll(closes, done);
  }

  lemma PartAll(closes: map<string, int>, done: set<string>)
    requires closes.Keys <= done
    ensures Part(closes, done) == closes
  {
  }

  lemma NothingMerged(pending: map<string, int>, closes: map<string, int>)
    ensures Merged(pending, Part(closes, {})) == pending
  {
  }

  lemma NoneLeft(closes: seq<DayClose>, pending: map<string, int>, left: set<string>)
    requires ListsPending(closes, pending) && left <= pending.Keys
    requires forall j :: 0 <= j < |closes| ==> closes[j].key !in left
    ensures left == {}
  {
    forall k | k in pending
      ensures k !in left
    {
      assert DayClose(k, pending[k]) in closes;
    }
  }

  class Poller {
    const attr: DayAttributor
    const store: Storage.Store
    /** Closes not committed yet, per key. */
    var pending: map<string, int>

    ghost predicate Valid()
      reads this, attr, store
    {
      store.Valid() && attr.roll.Valid()
    }

    function Loop(): Polling.Loop
      reads this, attr
    {
      Polling.Loop(attr.State(), pending)
    }

    /** Polling's view of the loop and the store. */
    function State(last: int, clean: bool): Polling.State
      reads this, attr, store
    {
      Polling.State(Loop(), store.State(), last, clean)
    }

    constructor (roll: Time, keys: set<string>, store: Storage.Store)
      requires store.Valid() && roll.Valid()
      ensures Valid() && fresh(attr) && this.store == store && attr.roll == roll
      ensures Loop() == Polling.Loop(Fresh(keys), map[])
    {
      this.attr := new DayAttributor(roll, keys);
      this.store := store;
      this.pending := map[];
    }

    method ForceClose(now: int)
      requires Valid()
      modifies this, attr
      ensures Loop() == ForcedLoop(attr.roll, now, old(Loop()))
    {
      var closes := attr.ForceClose(now);
      pending := Merge(pending, closes);
    }

    /** The daily rows of one poll, each value given its day. */
    method Attribute(xs: seq<Reading>, now: int) returns (rows: seq<DailyRow>)
      requires Valid()
      modifies this, attr
      ensures (Loop(), rows) == ReadAll(attr.roll, now, old(Loop()), xs)
    {
      rows := [];
      ghost var start := Loop();
      for i := 0 to |xs|
        invariant Loop() == ReadAll(attr.roll, now, start, xs[..i]).0
        invariant rows == ReadAll(attr.roll, now, start, xs[..i]).1
      {
        ReadAllMore(attr.roll, now, start, xs, i);
        ghost var before := Loop();
        var x := xs[i];
        var a := attr.Attribute(x.key, x.value, now);
        if a.closed != NONE {
          var was := if x.key in pending then pending[x.key] else NONE;
          pending := pending[x.key := if was > a.closed then was else a.closed];
        }
        assert Loop() == ReadOne(attr.roll, now, before, x).0;
        if a.decision != Discard {
          rows := rows + [DailyRow(x.key, a.day, x.value)];
        }
      }
      assert xs[..|xs|] == xs;
    }

    /** The pending closes, in map order. */
    method Closes() returns (closes: seq<DayClose>)
      ensures ListsPending(closes, pending)
    {
      closes := [];
      var todo := pending.Keys;
      while todo != {}
        invariant todo <= pending.Keys
        invariant forall c :: c in closes ==> c.key in pending && c.day == pending[c.key]
        invariant forall k :: k in pending && k !in todo ==> DayClose(k, pending[k]) in closes
        decreases todo
      {
        var k :| k in todo;
        closes := closes + [DayClose(k, pending[k])];
        todo := todo - {k};
      }
    }

    /** One transaction of rows and pending closes; once committed, the closes are dropped. */
    method Write(rows: seq<DailyRow>, changes: seq<StatusRow>, closes: seq<DayClose>, commits: bool)
      returns (rejected: seq<Rejection>)
      requires Valid() && ListsPending(closes, pending)
      modifies this, store
      ensures Valid()
      ensures commits ==>
        && pending == map[] && store.State() == ApplyPoll(store.reg, old(store.State()), rows, closes)
        && rejected == DailyRejections(store.reg, old(store.meta), rows) + StatusRejections(store.reg, changes)
                       + CloseRejections(store.reg, closes)
      ensures !commits ==> pending == old(pending) && store.State() == old(store.State()) && rejected == []
    {
      var r := store.WritePoll(rows, changes, closes, commits);
      if r.RolledBack? {
        return [];
      }
      var left := pending;
      for i := 0 to |closes|
        invariant left.Keys <= old(pending).Keys && forall j :: 0 <= j < i ==> closes[j].key !in left
      {
        left := left - {closes[i].key};
      }
      NoneLeft(closes, old(pending), left.Keys);
      pending := left;
      rejected := r.value;
    }

    /** One poll, from its readings to its write, is one step of Polling. */
    method Persist(xs: seq<Reading>, changes: seq<StatusRow>, now: int, commits: bool,
      ghost last: int, ghost clean: bool)
      returns (rows: seq<DailyRow>, closes: seq<DayClose>, rejected: seq<Rejection>)
      requires Valid()
      modifies this, attr, store
      ensures Valid()
      ensures ListsPending(closes, Polled(attr.roll, old(State(last, clean)), now, xs).0.pending)
      ensures rows == Polled(attr.roll, old(State(last, clean)), now, xs).1
      ensures State(now, clean && commits)
        == Step(store.reg, attr.roll, old(State(last, clean)), Poll(now, xs, closes, commits))
    {
      ForceClose(now);
      rows := Attribute(xs, now);
      closes := Closes();
      rejected := Write(rows, changes, closes, commits);
    }

    /** An outage still writes the closes that are due. */
    method CloseDisconnected(now: int, commits: bool, ghost last: int, ghost clean: bool)
      returns (closes: seq<DayClose>)
      requires Valid()
      modifies this, attr, store
      ensures Valid() && ListsPending(closes, ForcedLoop(attr.roll, now, old(Loop())).pending)
      ensures State(now, clean && (commits || closes == []))
        == Step(store.reg, attr.roll, old(State(last, clean)), Down(now, closes, commits))
    {
      ForceClose(now);
      closes := Closes();
      assert closes == [] <==> pending == map[] by {
        if k :| k in pending { assert DayClose(k, pending[k]) in closes; }
        if closes != [] { assert closes[0] in closes; }
      }
      if closes == [] {
        assert CloseDays(store.reg, store.meta, closes) == store.meta;
        return;
      }
      var _ := Write([], [], closes, commits);
    }

    /** A new process takes up its keys where the store left them; days closed for some keys
        and missed for others become pending. */
    method Seed(now: int, ghost keys: set<string>)
      requires Valid() && Loop() == Polling.Loop(Fresh(keys), map[])
      modifies this, attr
      ensures Valid() && State(now, true) == Started(attr.roll, keys, store.State(), now)
    {
      var missed := attr.Seed(now, store.rows, store.meta.closedDaily);
      pending := Merge(pending, missed);
      assert Merged(map[], missed) == missed;
    }
  }
}
