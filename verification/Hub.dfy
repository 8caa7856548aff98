/** The WebSocket hub's per-client diff state (internal/websocket/hub.go): what a client
    rebuilds from the frames it was sent is exactly what the hub believes it has. */
module Hub {

  const MAX_CLIENTS := 256
  const MAX_KEYS := 256

  /** What is compared between two pushes: the rounded value and the decoded status. */
  datatype Pushed = Pushed(value: int, status: string)

  type Values = map<string, Pushed>

  datatype Frame =
    | Snapshot(values: Values)
    | Update(changed: Values, removed: set<string>)
    | Error(keys: seq<string>)
    | Pong

  /** What a client has seen: the frames queued for it, and the keys it gave up. */
  datatype Item = Sent(f: Frame) | GaveUp(keys: set<string>)

  function Applied(held: Values, x: Item): Values {
    match x
    case GaveUp(keys) => held - keys
    case Sent(f) =>
      match f
      case Snapshot(vs) => held + vs
      case Update(vs, removed) => (held + vs) - removed
      case Error(_) => held
      case Pong => held
  }

  /** The values a client holds after replaying what it has seen. */
  function Replay(trace: seq<Item>): Values {
    if trace == [] then map[] else Applied(Replay(trace[..|trace| - 1]), trace[|trace| - 1])
  }

  lemma ReplayMore(trace: seq<Item>, x: Item)
    ensures Replay(trace + [x]) == Applied(Replay(trace), x)
  {
    assert (trace + [x])[..|trace|] == trace;
  }

  function Restrict(cache: Values, keys: set<string>): Values {
    map k | k in cache && k in keys :: cache[k]
  }

  function KeySet(keys: seq<string>): set<string> {
    set k | k in keys
  }

  /** The hub's state of one client, and what the client has seen. */
  datatype Client = Client(subs: set<string>, last: Values, seen: seq<Item>)

  const NEW_CLIENT := Client({}, map[], [])

  /** The books match: replaying what the client has seen gives the values the hub recorded
      as pushed, all of them for keys the client subscribes to. */
  predicate Matches(c: Client) {
    Replay(c.seen) == c.last && c.last.Keys <= c.subs
  }

  datatype Message = Subscribe(keys: seq<string>) | Unsubscribe(keys: seq<string>) | Ping | Other(keys: seq<string>)

  function KeysOf(m: Message): seq<string> {
    if m.Ping? then [] else m.keys
  }

  /** The changed and the removed subscribed keys, and the new record. */
  method Diff(c: Client, cache: Values) returns (changed: Values, removed: set<string>, last: Values)
    requires c.last.Keys <= c.subs
    ensures last == Restrict(cache, c.subs)
    ensures changed == map k | k in last && !(k in c.last && c.last[k] == last[k]) :: last[k]
    ensures removed == c.last.Keys - last.Keys
  {
    changed, removed, last := map[], {}, c.last;
    var todo := c.subs;
    while todo != {}
      invariant todo <= c.subs
      invariant last.Keys <= c.subs
      invariant forall k :: k in todo ==> (k in last <==> k in c.last) && (k in last ==> last[k] == c.last[k])
      invariant forall k :: k in c.subs && k !in todo ==>
        (k in last <==> k in cache) && (k in last ==> last[k] == cache[k])
      invariant forall k :: k in changed <==> k in last && k !in todo && !(k in c.last && c.last[k] == last[k])
      invariant forall k :: k in changed ==> changed[k] == last[k]
      invariant forall k :: k in removed <==> k in c.last && k !in todo && k !in last
      decreases todo
    {
      var k :| k in todo;
      todo := todo - {k};
      if k !in cache {
        if k in last {
          last := last - {k};
          removed := removed + {k};
        }
      } else if !(k in last && last[k] == cache[k]) {
        last := last[k := cache[k]];
        changed := changed[k := cache[k]];
      }
    }
  }

  /** The keys a subscribe adds, and the ones no register has. */
  method NewKeys(subs: set<string>, keys: seq<string>, known: set<string>)
    returns (added: set<string>, unknown: seq<string>)
    ensures added == (KeySet(keys) * known) - subs
    ensures unknown == [] <==> KeySet(keys) <= known
  {
    added, unknown := {}, [];
    for i := 0 to |keys|
      invariant added == (KeySet(keys[..i]) * known) - subs
      invariant unknown == [] <==> KeySet(keys[..i]) <= known
    {
      KeySetMore(keys, i);
      if keys[i] !in known {
        unknown := unknown + [keys[i]];
      } else if keys[i] !in subs && keys[i] !in added {
        added := added + {keys[i]};
      }
    }
    assert keys[..|keys|] == keys;
  }

  /** Applying the diff to what the client held gives the new record. */
  lemma DiffApplies(old': Values, last: Values, changed: Values, removed: set<string>)
    requires changed == map k | k in last && !(k in old' && old'[k] == last[k]) :: last[k]
    requires removed == old'.Keys - last.Keys
    ensures (old' + changed) - removed == last
    ensures changed == map[] && removed == {} ==> last == old'
  {
    assert forall k :: k in last && !(k in old' && old'[k] == last[k]) ==> k in changed;
  }

  class Hub {
    const known: set<string>
    var clients: map<nat, Client>

    predicate Valid()
      reads this
    {
      forall c :: c in clients ==> Matches(clients[c])
    }

    constructor (known: set<string>)
      ensures Valid() && this.known == known && clients == map[]
    {
      this.known, this.clients := known, map[];
    }

    method Register(c: nat) returns (ok: bool)
      requires Valid() && c !in clients
      modifies this
      ensures Valid() && ok == (|old(clients)| < MAX_CLIENTS)
      ensures clients == if ok then old(clients)[c := NEW_CLIENT] else old(clients)
    {
      ok := |clients| < MAX_CLIENTS;
      if ok {
        clients := clients[c := NEW_CLIENT];
      }
    }

    /** Queues a frame; a full buffer disconnects the client. */
    method Send(c: nat, f: Frame, fits: bool)
      requires c in clients
      modifies this
      ensures clients == if fits then old(clients)[c := old(clients)[c].(seen := old(clients)[c].seen + [Sent(f)])]
                         else old(clients) - {c}
    {
      if !fits {
        clients := clients - {c};
        return;
      }
      clients := clients[c := clients[c].(seen := clients[c].seen + [Sent(f)])];
    }

    /** One command; the flags say whether the client's buffer still takes its first and
        its second frame. Other clients are not touched. */
    method Handle(c: nat, m: Message, cache: Values, first: bool, second: bool)
      requires Valid()
      modifies this
      ensures Valid() && forall d :: d != c ==>
        (d in clients <==> d in old(clients)) && (d in clients ==> clients[d] == old(clients)[d])
      ensures c in clients <==> c in old(clients) && Answered(m, known, first, second)
      ensures c in clients ==>
        && clients[c].subs == SubsAfter(old(clients)[c].subs, m, known)
        && clients[c].last == LastAfter(old(clients)[c], m, known, cache)
    {
      if c !in clients {
        return;
      }
      var st := clients[c];
      if |KeysOf(m)| > MAX_KEYS {
        ReplayMore(st.seen, Sent(Error([])));
        Send(c, Error([]), first);
        return;
      }
      match m
      case Subscribe(keys) => SubscribeKeys(c, keys, cache, first, second);
      case Unsubscribe(keys) =>
        var gone := KeySet(keys);
        ReplayMore(st.seen, GaveUp(gone));
        clients := clients[c := Client(st.subs - gone, st.last - gone, st.seen + [GaveUp(gone)])];
      case Ping =>
        ReplayMore(st.seen, Sent(Pong));
        Send(c, Pong, first);
      case Other(_) =>
        ReplayMore(st.seen, Sent(Error([])));
        Send(c, Error([]), first);
    }

    /** Adds known keys and answers with a snapshot of the new ones. */
    method SubscribeKeys(c: nat, keys: seq<string>, cache: Values, first: bool, second: bool)
      requires Valid() && c in clients
      modifies this
      ensures Valid() && forall d :: d != c ==>
        (d in clients <==> d in old(clients)) && (d in clients ==> clients[d] == old(clients)[d])
      ensures c in clients <==> (KeySet(keys) <= known || first) && second
      ensures c in clients ==>
        && clients[c].subs == old(clients)[c].subs + (KeySet(keys) * known)
        && clients[c].last == old(clients)[c].last + Restrict(cache, (KeySet(keys) * known) - old(clients)[c].subs)
    {
      var st := clients[c];
      var added, unknown := NewKeys(st.subs, keys, known);
      if unknown != [] {
        Send(c, Error(unknown), first);
        if !first {
          return;
        }
      }
      var snap := Restrict(cache, added);
      ghost var told := clients[c].seen;
      SnapshotMatches(st, unknown, told, added, snap, KeySet(keys) * known);
      clients := clients[c := clients[c].(subs := st.subs + added, last := st.last + snap)];
      Send(c, Snapshot(snap), second);
    }

    /** One frame per client whose subscribed values changed, which disconnects it when its
        buffer is full. Afterwards every client still there holds exactly the current values of
        its keys. */
    method Flush(cache: Values, full: set<nat>)
      requires Valid()
      modifies this
      ensures Valid() && clients.Keys <= old(clients).Keys
      ensures forall c :: c in old(clients) ==> (c in clients <==> c !in full || UpToDate(old(clients)[c], cache))
      ensures forall c :: c in clients ==> Flushed(old(clients)[c], clients[c], cache)
    {
      ghost var start := clients;
      var todo := clients.Keys;
      while todo != {}
        invariant Valid() && todo <= clients.Keys <= start.Keys
        invariant forall c :: c in todo ==> clients[c] == start[c]
        invariant forall c :: c in start && c !in todo ==> (c in clients <==> c !in full || UpToDate(start[c], cache))
        invariant forall c :: c in clients && c !in todo ==> Flushed(start[c], clients[c], cache)
        decreases todo
      {
        var c :| c in todo;
        FlushOne(c, cache, c !in full);
        todo := todo - {c};
      }
    }

    method FlushOne(c: nat, cache: Values, fits: bool)
      requires Valid() && c in clients
      modifies this
      ensures Valid() && forall d :: d != c ==>
        (d in clients <==> d in old(clients)) && (d in clients ==> clients[d] == old(clients)[d])
      ensures c in clients <==> fits || UpToDate(old(clients)[c], cache)
      ensures c in clients ==> Flushed(old(clients)[c], clients[c], cache)
    {
      var st := clients[c];
      var changed, removed, last := Diff(st, cache);
      NothingToSend(st, last, changed, removed);
      UpdateMatches(st, last, changed, removed);
      clients := clients[c := st.(last := last)];
      if changed != map[] || removed != {} {
        Send(c, Update(changed, removed), fits);
      }
    }
  }

  /** A client told of a snapshot of its new keys has its books in order. */
  lemma SnapshotMatches(
    st: Client, unknown: seq<string>, told: seq<Item>, added: set<string>, snap: Values, wanted: set<string>)
    requires Matches(st) && added == wanted - st.subs && snap.Keys <= added
    requires told == st.seen || told == st.seen + [Sent(Error(unknown))]
    ensures Matches(Client(st.subs + added, st.last + snap, told + [Sent(Snapshot(snap))]))
    ensures st.subs + added == st.subs + wanted
  {
    ReplayMore(st.seen, Sent(Error(unknown)));
    ReplayMore(told, Sent(Snapshot(snap)));
  }

  /** A client told of the changes to its keys has its books in order. */
  lemma UpdateMatches(st: Client, last: Values, changed: Values, removed: set<string>)
    requires Matches(st) && last.Keys <= st.subs
    requires changed == map k | k in last && !(k in st.last && st.last[k] == last[k]) :: last[k]
    requires removed == st.last.Keys - last.Keys
    ensures Matches(Client(st.subs, last, st.seen + [Sent(Update(changed, removed))]))
  {
    DiffApplies(st.last, last, changed, removed);
    ReplayMore(st.seen, Sent(Update(changed, removed)));
  }

  /** The client's record already is what the cache says about its keys. */
  predicate UpToDate(c: Client, cache: Values) {
    c.last == Restrict(cache, c.subs)
  }

  /** The client now holds the current values of its keys, and was sent one frame for it if
      they had changed. */
  predicate Flushed(c: Client, c': Client, cache: Values) {
    && c'.subs == c.subs && c'.last == Restrict(cache, c.subs)
    && |c'.seen| == |c.seen| + if UpToDate(c, cache) then 0 else 1
  }

  lemma NothingToSend(c: Client, last: Values, changed: Values, removed: set<string>)
    requires changed == map k | k in last && !(k in c.last && c.last[k] == last[k]) :: last[k]
    requires removed == c.last.Keys - last.Keys
    ensures changed == map[] && removed == {} <==> c.last == last
  {
    if changed == map[] && removed == {} {
      DiffApplies(c.last, last, changed, removed);
    }
  }

  /** Every frame a command is answered with finds room in the client's buffer. */
  predicate Answered(m: Message, known: set<string>, first: bool, second: bool) {
    if |KeysOf(m)| > MAX_KEYS then first
    else
      match m
      case Subscribe(keys) => (KeySet(keys) <= known || first) && second
      case Unsubscribe(_) => true
      case Ping => first
      case Other(_) => first
  }

  /** The record of a client after a command: new keys come with their current values. */
  function LastAfter(c: Client, m: Message, known: set<string>, cache: Values): Values {
    if |KeysOf(m)| > MAX_KEYS then c.last
    else
      match m
      case Subscribe(keys) => c.last + Restrict(cache, (KeySet(keys) * known) - c.subs)
      case Unsubscribe(keys) => c.last - KeySet(keys)
      case Ping => c.last
      case Other(_) => c.last
  }

  function SubsAfter(subs: set<string>, m: Message, known: set<string>): set<string> {
    if |KeysOf(m)| > MAX_KEYS then subs
    else
      match m
      case Subscribe(keys) => subs + (KeySet(keys) * known)
      case Unsubscribe(keys) => subs - KeySet(keys)
      case Ping => subs
      case Other(_) => subs
  }

  lemma KeySetMore(keys: seq<string>, i: nat)
    requires i < |keys|
    ensures KeySet(keys[..i + 1]) == KeySet(keys[..i]) + {keys[i]}
  {
    assert keys[..i + 1] == keys[..i] + [keys[i]];
  }
}
