/** Building and validating the register table (internal/solis/registry.go): a table is
    accepted exactly when it is well formed, and what it guarantees then. */
module Validation {
  import opened Registers
  import opened Blocks

  // ---- what a well-formed table is ----

  predicate RegisterOk(r: Register) {
    && r.key != "" && r.scale != 0.0
    && After(r) <= ADDRESS_SPACE
    && (r.net ==> !r.Polled() && r.store.Energy())
    && (r.Computed() ==> !r.Polled())
    && (r.NeedsAddress() ==> r.Polled())
  }

  predicate Overlap(r: Register, q: Register) {
    First(r) < After(q) && First(q) < After(r)
  }

  ghost predicate TableOk(regs: seq<Register>) {
    && (forall r :: r in regs ==> RegisterOk(r))
    && (forall i, j :: 0 <= i < j < |regs| ==> regs[i].key != regs[j].key)
    && (forall i, j :: 0 <= i < j < |regs| && regs[i].Polled() && regs[j].Polled() ==> !Overlap(regs[i], regs[j]))
  }

  /** How many edges and net pairs define a key. */
  function EdgeCount(edges: seq<Edge>, key: string): nat {
    if edges == [] then 0
    else EdgeCount(edges[..|edges| - 1], key) + (if edges[|edges| - 1].target == key then 1 else 0)
  }

  function NetCount(nets: seq<NetPair>, key: string): nat {
    if nets == [] then 0 else NetCount(nets[..|nets| - 1], key) + (if nets[|nets| - 1].target == key then 1 else 0)
  }

  ghost predicate DefinitionsOk(r: Registry) {
    && (forall e :: e in r.edges ==> r.EdgeOk(e))
    && (forall n :: n in r.nets ==> r.NetOk(n))
    && (forall k :: k in r.byKey && r.byKey[k].Computed() ==> EdgeCount(r.edges, k) + NetCount(r.nets, k) == 1)
  }

  /** Every source of a total also feeds a yearly value. */
  ghost predicate TotalsOk(r: Registry) {
    forall e :: e in r.edges && e.level == Total ==>
      exists y :: y in r.edges && y.level == Yearly && y.source == e.source
  }

  // ---- indexing ----

  ghost predicate Indexed(regs: seq<Register>, byKey: map<string, Register>, byAddr: map<Word, Register>) {
    && (forall r :: r in regs ==> RegisterOk(r))
    && (forall i, j :: 0 <= i < j < |regs| ==> regs[i].key != regs[j].key)
    && (forall i, j :: 0 <= i < j < |regs| && regs[i].Polled() && regs[j].Polled() ==>
          regs[i].address != regs[j].address)
    && (forall r :: r in regs ==> r.key in byKey && byKey[r.key] == r)
    && (forall k :: k in byKey ==> byKey[k] in regs && byKey[k].key == k)
    && (forall r :: r in regs && r.Polled() ==> r.address in byAddr && byAddr[r.address] == r)
    && (forall a :: a in byAddr ==> byAddr[a] in regs && byAddr[a].address == a && byAddr[a].Polled())
  }

  method Index(regs: seq<Register>) returns (ok: bool, byKey: map<string, Register>, byAddr: map<Word, Register>)
    ensures ok ==> Indexed(regs, byKey, byAddr)
    ensures !ok ==> !TableOk(regs)
  {
    byKey, byAddr := map[], map[];
    for i := 0 to |regs|
      invariant Indexed(regs[..i], byKey, byAddr)
    {
      var reg := regs[i];
      assert regs[..i + 1] == regs[..i] + [reg];
      assert reg in regs;
      if !RegisterOk(reg) {
        return false, byKey, byAddr;
      }
      if reg.key in byKey {
        SeenBefore(regs, i, byKey[reg.key]);
        return false, byKey, byAddr;
      }
      if reg.Polled() && reg.address in byAddr {
        SeenBefore(regs, i, byAddr[reg.address]);
        return false, byKey, byAddr;
      }
      IndexMore(regs[..i], byKey, byAddr, reg);
      byKey := byKey[reg.key := reg];
      if reg.Polled() {
        byAddr := byAddr[reg.address := reg];
      }
    }
    assert regs[..|regs|] == regs;
    ok := true;
  }

  lemma SeenBefore(regs: seq<Register>, i: nat, r: Register)
    requires i < |regs| && r in regs[..i]
    ensures exists j :: 0 <= j < i && regs[j] == r
  {
    var j :| 0 <= j < i && regs[..i][j] == r;
    assert regs[j] == r;
  }

  lemma IndexMore(before: seq<Register>, byKey: map<string, Register>, byAddr: map<Word, Register>, reg: Register)
    requires Indexed(before, byKey, byAddr) && RegisterOk(reg) && reg.key !in byKey
    requires reg.Polled() ==> reg.address !in byAddr
    ensures Indexed(before + [reg], byKey[reg.key := reg], if reg.Polled() then byAddr[reg.address := reg] else byAddr)
  {
    var all := before + [reg];
    forall i, j | 0 <= i < j < |all|
      ensures all[i].key != all[j].key
      ensures all[i].Polled() && all[j].Polled() ==> all[i].address != all[j].address
    {
      assert all[i] == before[i] && before[i] in before;
    }
  }

  // ---- overlaps ----

  predicate Ascending(regs: seq<Register>) {
    forall i, j :: 0 <= i < j < |regs| ==> First(regs[i]) <= First(regs[j])
  }

  function Insert(regs: seq<Register>, r: Register): (s: seq<Register>)
    requires Ascending(regs)
    ensures Ascending(s) && |s| == |regs| + 1 && forall x :: x in s <==> x in regs || x == r
  {
    if regs == [] || First(regs[|regs| - 1]) <= First(r) then regs + [r]
    else
      var n := |regs| - 1;
      var front := Insert(regs[..n], r);
      assert forall x :: x in front ==> First(x) <= First(regs[n]) by {
        forall x | x in front ensures First(x) <= First(regs[n]) {
          if x != r { var i :| 0 <= i < n && regs[i] == x; }
        }
      }
      assert regs == regs[..n] + [regs[n]];
      front + [regs[n]]
  }

  /** The polled registers sorted by address. */
  function Polled(regs: seq<Register>): (s: seq<Register>)
    ensures Ascending(s) && forall x :: x in s <==> x in regs && x.Polled()
  {
    if regs == [] then []
    else
      var n := |regs| - 1;
      assert regs == regs[..n] + [regs[n]];
      if regs[n].Polled() then Insert(Polled(regs[..n]), regs[n]) else Polled(regs[..n])
  }

  predicate NoDuplicates(regs: seq<Register>) {
    forall i, j :: 0 <= i < j < |regs| ==> regs[i] != regs[j]
  }

  lemma InsertUnique(regs: seq<Register>, r: Register)
    requires Ascending(regs) && NoDuplicates(regs) && r !in regs
    ensures NoDuplicates(Insert(regs, r))
  {
    if !(regs == [] || First(regs[|regs| - 1]) <= First(r)) {
      var n := |regs| - 1;
      InsertUnique(regs[..n], r);
      var front := Insert(regs[..n], r);
      forall i | 0 <= i < |front|
        ensures front[i] != regs[n]
      {
        assert front[i] in front;
        if front[i] in regs[..n] {
          SeenBefore(regs, n, front[i]);
        }
      }
    }
  }

  lemma PolledUnique(regs: seq<Register>)
    requires NoDuplicates(regs)
    ensures NoDuplicates(Polled(regs))
  {
    if regs != [] {
      var n := |regs| - 1;
      PolledUnique(regs[..n]);
      if regs[n].Polled() {
        assert forall i :: 0 <= i < n ==> regs[..n][i] == regs[i] != regs[n];
        InsertUnique(Polled(regs[..n]), regs[n]);
      }
    }
  }

  /** Neighbours do not overlap. */
  predicate NeighboursApart(polled: seq<Register>) {
    forall i :: 1 <= i < |polled| ==> After(polled[i - 1]) <= First(polled[i])
  }

  /** No register reaches into the next one in address order, on 32-bit sums that do not wrap. */
  method ValidateOverlaps(polled: seq<Register>) returns (ok: bool)
    ensures ok <==> NeighboursApart(polled)
  {
    var i := 1;
    while i < |polled|
      invariant 1 <= i && forall k :: 1 <= k < i && k < |polled| ==> After(polled[k - 1]) <= First(polled[k])
    {
      if After(polled[i - 1]) > First(polled[i]) {
        return false;
      }
      i := i + 1;
    }
    ok := true;
  }

  lemma {:induction false} ApartInOrder(polled: seq<Register>, i: nat, j: nat)
    requires NeighboursApart(polled) && i < j < |polled|
    ensures After(polled[i]) <= First(polled[j])
    decreases j
  {
    if i + 1 < j {
      ApartInOrder(polled, i, j - 1);
      assert First(polled[j - 1]) < After(polled[j - 1]);
    }
  }

  /** In address order it is enough that neighbours do not overlap. */
  lemma NeighboursSuffice(regs: seq<Register>, byKey: map<string, Register>, byAddr: map<Word, Register>)
    requires Indexed(regs, byKey, byAddr)
    ensures NeighboursApart(Polled(regs)) ==> Planned(Polled(regs)) && TableOk(regs)
    ensures TableOk(regs) ==> NeighboursApart(Polled(regs))
  {
    var polled := Polled(regs);
    if NeighboursApart(polled) {
      forall i, j | 0 <= i < j < |polled|
        ensures After(polled[i]) <= First(polled[j])
      {
        ApartInOrder(polled, i, j);
      }
      forall i | 0 <= i < |polled|
        ensures 1 <= First(polled[i]) && After(polled[i]) <= ADDRESS_SPACE
      {
        assert polled[i] in polled;
      }
      ApartEverywhere(regs, polled);
    }
    if TableOk(regs) {
      KeysUnique(regs);
      PolledUnique(regs);
      forall i | 1 <= i < |polled|
        ensures After(polled[i - 1]) <= First(polled[i])
      {
        assert polled[i - 1] in polled && polled[i] in polled;
        TwoApart(regs, polled[i - 1], polled[i]);
      }
    }
  }

  lemma KeysUnique(regs: seq<Register>)
    requires forall i, j :: 0 <= i < j < |regs| ==> regs[i].key != regs[j].key
    ensures NoDuplicates(regs) && UniqueKeys(regs)
  {
  }

  lemma TwoApart(regs: seq<Register>, r: Register, q: Register)
    requires TableOk(regs) && r in regs && q in regs && r.Polled() && q.Polled() && r != q
    requires First(r) <= First(q)
    ensures After(r) <= First(q)
  {
    var i :| 0 <= i < |regs| && regs[i] == r;
    var j :| 0 <= j < |regs| && regs[j] == q;
    assert !Overlap(r, q) by {
      if i < j {
        assert !Overlap(regs[i], regs[j]);
      } else {
        assert !Overlap(regs[j], regs[i]);
      }
    }
    assert First(r) < After(q);
  }

  lemma ApartEverywhere(regs: seq<Register>, polled: seq<Register>)
    requires polled == Polled(regs) && Planned(polled)
    requires forall i, j :: 0 <= i < j < |regs| ==> regs[i].key != regs[j].key
    ensures forall i, j :: 0 <= i < j < |regs| && regs[i].Polled() && regs[j].Polled() ==> !Overlap(regs[i], regs[j])
  {
    forall i, j | 0 <= i < j < |regs| && regs[i].Polled() && regs[j].Polled()
      ensures !Overlap(regs[i], regs[j])
    {
      assert regs[i] in polled && regs[j] in polled && regs[i] != regs[j];
      if First(regs[i]) <= First(regs[j]) {
        Apart(polled, regs[i], regs[j]);
      } else {
        Apart(polled, regs[j], regs[i]);
      }
    }
  }

  // ---- definitions ----

  lemma {:induction false} CountOne(edges: seq<Edge>, i: nat, key: string)
    requires i < |edges| && edges[i].target == key
    ensures EdgeCount(edges, key) >= 1
    ensures EdgeCount(edges, key) == 1 ==> forall j :: 0 <= j < |edges| && j != i ==> edges[j].target != key
  {
    var n := |edges| - 1;
    if i < n {
      CountOne(edges[..n], i, key);
      assert forall j :: 0 <= j < n ==> edges[..n][j] == edges[j];
    } else if EdgeCount(edges[..n], key) == 0 {
      CountNone(edges[..n], key);
      assert forall j :: 0 <= j < n ==> edges[..n][j] == edges[j];
    }
  }

  lemma {:induction false} CountNone(edges: seq<Edge>, key: string)
    ensures EdgeCount(edges, key) == 0 <==> forall j :: 0 <= j < |edges| ==> edges[j].target != key
  {
    if edges != [] {
      var n := |edges| - 1;
      CountNone(edges[..n], key);
      assert forall j :: 0 <= j < n ==> edges[..n][j] == edges[j];
    }
  }

  lemma {:induction false} NetCountOne(nets: seq<NetPair>, i: nat, key: string)
    requires i < |nets| && nets[i].target == key
    ensures NetCount(nets, key) >= 1
    ensures NetCount(nets, key) == 1 ==> forall j :: 0 <= j < |nets| && j != i ==> nets[j].target != key
  {
    var n := |nets| - 1;
    if i < n {
      NetCountOne(nets[..n], i, key);
      assert forall j :: 0 <= j < n ==> nets[..n][j] == nets[j];
    } else if NetCount(nets[..n], key) == 0 {
      NetCountNone(nets[..n], key);
      assert forall j :: 0 <= j < n ==> nets[..n][j] == nets[j];
    }
  }

  lemma {:induction false} NetCountNone(nets: seq<NetPair>, key: string)
    ensures NetCount(nets, key) == 0 <==> forall j :: 0 <= j < |nets| ==> nets[j].target != key
  {
    if nets != [] {
      var n := |nets| - 1;
      NetCountNone(nets[..n], key);
      assert forall j :: 0 <= j < n ==> nets[..n][j] == nets[j];
    }
  }

  function Defined(defined: map<string, nat>, k: string): nat {
    if k in defined then defined[k] else 0
  }

  /** How often each key is defined by an edge or a net pair; None when one of them is invalid. */
  method CountDefinitions(r: Registry) returns (defined: Option<map<string, nat>>)
    ensures defined.Some? <==> (forall e :: e in r.edges ==> r.EdgeOk(e)) && (forall n :: n in r.nets ==> r.NetOk(n))
    ensures defined.Some? ==> forall k :: Defined(defined.value, k) == EdgeCount(r.edges, k) + NetCount(r.nets, k)
  {
    var counts: map<string, nat> := map[];
    for i := 0 to |r.edges|
      invariant forall j :: 0 <= j < i ==> r.EdgeOk(r.edges[j])
      invariant forall k :: Defined(counts, k) == EdgeCount(r.edges[..i], k)
    {
      assert r.edges[..i + 1][..i] == r.edges[..i];
      if !r.EdgeOk(r.edges[i]) {
        return None;
      }
      var k := r.edges[i].target;
      counts := counts[k := (if k in counts then counts[k] else 0) + 1];
    }
    assert r.edges[..|r.edges|] == r.edges;
    for i := 0 to |r.nets|
      invariant forall j :: 0 <= j < i ==> r.NetOk(r.nets[j])
      invariant forall k :: Defined(counts, k) == EdgeCount(r.edges, k) + NetCount(r.nets[..i], k)
    {
      assert r.nets[..i + 1][..i] == r.nets[..i];
      if !r.NetOk(r.nets[i]) {
        return None;
      }
      var k := r.nets[i].target;
      counts := counts[k := (if k in counts then counts[k] else 0) + 1];
    }
    assert r.nets[..|r.nets|] == r.nets;
    defined := Some(counts);
  }

  /** Every computed register has exactly one definition. */
  method ValidateComputed(regs: seq<Register>, r: Registry, ghost byAddr: map<Word, Register>) returns (ok: bool)
    requires Indexed(regs, r.byKey, byAddr)
    ensures ok <==> DefinitionsOk(r)
  {
    var defined := CountDefinitions(r);
    if defined.None? {
      return false;
    }
    for i := 0 to |regs|
      invariant forall j :: 0 <= j < i && regs[j].Computed() ==> Defined(defined.value, regs[j].key) == 1
    {
      if regs[i].Computed() && (regs[i].key !in defined.value || defined.value[regs[i].key] != 1) {
        assert regs[i] in regs && r.byKey[regs[i].key] == regs[i];
        assert Defined(defined.value, regs[i].key) != 1;
        return false;
      }
    }
    forall k | k in r.byKey && r.byKey[k].Computed()
      ensures EdgeCount(r.edges, k) + NetCount(r.nets, k) == 1
    {
      var j :| 0 <= j < |regs| && regs[j] == r.byKey[k];
      assert Defined(defined.value, k) == 1;
    }
    ok := true;
  }

  /** Every source of a total must also feed a yearly value. */
  method ValidateTotalSources(r: Registry) returns (ok: bool)
    ensures ok <==> TotalsOk(r)
  {
    var yearly: set<string> := {};
    for i := 0 to |r.edges|
      invariant forall s :: s in yearly <==>
        exists j :: 0 <= j < i && r.edges[j].level == Yearly && r.edges[j].source == s
    {
      if r.edges[i].level == Yearly {
        yearly := yearly + {r.edges[i].source};
      }
    }
    for i := 0 to |r.edges|
      invariant forall j :: 0 <= j < i && r.edges[j].level == Total ==> r.edges[j].source in yearly
    {
      if r.edges[i].level == Total && r.edges[i].source !in yearly {
        assert r.edges[i] in r.edges;
        return false;
      }
    }
    forall e | e in r.edges && e.level == Total
      ensures exists y :: y in r.edges && y.level == Yearly && y.source == e.source
    {
      var j :| 0 <= j < |r.edges| && r.edges[j] == e;
      var k :| 0 <= k < |r.edges| && r.edges[k].level == Yearly && r.edges[k].source == e.source;
      assert r.edges[k] in r.edges;
    }
    ok := true;
  }

  // ---- the table ----

  function DailyKeys(regs: seq<Register>): (keys: seq<string>)
    ensures forall k :: k in keys <==> exists r :: r in regs && r.key == k && r.PollerOwned()
  {
    if regs == [] then []
    else
      var n := |regs| - 1;
      assert regs == regs[..n] + [regs[n]];
      DailyKeys(regs[..n]) + if regs[n].PollerOwned() then [regs[n].key] else []
  }

  /** Accepts exactly the well-formed tables; what it builds is the registry
      the ledger relies on and the plan and lookup the decoder relies on. */
  method NewRegistry(regs: seq<Register>, edges: seq<Edge>, nets: seq<NetPair>)
    returns (ok: bool, r: Registry, byAddr: map<Word, Register>, polled: seq<Register>)
    ensures r.edges == edges && r.nets == nets && r.dailyKeys == DailyKeys(regs) && polled == Polled(regs)
    ensures ok <==> TableOk(regs) && DefinitionsOk(r) && TotalsOk(r)
    ensures ok ==> Indexed(regs, r.byKey, byAddr)
    ensures ok ==> r.Valid() && Planned(polled) && Indexes(byAddr, polled) && UniqueKeys(polled)
    ensures ok ==> forall k :: k in r.byKey && r.byKey[k].net ==> exists n :: n in nets && n.target == k
  {
    var byKey;
    polled := Polled(regs);
    ok, byKey, byAddr := Index(regs);
    r := Registry(byKey, DailyKeys(regs), edges, nets);
    if !ok { return; }
    NeighboursSuffice(regs, byKey, byAddr);
    ok := ValidateOverlaps(polled);
    if !ok { return; }
    ok := ValidateComputed(regs, r, byAddr);
    if !ok { return; }
    ok := ValidateTotalSources(r);
    if !ok { return; }
    KeysUnique(regs);
    RegistryValid(regs, r, byAddr);
  }

  lemma RegistryValid(regs: seq<Register>, r: Registry, byAddr: map<Word, Register>)
    requires Indexed(regs, r.byKey, byAddr) && DefinitionsOk(r) && TotalsOk(r) && r.dailyKeys == DailyKeys(regs)
    ensures r.Valid()
    ensures forall k :: k in r.byKey && r.byKey[k].net ==> exists n :: n in r.nets && n.target == k
  {
    forall i, j | 0 <= i < j < |r.edges|
      ensures r.edges[i].target != r.edges[j].target
    {
      assert r.edges[i] in r.edges && r.EdgeOk(r.edges[i]);
      CountOne(r.edges, i, r.edges[i].target);
    }
    forall i, j | 0 <= i < j < |r.nets|
      ensures r.nets[i].target != r.nets[j].target
    {
      assert r.nets[i] in r.nets && r.NetOk(r.nets[i]);
      NetCountOne(r.nets, i, r.nets[i].target);
    }
    forall k | k in r.byKey && r.byKey[k].Computed() && !r.byKey[k].net
      ensures exists e :: e in r.edges && e.target == k
    {
      DefinedByEdge(r, k);
    }
    forall k | k in r.byKey && r.byKey[k].net
      ensures exists n :: n in r.nets && n.target == k
    {
      DefinedByPair(r, k);
    }
  }

  lemma DefinedByPair(r: Registry, k: string)
    requires DefinitionsOk(r) && k in r.byKey && r.byKey[k].net
    ensures exists n :: n in r.nets && n.target == k
  {
    CountNone(r.edges, k);
    forall j | 0 <= j < |r.edges|
      ensures r.edges[j].target != k
    {
      assert r.edges[j] in r.edges && r.EdgeOk(r.edges[j]);
    }
    NetCountNone(r.nets, k);
    var j :| 0 <= j < |r.nets| && r.nets[j].target == k;
    assert r.nets[j] in r.nets;
  }

  lemma DefinedByEdge(r: Registry, k: string)
    requires DefinitionsOk(r) && k in r.byKey && r.byKey[k].Computed() && !r.byKey[k].net
    ensures exists e :: e in r.edges && e.target == k
  {
    NetCountNone(r.nets, k);
    forall j | 0 <= j < |r.nets|
      ensures r.nets[j].target != k
    {
      assert r.nets[j] in r.nets && r.NetOk(r.nets[j]);
    }
    CountNone(r.edges, k);
    var j :| 0 <= j < |r.edges| && r.edges[j].target == k;
    assert r.edges[j] in r.edges;
  }
}
