/** Stored rows, daily sums and the period math on them (internal/aggregation/aggregation.go,
    SumDaily in internal/storage/aggregator_store.go). Energy is an integer number of 0.1 kWh. */
module Energy {
  import opened Registers

  /** One row of daily_values, monthly_values, yearly_values or total_values. */
  datatype Cell = Cell(level: Level, key: string, period: int)

  type Rows = map<Cell, int>

  predicate SameCell(a: Rows, b: Rows, c: Cell) {
    (c in a <==> c in b) && (c in a ==> a[c] == b[c])
  }

  type Values = map<string, int>

  function Get(v: Values, k: string): int {
    if k in v then v[k] else 0
  }

  function At(rows: Rows, key: string, day: int): int {
    if Cell(Daily, key, day) in rows then rows[Cell(Daily, key, day)] else 0
  }

  /** The daily rows of key with from <= day <= to, summed. */
  function Sum(rows: Rows, key: string, first: int, last: int): int
    decreases last - first
  {
    if last < first then 0 else Sum(rows, key, first, last - 1) + At(rows, key, last)
  }

  lemma {:induction false} SumSplit(rows: Rows, key: string, a: int, b: int, c: int)
    requires a - 1 <= b <= c
    ensures Sum(rows, key, a, c) == Sum(rows, key, a, b) + Sum(rows, key, b + 1, c)
    decreases c - b
  {
    if b < c {
      SumSplit(rows, key, a, b, c - 1);
    }
  }

  lemma {:induction false} SumAgrees(r: Rows, s: Rows, key: string, first: int, last: int)
    requires forall d :: first <= d <= last ==> At(r, key, d) == At(s, key, d)
    ensures Sum(r, key, first, last) == Sum(s, key, first, last)
    decreases last - first
  {
    if first <= last {
      SumAgrees(r, s, key, first, last - 1);
    }
  }

  lemma {:induction false} SumGrows(r: Rows, s: Rows, key: string, first: int, last: int, more: int)
    requires last <= more
    requires forall d :: first <= d ==> 0 <= At(r, key, d) <= At(s, key, d)
    ensures Sum(r, key, first, last) <= Sum(s, key, first, more)
    decreases more - first
  {
    if first <= more {
      SumGrows(r, s, key, first, if last == more then last - 1 else last, more - 1);
    }
  }

  /** No two edges compute the same key. */
  ghost predicate Functional(edges: seq<Edge>) {
    forall e, f :: e in edges && f in edges && e.target == f.target ==> e == f
  }

  /** Each target gets the sum of its source; a missing sum counts as 0. */
  function ApplyEdges(edges: seq<Edge>, sums: Values): Values {
    if edges == [] then map[]
    else
      var n := |edges| - 1;
      ApplyEdges(edges[..n], sums)[edges[n].target := Get(sums, edges[n].source)]
  }

  lemma {:induction false} EdgesApplied(edges: seq<Edge>, sums: Values)
    requires Functional(edges)
    ensures forall e :: e in edges ==>
      e.target in ApplyEdges(edges, sums) && ApplyEdges(edges, sums)[e.target] == Get(sums, e.source)
    ensures forall k :: k in ApplyEdges(edges, sums) ==> exists e :: e in edges && e.target == k
  {
    if edges != [] {
      var n := |edges| - 1;
      EdgesApplied(edges[..n], sums);
      assert edges == edges[..n] + [edges[n]];
    }
  }

  method ComputeEdges(edges: seq<Edge>, sums: Values) returns (out: Values)
    ensures out == ApplyEdges(edges, sums)
  {
    out := map[];
    for i := 0 to |edges|
      invariant out == ApplyEdges(edges[..i], sums)
    {
      assert edges[..i + 1][..i] == edges[..i];
      out := out[edges[i].target := if edges[i].source in sums then sums[edges[i].source] else 0];
    }
    assert edges[..|edges|] == edges;
  }

  /** target = exported - imported for every pair with both present. */
  function ApplyNet(pairs: seq<NetPair>, values: Values): Values {
    if pairs == [] then map[]
    else
      var n := |pairs| - 1;
      var out := ApplyNet(pairs[..n], values);
      if pairs[n].exported in values && pairs[n].imported in values
      then out[pairs[n].target := values[pairs[n].exported] - values[pairs[n].imported]]
      else out
  }

  ghost predicate OnePerTarget(pairs: seq<NetPair>) {
    forall p, q :: p in pairs && q in pairs && p.target == q.target ==> p == q
  }

  lemma {:induction false} NetApplied(pairs: seq<NetPair>, values: Values)
    requires OnePerTarget(pairs)
    ensures forall p :: p in pairs && p.exported in values && p.imported in values ==>
      && p.target in ApplyNet(pairs, values)
      && ApplyNet(pairs, values)[p.target] == values[p.exported] - values[p.imported]
    ensures forall k :: k in ApplyNet(pairs, values) ==> exists p :: p in pairs && p.target == k
  {
    if pairs != [] {
      var n := |pairs| - 1;
      NetApplied(pairs[..n], values);
      assert pairs == pairs[..n] + [pairs[n]];
    }
  }

  method ComputeNet(pairs: seq<NetPair>, values: Values) returns (out: Values)
    ensures out == ApplyNet(pairs, values)
  {
    out := map[];
    for i := 0 to |pairs|
      invariant out == ApplyNet(pairs[..i], values)
    {
      assert pairs[..i + 1][..i] == pairs[..i];
      if pairs[i].exported in values && pairs[i].imported in values {
        out := out[pairs[i].target := values[pairs[i].exported] - values[pairs[i].imported]];
      }
    }
    assert pairs[..|pairs|] == pairs;
  }

  /** total = baseline of the target + rows since the last folded year. */
  function Totals(edges: seq<Edge>, baseline: Values, since: Values): Values {
    if edges == [] then map[]
    else
      var n := |edges| - 1;
      Totals(edges[..n], baseline, since)
        [edges[n].target := Get(baseline, edges[n].target) + Get(since, edges[n].source)]
  }

  lemma {:induction false} TotalsApplied(edges: seq<Edge>, baseline: Values, since: Values)
    requires Functional(edges)
    ensures forall e :: e in edges ==>
      && e.target in Totals(edges, baseline, since)
      && Totals(edges, baseline, since)[e.target]
           == Get(baseline, e.target) + Get(since, e.source)
    ensures forall k :: k in Totals(edges, baseline, since) ==> exists e :: e in edges && e.target == k
  {
    if edges != [] {
      var n := |edges| - 1;
      TotalsApplied(edges[..n], baseline, since);
      assert edges == edges[..n] + [edges[n]];
    }
  }

  method ComputeTotals(edges: seq<Edge>, baseline: Values, since: Values) returns (out: Values)
    ensures out == Totals(edges, baseline, since)
  {
    out := map[];
    for i := 0 to |edges|
      invariant out == Totals(edges[..i], baseline, since)
    {
      var e := edges[i];
      assert edges[..i + 1][..i] == edges[..i];
      var base, rest := 0, 0;
      if e.target in baseline { base := baseline[e.target]; }
      if e.source in since { rest := since[e.source]; }
      out := out[e.target := base + rest];
    }
    assert edges[..|edges|] == edges;
  }

  /** The baseline after adding a closed year. */
  function Folded(baseline: Values, add: Values): Values {
    map k | k in baseline.Keys + add.Keys :: Get(baseline, k) + Get(add, k)
  }

  method Fold(baseline: Values, add: Values) returns (out: Values)
    ensures out == Folded(baseline, add)
  {
    out := baseline;
    var todo := add.Keys;
    while todo != {}
      invariant todo <= add.Keys
      invariant out.Keys == baseline.Keys + (add.Keys - todo)
      invariant forall k :: k in out ==>
        out[k] == if k in todo then Get(baseline, k) else Get(baseline, k) + Get(add, k)
      decreases todo
    {
      var k :| k in todo;
      out := out[k := (if k in out then out[k] else 0) + add[k]];
      todo := todo - {k};
    }
  }

  /** values with the offset of each of its keys added; no key is created. */
  function WithOffsets(values: Values, offsets: Values): Values {
    map k | k in values :: values[k] + Get(offsets, k)
  }

  method AddOffsets(values: Values, offsets: Values) returns (out: Values)
    ensures out == WithOffsets(values, offsets)
  {
    out := map[];
    var todo := values.Keys;
    while todo != {}
      invariant todo <= values.Keys
      invariant out.Keys == values.Keys - todo
      invariant forall k :: k in out ==> out[k] == values[k] + Get(offsets, k)
      decreases todo
    {
      var k :| k in todo;
      out := out[k := values[k] + (if k in offsets then offsets[k] else 0)];
      todo := todo - {k};
    }
  }
}
