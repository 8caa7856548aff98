/** The register model (internal/solis/types.go, registry.go): what every other module
    needs to know about a key. */
module Registers {

  datatype Option<+T> = None | Some(value: T)

  datatype Level = Daily | Monthly | Yearly | Total

  datatype DataType = Uint16 | Int16 | Uint32 | Int32 | Float32 | Bool {
    /** 16-bit registers the type occupies. */
    function Count(): nat {
      if Uint32? || Int32? || Float32? then 2 else 1
    }
  }

  datatype Store = StoreNone | StoreDaily | StoreMonthly | StoreYearly | StoreTotal | StoreStatus {
    predicate Energy() {
      StoreDaily? || StoreMonthly? || StoreYearly? || StoreTotal?
    }
  }

  function StoreForLevel(l: Level): Store {
    match l
    case Daily => StoreDaily
    case Monthly => StoreMonthly
    case Yearly => StoreYearly
    case Total => StoreTotal
  }

  /** The number of Modbus register addresses. */
  const ADDRESS_SPACE := 0x1_0000

  newtype Word = x: int | 0 <= x < 0x1_0000

  /** One register key; address 0 means the value is not read from the inverter. */
  datatype Register = Register(
    key: string, address: Word, dataType: DataType, scale: real, store: Store, net: bool)
  {
    function Count(): nat {
      dataType.Count()
    }

    predicate Polled() {
      address != 0
    }

    /** The aggregator produces the value. */
    predicate Computed() {
      store.StoreMonthly? || store.StoreYearly? || store.StoreTotal? || net
    }

    predicate NeedsAddress() {
      store.StoreStatus? || (store.StoreDaily? && !net)
    }

    /** A non-net daily counter: what the poller may write. */
    predicate PollerOwned() {
      store.StoreDaily? && !net
    }
  }

  /** target = sum of the daily rows of source over a period of the level. */
  datatype Edge = Edge(level: Level, source: string, target: string)

  /** target = exported - imported, all three at one level. */
  datatype NetPair = NetPair(level: Level, exported: string, imported: string, target: string)

  /** The validated table with its lookup index. */
  datatype Registry = Registry(
    byKey: map<string, Register>, dailyKeys: seq<string>, edges: seq<Edge>, nets: seq<NetPair>)
  {
    predicate IsStore(key: string, store: Store, net: bool) {
      key in byKey && byKey[key].store == store && byKey[key].net == net
    }

    predicate EdgeOk(e: Edge) {
      && e.source in byKey && byKey[e.source].PollerOwned() && byKey[e.source].Polled()
      && e.level != Daily
      && IsStore(e.target, StoreForLevel(e.level), false)
    }

    predicate NetOk(n: NetPair) {
      && IsStore(n.exported, StoreForLevel(n.level), false)
      && IsStore(n.imported, StoreForLevel(n.level), false)
      && IsStore(n.target, StoreForLevel(n.level), true)
    }

    /** What validateComputed and validateTotalSources guarantee. */
    ghost predicate Valid() {
      && (forall k :: k in dailyKeys <==> k in byKey && byKey[k].PollerOwned())
      && (forall e :: e in edges ==> EdgeOk(e))
      && (forall n :: n in nets ==> NetOk(n))
      && (forall i, j :: 0 <= i < j < |edges| ==> edges[i].target != edges[j].target)
      && (forall i, j :: 0 <= i < j < |nets| ==> nets[i].target != nets[j].target)
      && (forall k :: k in byKey && byKey[k].Computed() && !byKey[k].net ==>
            exists e :: e in edges && e.target == k)
      && (forall e :: e in edges && e.level == Total ==>
            exists y :: y in edges && y.level == Yearly && y.source == e.source)
    }

    /** The edges of a level, in table order. */
    function EdgesAt(l: Level): (s: seq<Edge>)
      ensures forall e :: e in s <==> e in edges && e.level == l
    {
      EdgesFrom(l, edges)
    }

    static function EdgesFrom(l: Level, es: seq<Edge>): (s: seq<Edge>)
      ensures forall e :: e in s <==> e in es && e.level == l
    {
      if es == [] then []
      else if es[0].level == l then [es[0]] + EdgesFrom(l, es[1..])
      else EdgesFrom(l, es[1..])
    }

    function NetsAt(l: Level): (s: seq<NetPair>)
      ensures forall n :: n in s <==> n in nets && n.level == l
    {
      NetsFrom(l, nets)
    }

    static function NetsFrom(l: Level, ns: seq<NetPair>): (s: seq<NetPair>)
      ensures forall n :: n in s <==> n in ns && n.level == l
    {
      if ns == [] then []
      else if ns[0].level == l then [ns[0]] + NetsFrom(l, ns[1..])
      else NetsFrom(l, ns[1..])
    }
  }
}
