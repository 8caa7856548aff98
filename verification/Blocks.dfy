/** Read-block planning and block decoding (internal/solis/registry.go, decoder.go).
    Addresses are 16-bit and their arithmetic wraps; a register may end at address 65535. */
module Blocks {
  import opened Registers

  const MAX_BLOCK_LEN := 125
  const MAX_BLOCK_GAP := 32

  /** uint16 arithmetic. */
  function Wrap(x: int): Word {
    (x % ADDRESS_SPACE) as Word
  }

  function First(r: Register): nat {
    r.address as int
  }

  /** The address after the register's last word, without wrapping. */
  function After(r: Register): nat {
    First(r) + r.Count()
  }

  datatype Block = Block(start: Word, count: Word) {
    function End(): nat {
      start as int + count as int
    }

    /** The register's words all lie in the block. */
    predicate Holds(r: Register) {
      start as int <= First(r) && After(r) <= End()
    }
  }

  /** What index and validateOverlaps guarantee of the sorted polled registers. */
  ghost predicate Planned(regs: seq<Register>) {
    && (forall i :: 0 <= i < |regs| ==> 1 <= First(regs[i]) && After(regs[i]) <= ADDRESS_SPACE)
    && (forall i, j :: 0 <= i < j < |regs| ==> After(regs[i]) <= First(regs[j]))
  }

  // ---- splits ----

  /** regs[i..j] may be read as one block. */
  ghost predicate Fits(regs: seq<Register>, maxGap: nat, maxLen: nat, i: nat, j: nat) {
    && i < j <= |regs|
    && After(regs[j - 1]) - First(regs[i]) <= maxLen
    && forall k :: i < k < j ==> First(regs[k]) - After(regs[k - 1]) <= maxGap
  }

  /** Ascending cut points that split regs[from..] into blocks that may each be read at once. */
  ghost predicate Splits(regs: seq<Register>, maxGap: nat, maxLen: nat, start: nat, cuts: seq<nat>)
    decreases |cuts|
  {
    if cuts == [] then start == |regs|
    else start < cuts[0] <= |regs| && Fits(regs, maxGap, maxLen, start, cuts[0])
         && Splits(regs, maxGap, maxLen, cuts[0], cuts[1..])
  }

  /** Cut points from start to end; each block is as long as the limits allow. */
  ghost predicate Greedy(regs: seq<Register>, maxGap: nat, maxLen: nat, start: nat, cuts: seq<nat>, end: nat)
    decreases |cuts|
  {
    if cuts == [] then start == end
    else start < cuts[0] <= |regs| && Fits(regs, maxGap, maxLen, start, cuts[0])
         && !Fits(regs, maxGap, maxLen, start, cuts[0] + 1)
         && Greedy(regs, maxGap, maxLen, cuts[0], cuts[1..], end)
  }

  /** A shorter stretch of what fits fits. */
  lemma FitsWithin(regs: seq<Register>, maxGap: nat, maxLen: nat, i: nat, j: nat, k: nat)
    requires Planned(regs) && Fits(regs, maxGap, maxLen, i, k) && i < j <= k
    ensures Fits(regs, maxGap, maxLen, i, j)
    ensures j < k ==> Fits(regs, maxGap, maxLen, j, k)
  {
    if j < k {
      assert After(regs[j - 1]) <= First(regs[k - 1]);
      assert First(regs[i]) <= After(regs[i]) <= First(regs[j]);
    }
  }

  /** A greedy split from further on never needs more blocks than any split from before. */
  lemma {:induction false} GreedyAhead(
    regs: seq<Register>, maxGap: nat, maxLen: nat, g: nat, greedy: seq<nat>, s: nat, cuts: seq<nat>)
    requires Planned(regs) && s <= g
    requires Greedy(regs, maxGap, maxLen, g, greedy, |regs|) && Splits(regs, maxGap, maxLen, s, cuts)
    ensures |greedy| <= |cuts|
    decreases |greedy| + |cuts|
  {
    if greedy != [] {
      if cuts[0] <= g {
        GreedyAhead(regs, maxGap, maxLen, g, greedy, cuts[0], cuts[1..]);
      } else {
        FitsFromLater(regs, maxGap, maxLen, s, g, cuts[0]);
        NoFurther(regs, maxGap, maxLen, g, greedy[0], cuts[0]);
        GreedyAhead(regs, maxGap, maxLen, greedy[0], greedy[1..], cuts[0], cuts[1..]);
      }
    }
  }

  lemma NoFurther(regs: seq<Register>, maxGap: nat, maxLen: nat, g: nat, most: nat, k: nat)
    requires Planned(regs) && Fits(regs, maxGap, maxLen, g, k) && g < most
    requires !Fits(regs, maxGap, maxLen, g, most + 1)
    ensures k <= most
  {
    if most < k {
      FitsWithin(regs, maxGap, maxLen, g, most + 1, k);
    }
  }

  lemma FitsFromLater(regs: seq<Register>, maxGap: nat, maxLen: nat, s: nat, g: nat, k: nat)
    requires Planned(regs) && Fits(regs, maxGap, maxLen, s, k) && s <= g < k
    ensures Fits(regs, maxGap, maxLen, g, k)
  {
    if s < g {
      FitsWithin(regs, maxGap, maxLen, s, g, k);
    }
  }

  // ---- planning ----

  /** The block that reads regs[i..j]. */
  ghost predicate Reads(regs: seq<Register>, b: Block, i: nat, j: nat) {
    && i < j <= |regs|
    && b.start as int == First(regs[i]) && b.End() == After(regs[j - 1])
  }

  /** Each block reads the registers between two cuts. */
  ghost predicate Follows(regs: seq<Register>, blocks: seq<Block>, start: nat, cuts: seq<nat>, end: nat)
    decreases |cuts|
  {
    if cuts == [] then blocks == [] && start == end
    else blocks != [] && start < cuts[0] <= |regs| && Reads(regs, blocks[0], start, cuts[0])
         && Follows(regs, blocks[1..], cuts[0], cuts[1..], end)
  }

  /** The register joins the block: the test PlanBlocks makes on wrapping addresses. */
  predicate Joins(last: Block, reg: Register, maxGap: Word, maxLen: Word) {
    var end := Wrap(reg.address as int + reg.Count());
    var curEnd := Wrap(last.start as int + last.count as int);
    && reg.address >= curEnd && reg.address - curEnd <= maxGap
    && Wrap(end as int - last.start as int) <= maxLen
  }

  function Joined(last: Block, reg: Register): Block {
    Block(last.start, Wrap(Wrap(reg.address as int + reg.Count()) as int - last.start as int))
  }

  /** The wrapping test joins a register exactly when the longer block fits, also when the
      register ends at the last address and its end wraps to 0. */
  lemma JoinsExactly(regs: seq<Register>, maxGap: Word, maxLen: Word, last: Block, begin: nat, i: nat)
    requires Planned(regs) && begin < i < |regs|
    requires Fits(regs, maxGap as int, maxLen as int, begin, i) && Reads(regs, last, begin, i)
    ensures Joins(last, regs[i], maxGap, maxLen) <==> Fits(regs, maxGap as int, maxLen as int, begin, i + 1)
    ensures Joins(last, regs[i], maxGap, maxLen) ==> Reads(regs, Joined(last, regs[i]), begin, i + 1)
  {
    assert After(regs[i - 1]) <= First(regs[i]) && First(regs[begin]) < First(regs[i]) by {
      assert After(regs[begin]) <= First(regs[i]);
    }
    WrapLength(First(regs[begin]), After(regs[i]));
    if Fits(regs, maxGap as int, maxLen as int, begin, i + 1) {
      assert First(regs[i]) - After(regs[i - 1]) <= maxGap as int;
    }
  }

  lemma WrapLength(start: nat, end: nat)
    requires 1 <= start < end <= ADDRESS_SPACE
    ensures Wrap(Wrap(end) as int - start) as int == end - start
  {
  }

  lemma OneFits(regs: seq<Register>, maxGap: nat, maxLen: nat, i: nat)
    requires Planned(regs) && i < |regs| && maxLen >= 2
    ensures Fits(regs, maxGap, maxLen, i, i + 1)
    ensures Reads(regs, Block(regs[i].address, regs[i].Count() as Word), i, i + 1)
  {
  }

  /** After i registers: all blocks but the last are settled at their cuts. */
  ghost predicate Progress(
    regs: seq<Register>, maxGap: nat, maxLen: nat, blocks: seq<Block>, cuts: seq<nat>, begin: nat, i: nat)
  {
    if i == 0 then blocks == [] && cuts == [] && begin == 0
    else
      var n := |blocks| - 1;
      && n >= 0 && begin < i && Fits(regs, maxGap, maxLen, begin, i) && Reads(regs, blocks[n], begin, i)
      && Greedy(regs, maxGap, maxLen, 0, cuts, begin) && Follows(regs, blocks[..n], 0, cuts, begin)
  }

  lemma Settle(regs: seq<Register>, maxGap: nat, maxLen: nat, blocks: seq<Block>, cuts: seq<nat>, begin: nat, i: nat)
    requires 0 < i <= |regs| && Progress(regs, maxGap, maxLen, blocks, cuts, begin, i)
    requires !Fits(regs, maxGap, maxLen, begin, i + 1)
    ensures Greedy(regs, maxGap, maxLen, 0, cuts + [i], i) && Follows(regs, blocks, 0, cuts + [i], i)
  {
    var n := |blocks| - 1;
    GreedyMore(regs, maxGap, maxLen, 0, cuts, begin, i);
    FollowsMore(regs, blocks[..n], 0, cuts, begin, blocks[n], i);
    assert blocks == blocks[..n] + [blocks[n]];
  }

  lemma Reopen(regs: seq<Register>, maxGap: nat, maxLen: nat, blocks: seq<Block>, b: Block, cuts: seq<nat>, i: nat)
    requires i < |regs| && Fits(regs, maxGap, maxLen, i, i + 1) && Reads(regs, b, i, i + 1)
    requires Greedy(regs, maxGap, maxLen, 0, cuts, i) && Follows(regs, blocks, 0, cuts, i)
    ensures Progress(regs, maxGap, maxLen, blocks + [b], cuts, i, i + 1)
  {
    assert (blocks + [b])[..|blocks|] == blocks;
  }

  lemma Extend(
    regs: seq<Register>, maxGap: nat, maxLen: nat, blocks: seq<Block>, b: Block, cuts: seq<nat>, begin: nat, i: nat)
    requires 0 < i < |regs| && Progress(regs, maxGap, maxLen, blocks, cuts, begin, i)
    requires Fits(regs, maxGap, maxLen, begin, i + 1) && Reads(regs, b, begin, i + 1)
    ensures Progress(regs, maxGap, maxLen, blocks[..|blocks| - 1] + [b], cuts, begin, i + 1)
  {
    var n := |blocks| - 1;
    assert (blocks[..n] + [b])[..n] == blocks[..n];
  }

  /** All blocks are settled at their cuts, the last one at i. */
  ghost predicate Settled(regs: seq<Register>, maxGap: nat, maxLen: nat, blocks: seq<Block>, cuts: seq<nat>, i: nat) {
    Greedy(regs, maxGap, maxLen, 0, cuts, i) && Follows(regs, blocks, 0, cuts, i)
  }

  lemma NothingYet(
    regs: seq<Register>, maxGap: nat, maxLen: nat, blocks: seq<Block>, cuts: seq<nat>, begin: nat, i: nat)
    requires Progress(regs, maxGap, maxLen, blocks, cuts, begin, i)
    ensures blocks == [] <==> i == 0
    ensures i == 0 ==> Settled(regs, maxGap, maxLen, blocks, cuts, i)
  {
  }

  lemma JoinStep(
    regs: seq<Register>, maxGap: Word, maxLen: Word, blocks: seq<Block>, cuts: seq<nat>, begin: nat, i: nat)
    requires Planned(regs) && 0 < i < |regs|
    requires Progress(regs, maxGap as int, maxLen as int, blocks, cuts, begin, i)
    ensures var n := |blocks| - 1;
      if Joins(blocks[n], regs[i], maxGap, maxLen)
      then Progress(regs, maxGap as int, maxLen as int, blocks[..n] + [Joined(blocks[n], regs[i])], cuts, begin, i + 1)
      else Settled(regs, maxGap as int, maxLen as int, blocks, cuts + [i], i)
  {
    var n := |blocks| - 1;
    JoinsExactly(regs, maxGap, maxLen, blocks[n], begin, i);
    if Joins(blocks[n], regs[i], maxGap, maxLen) {
      Extend(regs, maxGap as int, maxLen as int, blocks, Joined(blocks[n], regs[i]), cuts, begin, i);
    } else {
      Settle(regs, maxGap as int, maxLen as int, blocks, cuts, begin, i);
    }
  }

  lemma OpenStep(regs: seq<Register>, maxGap: nat, maxLen: nat, blocks: seq<Block>, cuts: seq<nat>, i: nat)
    requires Planned(regs) && i < |regs| && maxLen >= 2 && Settled(regs, maxGap, maxLen, blocks, cuts, i)
    ensures Progress(regs, maxGap, maxLen, blocks + [Block(regs[i].address, regs[i].Count() as Word)], cuts, i, i + 1)
  {
    OneFits(regs, maxGap, maxLen, i);
    Reopen(regs, maxGap, maxLen, blocks, Block(regs[i].address, regs[i].Count() as Word), cuts, i);
  }

  /** The blocks read the registers between the cuts of a split whose every block is as long
      as the limits allow. */
  ghost predicate GreedyPlan(regs: seq<Register>, maxGap: nat, maxLen: nat, blocks: seq<Block>) {
    exists cuts :: Settled(regs, maxGap, maxLen, blocks, cuts, |regs|)
  }

  /** PlanBlocks, in wrapping 16-bit arithmetic: blocks as long as the limits allow, disjoint,
      holding every register, and no more of them than any split within the limits has. */
  method PlanBlocks(regs: seq<Register>, maxGap: Word, maxLen: Word) returns (blocks: seq<Block>)
    requires Planned(regs) && maxLen >= 2
    ensures GreedyPlan(regs, maxGap as int, maxLen as int, blocks)
    ensures Covers(regs, maxLen as int, blocks, 0)
    ensures forall cuts :: Splits(regs, maxGap as int, maxLen as int, 0, cuts) ==> |blocks| <= |cuts|
  {
    ghost var cuts: seq<nat>, begin := [], 0;
    blocks := [];
    for i := 0 to |regs|
      invariant Progress(regs, maxGap as int, maxLen as int, blocks, cuts, begin, i)
    {
      blocks, cuts, begin := AddRegister(regs, maxGap, maxLen, blocks, i, cuts, begin);
    }
    SettleLast(regs, maxGap as int, maxLen as int, blocks, cuts, begin);
    PlanIsBest(regs, maxGap as int, maxLen as int, blocks, if regs == [] then cuts else cuts + [|regs|]);
  }

  lemma PlanIsBest(regs: seq<Register>, maxGap: nat, maxLen: nat, blocks: seq<Block>, greedy: seq<nat>)
    requires Planned(regs) && Settled(regs, maxGap, maxLen, blocks, greedy, |regs|)
    ensures GreedyPlan(regs, maxGap, maxLen, blocks) && Covers(regs, maxLen, blocks, 0)
    ensures forall cuts :: Splits(regs, maxGap, maxLen, 0, cuts) ==> |blocks| <= |cuts|
  {
    PlanCovers(regs, maxGap, maxLen, blocks, 0, greedy);
    forall cuts | Splits(regs, maxGap, maxLen, 0, cuts)
      ensures |blocks| <= |cuts|
    {
      FewestBlocks(regs, maxGap, maxLen, blocks, greedy, cuts);
    }
  }

  lemma SettleLast(regs: seq<Register>, maxGap: nat, maxLen: nat, blocks: seq<Block>, cuts: seq<nat>, begin: nat)
    requires Progress(regs, maxGap, maxLen, blocks, cuts, begin, |regs|)
    ensures Settled(regs, maxGap, maxLen, blocks, if regs == [] then cuts else cuts + [|regs|], |regs|)
  {
    if regs != [] {
      Settle(regs, maxGap, maxLen, blocks, cuts, begin, |regs|);
    }
  }

  /** The body of PlanBlocks' loop: a register extends the last block or opens a new one. */
  method AddRegister(regs: seq<Register>, maxGap: Word, maxLen: Word, blocks: seq<Block>, i: nat,
    ghost cuts: seq<nat>, ghost begin: nat) returns (blocks': seq<Block>, ghost cuts': seq<nat>, ghost begin': nat)
    requires Planned(regs) && maxLen >= 2 && i < |regs|
    requires Progress(regs, maxGap as int, maxLen as int, blocks, cuts, begin, i)
    ensures Progress(regs, maxGap as int, maxLen as int, blocks', cuts', begin', i + 1)
  {
    cuts', begin' := cuts, begin;
    NothingYet(regs, maxGap as int, maxLen as int, blocks, cuts, begin, i);
    if |blocks| > 0 {
      var last := blocks[|blocks| - 1];
      JoinStep(regs, maxGap, maxLen, blocks, cuts, begin, i);
      if Joins(last, regs[i], maxGap, maxLen) {
        return blocks[..|blocks| - 1] + [Joined(last, regs[i])], cuts, begin;
      }
      cuts' := cuts + [i];
    }
    OpenStep(regs, maxGap as int, maxLen as int, blocks, cuts', i);
    return blocks + [Block(regs[i].address, regs[i].Count() as Word)], cuts', i;
  }

  lemma {:induction false} GreedyMore(
    regs: seq<Register>, maxGap: nat, maxLen: nat, start: nat, cuts: seq<nat>, begin: nat, i: nat)
    requires Greedy(regs, maxGap, maxLen, start, cuts, begin)
    requires Fits(regs, maxGap, maxLen, begin, i) && !Fits(regs, maxGap, maxLen, begin, i + 1)
    ensures Greedy(regs, maxGap, maxLen, start, cuts + [i], i)
    decreases |cuts|
  {
    if cuts == [] {
      assert ([i] + [])[1..] == [] && cuts + [i] == [i];
    } else {
      GreedyMore(regs, maxGap, maxLen, cuts[0], cuts[1..], begin, i);
      assert (cuts + [i])[1..] == cuts[1..] + [i];
    }
  }

  lemma {:induction false} FollowsMore(
    regs: seq<Register>, blocks: seq<Block>, start: nat, cuts: seq<nat>, begin: nat, b: Block, i: nat)
    requires Follows(regs, blocks, start, cuts, begin) && Reads(regs, b, begin, i)
    ensures Follows(regs, blocks + [b], start, cuts + [i], i)
    decreases |cuts|
  {
    if cuts == [] {
      assert blocks + [b] == [b] && cuts + [i] == [i];
    } else {
      FollowsMore(regs, blocks[1..], cuts[0], cuts[1..], begin, b, i);
      assert (cuts + [i])[1..] == cuts[1..] + [i] && (blocks + [b])[1..] == blocks[1..] + [b];
    }
  }

  /** PlanBlocks uses the fewest blocks of any split that respects the limits. */
  lemma {:induction false} FewestBlocks(
    regs: seq<Register>, maxGap: nat, maxLen: nat, blocks: seq<Block>, greedy: seq<nat>, cuts: seq<nat>)
    requires Planned(regs)
    requires Greedy(regs, maxGap, maxLen, 0, greedy, |regs|) && Follows(regs, blocks, 0, greedy, |regs|)
    requires Splits(regs, maxGap, maxLen, 0, cuts)
    ensures |blocks| <= |cuts|
  {
    GreedyAhead(regs, maxGap, maxLen, 0, greedy, 0, cuts);
    OneBlockPerCut(regs, blocks, 0, greedy, |regs|);
  }

  lemma {:induction false} OneBlockPerCut(regs: seq<Register>, blocks: seq<Block>, start: nat, cuts: seq<nat>, end: nat)
    requires Follows(regs, blocks, start, cuts, end)
    ensures |blocks| == |cuts|
    decreases |cuts|
  {
    if cuts != [] {
      OneBlockPerCut(regs, blocks[1..], cuts[0], cuts[1..], end);
    }
  }

  ghost predicate WithinLimits(blocks: seq<Block>, maxLen: nat) {
    forall b :: b in blocks ==> 0 < b.count as int <= maxLen && b.End() <= ADDRESS_SPACE
  }

  ghost predicate Disjoint(blocks: seq<Block>) {
    forall i, j :: 0 <= i < j < |blocks| ==> blocks[i].End() <= blocks[j].start as int
  }

  predicate Held(blocks: seq<Block>, r: Register) {
    exists b :: b in blocks && b.Holds(r)
  }

  /** The planned blocks: in address order, disjoint, within the limit and the address
      space, and every register wholly in one of them. */
  ghost predicate Covers(regs: seq<Register>, maxLen: nat, blocks: seq<Block>, start: nat) {
    && WithinLimits(blocks, maxLen) && Disjoint(blocks)
    && forall i :: start <= i < |regs| ==> Held(blocks, regs[i])
  }

  lemma {:induction false} PlanCovers(
    regs: seq<Register>, maxGap: nat, maxLen: nat, blocks: seq<Block>, start: nat, cuts: seq<nat>)
    requires Planned(regs)
    requires Greedy(regs, maxGap, maxLen, start, cuts, |regs|) && Follows(regs, blocks, start, cuts, |regs|)
    ensures Covers(regs, maxLen, blocks, start)
    ensures forall b :: b in blocks ==> start < |regs| && First(regs[start]) <= b.start as int
    decreases |cuts|
  {
    if cuts != [] {
      PlanCovers(regs, maxGap, maxLen, blocks[1..], cuts[0], cuts[1..]);
      BlockAhead(regs, blocks[0], blocks[1..], start, cuts[0]);
      CoverOneMore(regs, maxLen, blocks, blocks[0], blocks[1..], start, cuts[0]);
    }
  }

  lemma CoverOneMore(
    regs: seq<Register>, maxLen: nat, blocks: seq<Block>, b: Block, rest: seq<Block>, start: nat, cut: nat)
    requires Planned(regs) && blocks == [b] + rest && Reads(regs, b, start, cut)
    requires After(regs[cut - 1]) - First(regs[start]) <= maxLen && First(regs[start]) < b.End()
    requires Covers(regs, maxLen, rest, cut)
    requires forall x :: x in rest ==> b.End() <= x.start as int
    ensures Covers(regs, maxLen, blocks, start)
  {
    forall i | start <= i < |regs|
      ensures Held(blocks, regs[i])
    {
      if i < cut {
        ReadsHolds(regs, b, start, cut, i);
        assert b in blocks;
      } else {
        assert Held(rest, regs[i]);
        var x :| x in rest && x.Holds(regs[i]);
        assert x in blocks;
      }
    }
    assert After(regs[cut - 1]) <= ADDRESS_SPACE;
  }

  lemma BlockAhead(regs: seq<Register>, b: Block, rest: seq<Block>, i: nat, j: nat)
    requires Planned(regs) && Reads(regs, b, i, j)
    requires forall x :: x in rest ==> j < |regs| && First(regs[j]) <= x.start as int
    ensures forall x :: x in rest ==> b.End() <= x.start as int && First(regs[i]) <= x.start as int
    ensures First(regs[i]) < b.End()
  {
    if j < |regs| {
      assert After(regs[j - 1]) <= First(regs[j]);
    }
    if i < j - 1 {
      assert After(regs[i]) <= First(regs[j - 1]);
    }
  }

  lemma ReadsHolds(regs: seq<Register>, b: Block, i: nat, j: nat, k: nat)
    requires Planned(regs) && Reads(regs, b, i, j) && i <= k < j
    ensures b.Holds(regs[k])
  {
    if i < k {
      assert After(regs[i]) <= First(regs[k]);
    }
    if k < j - 1 {
      assert After(regs[k]) <= First(regs[j - 1]);
    }
  }

  // ---- values ----

  const WORD_SPACE := 0x1_0000_0000

  /** word32: big-endian, high word first. */
  function Word32(raw: seq<Word>): nat
    requires |raw| >= 2
  {
    raw[0] as int * ADDRESS_SPACE + raw[1] as int
  }

  /** Two's complement reinterpretation. */
  function Signed(x: nat, space: nat): int {
    if 2 * x >= space then x - space else x
  }

  /** decodeRaw; a Float32 stays its bit pattern, too few words decode to 0. */
  function DecodeRaw(dt: DataType, raw: seq<Word>): int {
    if |raw| < dt.Count() then 0
    else
      match dt
      case Uint16 => raw[0] as int
      case Int16 => Signed(raw[0] as int, ADDRESS_SPACE)
      case Uint32 => Word32(raw)
      case Int32 => Signed(Word32(raw), WORD_SPACE)
      case Float32 => Word32(raw)
      case Bool => if raw[0] != 0 then 1 else 0
  }

  /** A decoded register: the raw number, and the number scaled to its unit. */
  datatype Value = Value(raw: int, decoded: real)

  function Decode(r: Register, raw: seq<Word>): Value {
    var n := DecodeRaw(r.dataType, raw);
    Value(n, n as real * r.scale)
  }

  predicate Representable(dt: DataType, v: int) {
    match dt
    case Uint16 => 0 <= v < ADDRESS_SPACE
    case Int16 => -0x8000 <= v < 0x8000
    case Uint32 => 0 <= v < WORD_SPACE
    case Int32 => -0x8000_0000 <= v < 0x8000_0000
    case Float32 => 0 <= v < WORD_SPACE
    case Bool => v == 0 || v == 1
  }

  /** The words an inverter sends for a value. */
  function Encode(dt: DataType, v: int): seq<Word>
    requires Representable(dt, v)
  {
    if dt.Count() == 1 then [Wrap(v)]
    else
      var x := if v < 0 then v + WORD_SPACE else v;
      [Wrap(x / ADDRESS_SPACE), Wrap(x)]
  }

  /** Every value of every type survives encoding and decoding. */
  lemma DecodeEncode(dt: DataType, v: int)
    requires Representable(dt, v)
    ensures |Encode(dt, v)| == dt.Count() && DecodeRaw(dt, Encode(dt, v)) == v
  {
    if dt.Count() == 2 {
      var x := if v < 0 then v + WORD_SPACE else v;
      assert x == (x / ADDRESS_SPACE) * ADDRESS_SPACE + x % ADDRESS_SPACE;
      assert 0 <= x / ADDRESS_SPACE < ADDRESS_SPACE;
      WrapSmall(x / ADDRESS_SPACE);
    }
  }

  /** The first word is the high one: 32-bit values order like their words. */
  lemma HighWordFirst(a: seq<Word>, b: seq<Word>)
    requires |a| == 2 && |b| == 2
    ensures DecodeRaw(Uint32, a) < DecodeRaw(Uint32, b) <==> a[0] < b[0] || (a[0] == b[0] && a[1] < b[1])
    ensures DecodeRaw(Uint32, a) == DecodeRaw(Uint32, b) <==> a == b
  {
  }

  /** Signed values are the two's complement of the same words. */
  lemma SignedIsTwosComplement(raw: seq<Word>)
    requires |raw| == 2
    ensures -0x8000 <= DecodeRaw(Int16, raw[..1]) < 0x8000
    ensures (DecodeRaw(Int16, raw[..1]) - DecodeRaw(Uint16, raw[..1])) % ADDRESS_SPACE == 0
    ensures -0x8000_0000 <= DecodeRaw(Int32, raw) < 0x8000_0000
    ensures (DecodeRaw(Int32, raw) - DecodeRaw(Uint32, raw)) % WORD_SPACE == 0
  {
  }

  // ---- decoding ----

  /** The lookup of polled registers by their first address. */
  ghost predicate Indexes(byAddr: map<Word, Register>, regs: seq<Register>) {
    && (forall r :: r in regs ==> r.address in byAddr && byAddr[r.address] == r)
    && (forall a :: a in byAddr ==> byAddr[a] in regs && byAddr[a].address == a)
  }

  ghost predicate UniqueKeys(regs: seq<Register>) {
    forall r, q :: r in regs && q in regs && r.key == q.key ==> r == q
  }

  /** The register's words all lie among the n words read from start on. */
  predicate Inside(r: Register, start: nat, n: nat) {
    start <= First(r) && After(r) <= start + n
  }

  lemma Apart(regs: seq<Register>, r: Register, q: Register)
    requires Planned(regs) && r in regs && q in regs && First(r) <= First(q) && r != q
    ensures After(r) <= First(q)
  {
    var i :| 0 <= i < |regs| && regs[i] == r;
    var j :| 0 <= j < |regs| && regs[j] == q;
    if i < j {
      assert After(regs[i]) <= First(regs[j]);
    }
  }

  /** What a register's own words among those read say. */
  function ReadFrom(r: Register, start: nat, raw: seq<Word>): Value
    requires Inside(r, start, |raw|)
  {
    Decode(r, raw[First(r) - start..After(r) - start])
  }

  ghost predicate DecodedAt(r: Register, start: nat, raw: seq<Word>, out: map<string, Value>)
    requires Inside(r, start, |raw|)
  {
    r.key in out && out[r.key] == ReadFrom(r, start, raw)
  }

  ghost predicate SomeDecoded(regs: seq<Register>, start: nat, raw: seq<Word>, k: string, limit: nat) {
    exists r :: r in regs && r.key == k && Inside(r, start, |raw|) && First(r) < limit
  }

  /** Every register below a boundary is decoded from its own words, and nothing else is. */
  ghost predicate DecodedTo(regs: seq<Register>, start: nat, raw: seq<Word>, out: map<string, Value>, limit: nat) {
    && (forall r :: r in regs && Inside(r, start, |raw|) && First(r) < limit ==> DecodedAt(r, start, raw, out))
    && (forall k :: k in out ==> SomeDecoded(regs, start, raw, k, limit))
  }

  /** DecodeBlock: walks the words, skips the ones of a decoded register, and stops at a
      register cut off by a short read. Exactly the registers wholly inside are decoded. */
  method DecodeBlock(b: Block, raw: seq<Word>, byAddr: map<Word, Register>, ghost regs: seq<Register>)
    returns (out: map<string, Value>)
    requires Planned(regs) && Indexes(byAddr, regs) && UniqueKeys(regs)
    requires b.start as int + |raw| <= ADDRESS_SPACE
    ensures DecodedTo(regs, b.start as int, raw, out, ADDRESS_SPACE)
  {
    var start := b.start as int;
    out := map[];
    var i := 0;
    NoneWalked(regs, start, raw, out);
    while i < |raw|
      invariant 0 <= i <= |raw| && DecodedSoFar(regs, start, raw, out, i)
    {
      var cut;
      out, i, cut := DecodeAt(start, raw, byAddr, regs, out, i);
      if cut {
        return;
      }
    }
    AllWalked(regs, start, raw, out);
  }

  /** The body of DecodeBlock's loop; cut means the read ends inside a register. */
  method DecodeAt(start: nat, raw: seq<Word>, byAddr: map<Word, Register>, ghost regs: seq<Register>,
    out: map<string, Value>, i: nat) returns (out': map<string, Value>, i': nat, cut: bool)
    requires Planned(regs) && Indexes(byAddr, regs) && UniqueKeys(regs)
    requires start + |raw| <= ADDRESS_SPACE && i < |raw| && DecodedSoFar(regs, start, raw, out, i)
    ensures cut ==> DecodedTo(regs, start, raw, out', ADDRESS_SPACE)
    ensures !cut ==> i < i' <= |raw| && DecodedSoFar(regs, start, raw, out', i')
  {
    var addr := Wrap(start + i);
    WrapSmall(start + i);
    if addr !in byAddr {
      NoneHere(regs, byAddr, start, raw, out, i, addr);
      return out, i + 1, false;
    }
    var reg := byAddr[addr];
    RegisterHere(regs, byAddr, addr, reg, start + i);
    var n := reg.Count();
    if i + n > |raw| {
      StopsHere(regs, start, raw, out, i, reg);
      return out, i, true;
    }
    var more, next := out[reg.key := Decode(reg, raw[i..i + n])], i + n;
    DecodeOne(regs, start, raw, out, i, reg, more, next);
    return more, next, false;
  }

  lemma RegisterHere(regs: seq<Register>, byAddr: map<Word, Register>, addr: Word, reg: Register, x: nat)
    requires Indexes(byAddr, regs) && addr in byAddr && reg == byAddr[addr] && addr as int == x
    ensures reg in regs && First(reg) == x && reg.Count() >= 1
  {
  }

  lemma WrapSmall(x: nat)
    requires x < ADDRESS_SPACE
    ensures Wrap(x) as int == x
  {
  }

  /** The walk stands at word i, between two registers. */
  ghost predicate DecodedSoFar(regs: seq<Register>, start: nat, raw: seq<Word>, out: map<string, Value>, i: nat) {
    && DecodedTo(regs, start, raw, out, start + i)
    && forall r :: r in regs && start <= First(r) < start + i ==> After(r) <= start + i
  }

  lemma NoneWalked(regs: seq<Register>, start: nat, raw: seq<Word>, out: map<string, Value>)
    requires out == map[]
    ensures DecodedSoFar(regs, start, raw, out, 0)
  {
  }

  lemma AllWalked(regs: seq<Register>, start: nat, raw: seq<Word>, out: map<string, Value>)
    requires DecodedSoFar(regs, start, raw, out, |raw|) && start + |raw| <= ADDRESS_SPACE
    ensures DecodedTo(regs, start, raw, out, ADDRESS_SPACE)
  {
    forall r | r in regs && Inside(r, start, |raw|)
      ensures First(r) < start + |raw|
    {
      assert First(r) < After(r);
    }
  }

  lemma NoneHere(regs: seq<Register>, byAddr: map<Word, Register>, start: nat, raw: seq<Word>,
    out: map<string, Value>, i: nat, addr: Word)
    requires Indexes(byAddr, regs) && addr !in byAddr && addr as int == start + i
    requires DecodedSoFar(regs, start, raw, out, i)
    ensures DecodedSoFar(regs, start, raw, out, i + 1)
  {
    forall r | r in regs
      ensures First(r) != start + i
    {
    }
  }

  lemma DecodeOne(regs: seq<Register>, start: nat, raw: seq<Word>, out: map<string, Value>, i: nat, reg: Register,
    more: map<string, Value>, next: nat)
    requires Planned(regs) && UniqueKeys(regs) && reg in regs && First(reg) == start + i
    requires next == i + reg.Count() <= |raw| && DecodedSoFar(regs, start, raw, out, i)
    requires more == out[reg.key := Decode(reg, raw[i..next])]
    ensures DecodedSoFar(regs, start, raw, more, next)
  {
    forall r | r in regs && start + i <= First(r) < start + next
      ensures r == reg
    {
      if r != reg {
        Apart(regs, reg, r);
      }
    }
    NextDecoded(regs, start, raw, out, start + i, reg, more, start + next);
  }

  lemma NextDecoded(regs: seq<Register>, start: nat, raw: seq<Word>, out: map<string, Value>, limit: nat, reg: Register,
    more: map<string, Value>, limit': nat)
    requires UniqueKeys(regs) && reg in regs && Inside(reg, start, |raw|) && limit <= First(reg) < limit'
    requires DecodedTo(regs, start, raw, out, limit) && more == out[reg.key := ReadFrom(reg, start, raw)]
    requires forall r :: r in regs && limit <= First(r) < limit' ==> r == reg
    ensures DecodedTo(regs, start, raw, more, limit')
  {
    forall k | k in more
      ensures SomeDecoded(regs, start, raw, k, limit')
    {
      if k != reg.key {
        DecodedBefore(regs, start, raw, k, limit, limit');
      }
    }
    forall r | r in regs && Inside(r, start, |raw|) && First(r) < limit'
      ensures DecodedAt(r, start, raw, more)
    {
      if r != reg {
        assert r.key != reg.key && DecodedAt(r, start, raw, out);
      }
    }
  }

  lemma DecodedBefore(regs: seq<Register>, start: nat, raw: seq<Word>, k: string, limit: nat, limit': nat)
    requires SomeDecoded(regs, start, raw, k, limit) && limit <= limit'
    ensures SomeDecoded(regs, start, raw, k, limit')
  {
  }

  lemma StopsHere(regs: seq<Register>, start: nat, raw: seq<Word>, out: map<string, Value>, i: nat, reg: Register)
    requires Planned(regs) && reg in regs && First(reg) == start + i && i + reg.Count() > |raw|
    requires start + |raw| <= ADDRESS_SPACE && DecodedTo(regs, start, raw, out, start + i)
    ensures DecodedTo(regs, start, raw, out, ADDRESS_SPACE)
  {
    forall r | r in regs && Inside(r, start, |raw|)
      ensures First(r) < start + i
    {
      if First(r) >= start + i && r != reg {
        Apart(regs, reg, r);
      }
    }
  }

  /** The value of the words at a register's own address in the memory image. */
  function ValueOf(memory: seq<Word>, r: Register): Value
    requires |memory| == ADDRESS_SPACE && After(r) <= ADDRESS_SPACE
  {
    Decode(r, memory[First(r)..After(r)])
  }

  /** Plan, then read and decode every block: exactly the polled keys come out, each from
      the words at its own address. */
  method ReadThroughPlan(regs: seq<Register>, byAddr: map<Word, Register>, memory: seq<Word>)
    returns (values: map<string, Value>)
    requires Planned(regs) && Indexes(byAddr, regs) && UniqueKeys(regs) && |memory| == ADDRESS_SPACE
    ensures forall k :: k in values <==> exists r :: r in regs && r.key == k
    ensures forall r :: r in regs ==> r.key in values && values[r.key] == ValueOf(memory, r)
  {
    var blocks := PlanBlocks(regs, MAX_BLOCK_GAP as Word, MAX_BLOCK_LEN as Word);
    values := ReadBlocks(regs, byAddr, memory, blocks);
    AllRead(regs, memory, blocks, values);
  }

  method ReadBlocks(regs: seq<Register>, byAddr: map<Word, Register>, memory: seq<Word>, blocks: seq<Block>)
    returns (values: map<string, Value>)
    requires Planned(regs) && Indexes(byAddr, regs) && UniqueKeys(regs) && |memory| == ADDRESS_SPACE
    requires WithinLimits(blocks, MAX_BLOCK_LEN)
    ensures ReadTo(regs, memory, blocks, values)
  {
    values := map[];
    for n := 0 to |blocks|
      invariant ReadTo(regs, memory, blocks[..n], values)
    {
      var b := blocks[n];
      assert b in blocks;
      var raw := memory[b.start as int..b.End()];
      var out := DecodeBlock(b, raw, byAddr, regs);
      ReadMore(regs, memory, blocks[..n], b, values, raw, out);
      assert blocks[..n + 1] == blocks[..n] + [b];
      values := values + out;
    }
    assert blocks[..|blocks|] == blocks;
  }

  /** The registers held by the blocks read so far have come out with their own words. */
  ghost predicate ReadTo(regs: seq<Register>, memory: seq<Word>, blocks: seq<Block>, values: map<string, Value>)
    requires |memory| == ADDRESS_SPACE && Planned(regs)
  {
    && (forall r, b :: r in regs && b in blocks && b.Holds(r) ==> r.key in values)
    && (forall k :: k in values ==> exists r :: r in regs && r.key == k && values[k] == ValueOf(memory, r))
  }

  lemma ReadMore(regs: seq<Register>, memory: seq<Word>, before: seq<Block>, b: Block,
    values: map<string, Value>, raw: seq<Word>, out: map<string, Value>)
    requires |memory| == ADDRESS_SPACE && Planned(regs) && b.End() <= ADDRESS_SPACE
    requires raw == memory[b.start as int..b.End()]
    requires DecodedTo(regs, b.start as int, raw, out, ADDRESS_SPACE)
    requires ReadTo(regs, memory, before, values)
    ensures ReadTo(regs, memory, before + [b], values + out)
  {
    forall k | k in values + out
      ensures exists r :: r in regs && r.key == k && (values + out)[k] == ValueOf(memory, r)
    {
      if k in out {
        OneRead(regs, memory, b, raw, out, k);
      }
    }
    forall r | r in regs && b.Holds(r)
      ensures r.key in out
    {
      assert Inside(r, b.start as int, |raw|);
    }
  }

  lemma OneRead(regs: seq<Register>, memory: seq<Word>, b: Block, raw: seq<Word>, out: map<string, Value>, k: string)
    requires |memory| == ADDRESS_SPACE && Planned(regs) && b.End() <= ADDRESS_SPACE && k in out
    requires raw == memory[b.start as int..b.End()] && DecodedTo(regs, b.start as int, raw, out, ADDRESS_SPACE)
    ensures exists r :: r in regs && r.key == k && out[k] == ValueOf(memory, r)
  {
    var start := b.start as int;
    var r :| r in regs && r.key == k && Inside(r, start, |raw|) && First(r) < ADDRESS_SPACE;
    SliceOfSlice(memory, start, b.End(), First(r), After(r));
  }

  lemma SliceOfSlice(s: seq<Word>, a: nat, b: nat, x: nat, y: nat)
    requires a <= x <= y <= b <= |s|
    ensures s[a..b][x - a..y - a] == s[x..y]
  {
    forall i | 0 <= i < y - x
      ensures s[a..b][x - a..y - a][i] == s[x..y][i]
    {
    }
  }

  lemma AllRead(regs: seq<Register>, memory: seq<Word>, blocks: seq<Block>, values: map<string, Value>)
    requires |memory| == ADDRESS_SPACE && Planned(regs) && UniqueKeys(regs)
    requires Covers(regs, MAX_BLOCK_LEN, blocks, 0) && ReadTo(regs, memory, blocks, values)
    ensures forall r :: r in regs ==> r.key in values && values[r.key] == ValueOf(memory, r)
  {
    forall r | r in regs
      ensures r.key in values && values[r.key] == ValueOf(memory, r)
    {
      var i :| 0 <= i < |regs| && regs[i] == r;
      assert Held(blocks, regs[i]);
      var b :| b in blocks && b.Holds(regs[i]);
    }
  }
}
