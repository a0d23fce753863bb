/**
 The back links of the block allocator as written, on lists: beside the blocks, the address that
 each header holds in prev. What a call leaves in them, and when a release can rely on them, follows
 from the calls alone.
 */
module BackLinks {
  import opened BlockLists

  const INT_MAX := 0x7FFF_FFFF
  const SIZE_VALUES := 0x1_0000_0000_0000_0000

  /** What block i ought to point back to. */
  function LinkOf(bs: seq<Block>, i: nat): int
    requires i < |bs|
  {
    if i == 0 then NULL else bs[i - 1].addr
  }

  /** Back links that agree with the order of the blocks. */
  function Agreeing(bs: seq<Block>): (r: seq<int>)
    ensures |r| == |bs| && forall i: nat {:trigger r[i]} :: i < |bs| ==> r[i] == LinkOf(bs, i)
  {
    seq(|bs|, (i: nat) requires i < |bs| => LinkOf(bs, i))
  }

  /** After a split the remainder points back to the block taken; the block behind it is left as it was. */
  function TakeBacks(bs: seq<Block>, backs: seq<int>, k: nat, need: int): seq<int>
    requires k < |bs| == |backs|
  {
    if !Splits(bs[k], need) then backs else backs[..k + 1] + [bs[k].addr] + backs[k + 1..]
  }

  /** The place, before blocks lo .. hi-1 become one, of what is at place i afterwards. */
  function OldPlace(i: nat, lo: nat, hi: nat): nat
    requires lo < hi
  {
    if i <= lo then i else i + (hi - lo) - 1
  }

  /** Blocks lo .. hi-1 become one, and the block behind points back to it. */
  function MergeBacks(bs: seq<Block>, backs: seq<int>, lo: nat, hi: nat): (r: seq<int>)
    requires lo < hi <= |bs| == |backs|
    ensures |r| == |bs| - (hi - lo) + 1
    ensures forall j: nat {:trigger r[j]} :: j < |r| ==>
              r[j] == if j == lo + 1 then bs[lo].addr else backs[OldPlace(j, lo, hi)]
  {
    backs[..lo + 1] + (if hi == |bs| then [] else [bs[lo].addr] + backs[hi + 1..])
  }

  /** After a release the block behind the merged one points back to it. */
  function ReleaseBacks(bs: seq<Block>, backs: seq<int>, i: nat): (r: seq<int>)
    requires i < |bs| == |backs|
    ensures |r| == |Release(bs, i)|
  {
    if bs[i].free then backs else MergeBacks(bs, backs, Lo(bs, i), Hi(bs, i))
  }

  /** The back links after a call of the code as written. */
  function BacksAfter(bs: seq<Block>, backs: seq<int>, op: Op): (r: seq<int>)
    requires |backs| == |bs|
    ensures |r| == |Apply(bs, op)|
  {
    match op
    case Malloc(size) =>
      var k := FitIndex(bs, size + HEADER_SIZE, 0);
      if size == 0 || k == |bs| then backs else TakeBacks(bs, backs, k, size + HEADER_SIZE)
    case Free(a) =>
      var i := IndexOf(bs, a);
      if i < |bs| then ReleaseBacks(bs, backs, i) else backs
  }

  /** The size of the block that a release of block i leaves behind. */
  function MergedSize(bs: seq<Block>, i: nat): int
    requires i < |bs|
  {
    End(bs[Hi(bs, i) - 1]) - bs[Lo(bs, i)].addr
  }

  lemma MergedFits(bs: seq<Block>, pool: int, end: int, i: nat)
    requires Tiled(bs, pool, end) && i < |bs|
    ensures 0 < MergedSize(bs, i) <= end - pool
  {
    Ordered(bs, pool, end, Lo(bs, i), Hi(bs, i) - 1);
  }

  /** The address is that of a block in use before block i. */
  predicate UsedBefore(bs: seq<Block>, i: nat, a: int)
    requires i <= |bs|
  {
    exists k: nat :: k < i && bs[k].addr == a && !bs[k].free
  }

  /**
   A release of block i can rely on the links it meets: they agree in the free run that ends at the
   block, and the first of the run points to nothing or to a block in use before it.
   */
  predicate SafeLinks(bs: seq<Block>, backs: seq<int>, i: nat)
    requires i < |bs| == |backs|
  {
    var lo := Lo(bs, i);
    (forall j: nat {:trigger backs[j]} :: lo < j <= i ==> backs[j] == LinkOf(bs, j)) &&
    (backs[lo] == NULL || UsedBefore(bs, lo, backs[lo]))
  }

  /** And the size of the merged block is a value of `int`. */
  predicate SafeRelease(bs: seq<Block>, backs: seq<int>, i: nat)
    requires i < |bs| == |backs|
  {
    SafeLinks(bs, backs, i) && MergedSize(bs, i) <= INT_MAX
  }

  predicate Safe(bs: seq<Block>, backs: seq<int>, op: Op)
    requires |backs| == |bs|
  {
    op.Free? ==>
      var i := IndexOf(bs, op.addr);
      i < |bs| && (bs[i].free || SafeRelease(bs, backs, i))
  }

  /** Every release of the calls is safe when it is made. */
  predicate AllSafe(bs: seq<Block>, backs: seq<int>, ops: seq<Op>)
    requires |backs| == |bs|
    decreases |ops|
  {
    ops == [] || (Safe(bs, backs, ops[0]) && AllSafe(Apply(bs, ops[0]), BacksAfter(bs, backs, ops[0]), ops[1..]))
  }

  /** Requests stay in the range of `size_t`, and only blocks are freed. */
  predicate Allowed(bs: seq<Block>, op: Op) {
    match op
    case Malloc(size) => size + HEADER_SIZE < SIZE_VALUES
    case Free(a) => IndexOf(bs, a) < |bs|
  }

  predicate AllAllowed(bs: seq<Block>, ops: seq<Op>)
    decreases |ops|
  {
    ops == [] || (Allowed(bs, ops[0]) && AllAllowed(Apply(bs, ops[0]), ops[1..]))
  }

  // ---------------------------------------------------------------- links that agree

  /** The request leads to a split of a block that has a successor. */
  predicate SplitsInside(bs: seq<Block>, need: int) {
    var k := FitIndex(bs, need, 0);
    k + 1 < |bs| && Splits(bs[k], need)
  }

  /** The call is a request that splits a block with a successor. */
  predicate Splitting(bs: seq<Block>, op: Op) {
    op.Malloc? && op.size != 0 && SplitsInside(bs, op.size + HEADER_SIZE)
  }

  predicate NoneSplitting(bs: seq<Block>, ops: seq<Op>)
    decreases |ops|
  {
    ops == [] || (!Splitting(bs, ops[0]) && NoneSplitting(Apply(bs, ops[0]), ops[1..]))
  }

  /** A split leaves all links agreeing exactly if it is a split of the last block. */
  lemma TakeAgrees(bs: seq<Block>, k: nat, need: int)
    requires k < |bs| && need > 0
    ensures TakeBacks(bs, Agreeing(bs), k, need) == Agreeing(Take(bs, k, need)) <==>
            !(k + 1 < |bs| && Splits(bs[k], need))
  {
    var was, now, r := TakeBacks(bs, Agreeing(bs), k, need), Agreeing(Take(bs, k, need)), Take(bs, k, need);
    if Splits(bs[k], need) && k + 1 < |bs| {
      assert was[k + 2] == Agreeing(bs)[k + 1] == bs[k].addr;
      assert now[k + 2] == r[k + 1].addr == bs[k].addr + need;
    } else {
      forall i: nat | i < |r| ensures was[i] == now[i] {
        if i > 0 && i <= k { assert r[i - 1] == bs[i - 1]; }
      }
    }
  }

  /** A release leaves links that agree agreeing. */
  lemma ReleaseAgrees(bs: seq<Block>, i: nat)
    requires i < |bs|
    ensures ReleaseBacks(bs, Agreeing(bs), i) == Agreeing(Release(bs, i))
  {
    if !bs[i].free {
      var lo, hi, r := Lo(bs, i), Hi(bs, i), Release(bs, i);
      var was, now := ReleaseBacks(bs, Agreeing(bs), i), Agreeing(r);
      forall j: nat | j < |r| ensures was[j] == now[j] {
        if 0 < j <= lo { assert r[j - 1] == bs[j - 1]; }
        if j > lo + 1 { assert r[j - 1] == bs[j - 1 + (hi - lo) - 1]; }
      }
    }
  }

  /** Links that agree make every release safe whose size fits an `int`. */
  lemma AgreeingSafe(bs: seq<Block>, i: nat)
    requires i < |bs| && MergedSize(bs, i) <= INT_MAX
    ensures SafeRelease(bs, Agreeing(bs), i)
  {
    var lo := Lo(bs, i);
    if lo > 0 { assert bs[lo - 1].addr == Agreeing(bs)[lo] && !bs[lo - 1].free; }
  }

  /** One call leaves links that agree agreeing exactly if it does not split a block with a successor. */
  lemma CallAgrees(bs: seq<Block>, op: Op)
    ensures BacksAfter(bs, Agreeing(bs), op) == Agreeing(Apply(bs, op)) <==> !Splitting(bs, op)
  {
    match op
    case Malloc(size) =>
      var k := FitIndex(bs, size + HEADER_SIZE, 0);
      if size != 0 && k < |bs| { TakeAgrees(bs, k, size + HEADER_SIZE); }
    case Free(a) =>
      var i := IndexOf(bs, a);
      if i < |bs| { ReleaseAgrees(bs, i); }
  }

  /** Calls without such a split are safe in a pool of at most INT_MAX bytes. */
  lemma {:induction false} NoneSplittingIsSafe(bs: seq<Block>, pool: int, end: int, ops: seq<Op>)
    requires Good(bs, pool, end) && end - pool <= INT_MAX
    requires AllAllowed(bs, ops) && NoneSplitting(bs, ops)
    ensures AllSafe(bs, Agreeing(bs), ops)
    decreases |ops|
  {
    if ops == [] {
    } else {
      var op := ops[0];
      if op.Free? {
        var i := IndexOf(bs, op.addr);
        MergedFits(bs, pool, end, i);
        AgreeingSafe(bs, i);
      }
      CallAgrees(bs, op);
      ApplyGood(bs, pool, end, op);
      NoneSplittingIsSafe(Apply(bs, op), pool, end, ops[1..]);
    }
  }
}
