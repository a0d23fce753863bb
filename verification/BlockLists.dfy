/**
 The block allocator seen from outside: a pool is a list of adjacent blocks. Allocation
 takes the lowest block that fits and splits it, release merges a block with its free
 neighbours. What these two keep is proved here, without any headers.
 */
module BlockLists {

  const NULL := 0
  const HEADER_SIZE := 32

  datatype Block = Block(addr: int, size: int, free: bool)

  function End(b: Block): int {
    b.addr + b.size
  }

  /** Address of block i, NULL behind the last one. */
  function AddrAt(bs: seq<Block>, i: nat): int {
    if i < |bs| then bs[i].addr else NULL
  }

  /** Block i has room for its header, and block i + 1 starts where it ends. */
  ghost predicate Fits(bs: seq<Block>, i: nat, end: int)
    requires i < |bs|
  {
    (bs[i].size >= HEADER_SIZE || (|bs| == 1 && bs[i].size >= 1)) &&
    End(bs[i]) == if i + 1 < |bs| then bs[i + 1].addr else end
  }

  /** The blocks cover the pool without gap or overlap. */
  ghost predicate Tiled(bs: seq<Block>, pool: int, end: int) {
    |bs| >= 1 && bs[0].addr == pool > NULL && forall i: nat :: i < |bs| ==> Fits(bs, i, end)
  }

  /** No two free blocks are adjacent. */
  ghost predicate Coalesced(bs: seq<Block>) {
    forall i: nat, j: nat :: j < |bs| && j == i + 1 ==> !(bs[i].free && bs[j].free)
  }

  lemma {:induction false} Before(bs: seq<Block>, pool: int, end: int, i: nat, j: nat)
    requires Tiled(bs, pool, end) && i < j < |bs|
    ensures End(bs[i]) <= bs[j].addr
  {
    assert Fits(bs, j - 1, end);
    if i < j - 1 { Before(bs, pool, end, i, j - 1); }
  }

  /** Blocks are inside the pool and in the order of their addresses. */
  lemma Ordered(bs: seq<Block>, pool: int, end: int, i: nat, j: nat)
    requires Tiled(bs, pool, end) && i <= j < |bs|
    ensures i < j ==> End(bs[i]) <= bs[j].addr && bs[i].addr < bs[j].addr
    ensures pool <= bs[i].addr <= bs[j].addr < End(bs[j]) <= end
  {
    assert Fits(bs, i, end) && Fits(bs, j, end) && Fits(bs, 0, end) && Fits(bs, |bs| - 1, end);
    if 0 < i { Before(bs, pool, end, 0, i); }
    if i < j { Before(bs, pool, end, i, j); }
    if j < |bs| - 1 { Before(bs, pool, end, j, |bs| - 1); }
  }

  /** Payloads of different blocks are disjoint from each other and from all headers. */
  lemma PayloadsDisjoint(bs: seq<Block>, pool: int, end: int, i: nat, j: nat, address: int)
    requires Tiled(bs, pool, end) && i < |bs| && j < |bs|
    requires bs[i].addr + HEADER_SIZE <= address < End(bs[i])
    ensures pool <= address < end
    ensures i != j ==> !(bs[j].addr <= address < End(bs[j]))
    ensures !(bs[j].addr <= address < bs[j].addr + HEADER_SIZE)
  {
    Ordered(bs, pool, end, i, i);
    assert Fits(bs, j, end);
    if i < j { Ordered(bs, pool, end, i, j); }
    if j < i { Ordered(bs, pool, end, j, i); }
  }

  // ---------------------------------------------------------------- allocation

  /** The lowest free block from i on that holds `need` bytes, |bs| if there is none. */
  function FitIndex(bs: seq<Block>, need: int, i: nat): (k: nat)
    requires i <= |bs|
    ensures i <= k <= |bs|
    ensures k < |bs| ==> bs[k].free && bs[k].size >= need
    ensures forall j :: i <= j < k ==> !(bs[j].free && bs[j].size >= need)
    decreases |bs| - i
  {
    if i == |bs| || (bs[i].free && bs[i].size >= need) then i else FitIndex(bs, need, i + 1)
  }

  predicate FitsRequest(b: Block, need: int) {
    b.free && b.size >= need
  }

  /** Block k is a smallest one among those that fit the request. */
  predicate IsBestFit(bs: seq<Block>, need: int, k: nat) {
    k < |bs| && FitsRequest(bs[k], need) &&
    forall j :: 0 <= j < |bs| && FitsRequest(bs[j], need) ==> bs[k].size <= bs[j].size
  }

  /**
   The block taken is the one closest in size if and only if no free block behind it has a
   size between the one asked for and its own.
   */
  lemma FirstFitIsBestFitIff(bs: seq<Block>, need: int)
    requires FitIndex(bs, need, 0) < |bs|
    ensures var k := FitIndex(bs, need, 0);
            IsBestFit(bs, need, k) <==>
            !exists j :: k < j < |bs| && bs[j].free && need <= bs[j].size < bs[k].size
  {
  }

  /** The block is large enough to leave a remainder with a header of its own. */
  predicate Splits(b: Block, need: int) {
    b.size >= need + HEADER_SIZE
  }

  function Take(bs: seq<Block>, k: nat, need: int): seq<Block>
    requires k < |bs|
  {
    var b := bs[k];
    if !Splits(b, need) then bs[k := b.(free := false)]
    else bs[..k] + [Block(b.addr, need, false), Block(b.addr + need, b.size - need, true)] + bs[k + 1..]
  }

  /** First fit: take the lowest block that holds `need` bytes, split off the rest. */
  function Alloc(bs: seq<Block>, need: int): seq<Block> {
    var k := FitIndex(bs, need, 0);
    if k == |bs| then bs else Take(bs, k, need)
  }

  /** What the caller gets for a request of `size` bytes. */
  function Granted(bs: seq<Block>, size: nat): int {
    var k := FitIndex(bs, size + HEADER_SIZE, 0);
    if size == 0 || k == |bs| then NULL else bs[k].addr + HEADER_SIZE
  }

  function Allocated(bs: seq<Block>, size: nat): seq<Block> {
    if size == 0 then bs else Alloc(bs, size + HEADER_SIZE)
  }

  lemma TakeTiled(bs: seq<Block>, pool: int, end: int, k: nat, need: int)
    requires Tiled(bs, pool, end) && k < |bs| && bs[k].free && need > HEADER_SIZE && bs[k].size >= need
    ensures Tiled(Take(bs, k, need), pool, end)
  {
    var r := Take(bs, k, need);
    forall i: nat | i < |r| ensures Fits(r, i, end) {
      assert Fits(bs, k, end);
      if |r| == |bs| {
        assert Fits(bs, i, end);
      } else if i <= k {
        assert Fits(bs, i, end);
      } else {
        assert Fits(bs, i - 1, end);
      }
    }
  }

  /** A request is met in full, and never with room to spare for another block. */
  lemma TakeWaste(bs: seq<Block>, k: nat, need: int)
    requires k < |bs| && need <= bs[k].size
    ensures var r := Take(bs, k, need);
            k < |r| && r[k].addr == bs[k].addr && !r[k].free && need <= r[k].size < need + HEADER_SIZE
  {
  }

  lemma TakeCoalesced(bs: seq<Block>, k: nat, need: int)
    requires Coalesced(bs) && k < |bs| && bs[k].free
    ensures Coalesced(Take(bs, k, need))
  {
  }

  // ---------------------------------------------------------------- release

  /** First index of the run of free blocks that ends right before i. */
  function Lo(bs: seq<Block>, i: nat): (k: nat)
    requires i < |bs|
    ensures k <= i && (forall j :: k <= j < i ==> bs[j].free) && (k > 0 ==> !bs[k - 1].free)
  {
    if i > 0 && bs[i - 1].free then Lo(bs, i - 1) else i
  }

  /** Index behind the run of free blocks that starts right after i. */
  function Hi(bs: seq<Block>, i: nat): (k: nat)
    requires i < |bs|
    ensures i < k <= |bs| && (forall j :: i < j < k ==> bs[j].free) && (k < |bs| ==> !bs[k].free)
    decreases |bs| - i
  {
    if i + 1 < |bs| && bs[i + 1].free then Hi(bs, i + 1) else i + 1
  }

  /** Blocks lo .. hi-1 become one free block. */
  function Merge(bs: seq<Block>, lo: nat, hi: nat): (r: seq<Block>)
    requires lo < hi <= |bs|
    ensures |r| == |bs| - (hi - lo) + 1
    ensures forall j {:trigger r[j]} :: 0 <= j < lo ==> r[j] == bs[j]
    ensures r[lo] == Block(bs[lo].addr, End(bs[hi - 1]) - bs[lo].addr, true)
    ensures forall j :: lo < j < |r| ==> r[j] == bs[j + (hi - lo) - 1]
  {
    bs[..lo] + [Block(bs[lo].addr, End(bs[hi - 1]) - bs[lo].addr, true)] + bs[hi..]
  }

  function Release(bs: seq<Block>, i: nat): seq<Block>
    requires i < |bs|
  {
    if bs[i].free then bs else Merge(bs, Lo(bs, i), Hi(bs, i))
  }

  lemma MergeTiled(bs: seq<Block>, pool: int, end: int, lo: nat, hi: nat)
    requires Tiled(bs, pool, end) && lo < hi <= |bs|
    ensures Tiled(Merge(bs, lo, hi), pool, end)
  {
    var r := Merge(bs, lo, hi);
    forall i: nat | i < |r| ensures Fits(r, i, end) {
      if i < lo {
        assert Fits(bs, i, end);
      } else if i == lo {
        Ordered(bs, pool, end, lo, hi - 1);
        assert Fits(bs, hi - 1, end) && Fits(bs, lo, end);
      } else {
        assert Fits(bs, i + (hi - lo) - 1, end);
      }
    }
  }

  lemma ReleaseCoalesced(bs: seq<Block>, i: nat)
    requires Coalesced(bs) && i < |bs|
    ensures Coalesced(Release(bs, i))
  {
  }

  // ---------------------------------------------------------------- live blocks determine the list

  /** Address and size of every block in use. */
  function Live(bs: seq<Block>): set<(int, int)> {
    set i: nat | i < |bs| && !bs[i].free :: (bs[i].addr, bs[i].size)
  }

  /** Block i is not empty, and block i + 1 starts where it ends. */
  ghost predicate Abut(bs: seq<Block>, i: nat, end: int)
    requires i < |bs|
  {
    bs[i].size >= 1 && End(bs[i]) == if i + 1 < |bs| then bs[i + 1].addr else end
  }

  /** Non-empty blocks without gap or overlap from `start` to `end`. */
  ghost predicate Roomy(bs: seq<Block>, start: int, end: int) {
    (if bs == [] then start == end else bs[0].addr == start) && forall i: nat :: i < |bs| ==> Abut(bs, i, end)
  }

  lemma {:induction false} After(bs: seq<Block>, start: int, end: int, j: nat)
    requires Roomy(bs, start, end) && j < |bs|
    ensures start <= bs[j].addr && End(bs[j]) <= end
    ensures j > 0 ==> End(bs[0]) <= bs[j].addr
    decreases |bs|
  {
    assert Abut(bs, 0, end);
    if |bs| > 1 {
      assert Abut(bs, 1, end);
      RoomyTail(bs, start, end);
      After(bs[1..], End(bs[0]), end, if j > 0 then j - 1 else 0);
    }
  }

  lemma RoomyTail(bs: seq<Block>, start: int, end: int)
    requires Roomy(bs, start, end) && bs != []
    ensures Roomy(bs[1..], End(bs[0]), end)
  {
    assert Abut(bs, 0, end);
    forall i: nat | i < |bs[1..]| ensures Abut(bs[1..], i, end) {
      assert Abut(bs, i + 1, end);
    }
  }

  lemma LiveTail(bs: seq<Block>, start: int, end: int)
    requires Roomy(bs, start, end) && bs != []
    ensures Live(bs[1..]) == Live(bs) - {(bs[0].addr, bs[0].size)}
  {
    var t := bs[1..];
    forall x | x in Live(t) ensures x in Live(bs) && x != (bs[0].addr, bs[0].size) {
      var i: nat :| i < |t| && !t[i].free && x == (t[i].addr, t[i].size);
      assert bs[i + 1] == t[i];
      After(bs, start, end, i + 1);
      assert Abut(bs, 0, end);
    }
    forall x | x in Live(bs) && x != (bs[0].addr, bs[0].size) ensures x in Live(t) {
      var i: nat :| i < |bs| && !bs[i].free && x == (bs[i].addr, bs[i].size);
      assert bs[i] == t[i - 1];
    }
  }

  /** A list that starts with a block in use shares it with every list of the same live blocks. */
  lemma SharedHead(a: seq<Block>, b: seq<Block>, start: int, end: int)
    requires Roomy(a, start, end) && Roomy(b, start, end) && a != [] && !a[0].free
    requires Live(a) == Live(b)
    ensures b != [] && b[0] == a[0]
  {
    assert (a[0].addr, a[0].size) in Live(b);
    var i: nat :| i < |b| && !b[i].free && (b[i].addr, b[i].size) == (a[0].addr, a[0].size);
    assert Abut(b, 0, end);
    if i > 0 { After(b, start, end, i); }
  }

  /** A free head of a coalesced list ends where the next live block starts, so it cannot be shorter. */
  lemma FreeHead(a: seq<Block>, b: seq<Block>, start: int, end: int)
    requires Roomy(a, start, end) && Roomy(b, start, end) && Coalesced(a)
    requires a != [] && b != [] && a[0].free && b[0].free && Live(a) == Live(b)
    ensures a[0].size >= b[0].size
  {
    assert Abut(a, 0, end) && Abut(b, 0, end);
    After(b, start, end, 0);
    if |a| > 1 {
      assert !(a[0].free && a[1].free);
      assert (a[1].addr, a[1].size) in Live(b);
      var i: nat :| i < |b| && !b[i].free && (b[i].addr, b[i].size) == (a[1].addr, a[1].size);
      assert i > 0;
      After(b, start, end, i);
    }
  }

  lemma CoalescedTail(a: seq<Block>)
    requires Coalesced(a) && a != []
    ensures Coalesced(a[1..])
  {
  }

  /** A coalesced list is determined by its bounds and its live blocks. */
  lemma {:induction false} LiveDetermines(a: seq<Block>, b: seq<Block>, start: int, end: int)
    requires Roomy(a, start, end) && Roomy(b, start, end) && Coalesced(a) && Coalesced(b)
    requires Live(a) == Live(b)
    ensures a == b
    decreases |a|
  {
    if a == [] {
      if b != [] { assert Abut(b, 0, end); After(b, start, end, 0); }
    } else {
      assert Abut(a, 0, end);
      After(a, start, end, 0);
      assert b != [];
      if !a[0].free {
        SharedHead(a, b, start, end);
      } else if !b[0].free {
        SharedHead(b, a, start, end);
      } else {
        FreeHead(a, b, start, end);
        FreeHead(b, a, start, end);
      }
      assert a[0] == b[0];
      RoomyTail(a, start, end);
      RoomyTail(b, start, end);
      LiveTail(a, start, end);
      LiveTail(b, start, end);
      CoalescedTail(a);
      CoalescedTail(b);
      LiveDetermines(a[1..], b[1..], End(a[0]), end);
    }
  }

  lemma TiledIsRoomy(bs: seq<Block>, pool: int, end: int)
    requires Tiled(bs, pool, end)
    ensures Roomy(bs, pool, end)
  {
    forall i: nat | i < |bs| ensures Abut(bs, i, end) {
      assert Fits(bs, i, end);
    }
  }

  /** Allocation adds the block it returns to the live blocks and touches no other. */
  lemma TakeLive(bs: seq<Block>, k: nat, need: int)
    requires k < |bs| && bs[k].free
    ensures Live(Take(bs, k, need)) ==
            Live(bs) + {(bs[k].addr, if Splits(bs[k], need) then need else bs[k].size)}
  {
    var r := Take(bs, k, need);
    var x := (bs[k].addr, if Splits(bs[k], need) then need else bs[k].size);
    assert !r[k].free && x == (r[k].addr, r[k].size);
    assert x in Live(r);
    forall y | y in Live(bs) ensures y in Live(r) {
      var i: nat :| i < |bs| && !bs[i].free && y == (bs[i].addr, bs[i].size);
      var j := if i < k || |r| == |bs| then i else i + 1;
      assert r[j] == bs[i];
    }
    forall y | y in Live(r) ensures y in Live(bs) + {x} {
      var j: nat :| j < |r| && !r[j].free && y == (r[j].addr, r[j].size);
      if j != k {
        var i := if j < k || |r| == |bs| then j else j - 1;
        assert r[j] == bs[i];
      }
    }
  }

  /** Release removes its block from the live blocks and touches no other. */
  lemma ReleaseLive(bs: seq<Block>, pool: int, end: int, i: nat)
    requires Tiled(bs, pool, end) && i < |bs| && !bs[i].free
    ensures Live(Release(bs, i)) == Live(bs) - {(bs[i].addr, bs[i].size)}
  {
    var lo, hi := Lo(bs, i), Hi(bs, i);
    var r := Merge(bs, lo, hi);
    forall y | y in Live(bs) && y != (bs[i].addr, bs[i].size) ensures y in Live(r) {
      var j: nat :| j < |bs| && !bs[j].free && y == (bs[j].addr, bs[j].size);
      assert j < lo || hi <= j;
      var m := if j < lo then j else j - (hi - lo) + 1;
      assert r[m] == bs[j];
    }
    forall y | y in Live(r) ensures y in Live(bs) && y != (bs[i].addr, bs[i].size) {
      var m: nat :| m < |r| && !r[m].free && y == (r[m].addr, r[m].size);
      assert m != lo;
      var j := if m < lo then m else m + (hi - lo) - 1;
      assert r[m] == bs[j] && j != i;
      if j < i { Ordered(bs, pool, end, j, i); } else { Ordered(bs, pool, end, i, j); }
    }
  }

  // ---------------------------------------------------------------- whole runs

  datatype Op = Malloc(size: nat) | Free(addr: int)

  function IndexOf(bs: seq<Block>, addr: int): (i: nat)
    ensures i <= |bs| && (i < |bs| ==> bs[i].addr == addr)
    ensures i == |bs| ==> forall j :: 0 <= j < |bs| ==> bs[j].addr != addr
  {
    if bs == [] || bs[0].addr == addr then 0 else IndexOf(bs[1..], addr) + 1
  }

  /** Clients free only addresses of blocks; a block that is free already stays as it is. */
  function Apply(bs: seq<Block>, op: Op): seq<Block> {
    match op
    case Malloc(size) => Allocated(bs, size)
    case Free(addr) =>
      var i := IndexOf(bs, addr);
      if i < |bs| then Release(bs, i) else bs
  }

  function Exec(bs: seq<Block>, ops: seq<Op>): seq<Block>
    decreases |ops|
  {
    if ops == [] then bs else Exec(Apply(bs, ops[0]), ops[1..])
  }

  ghost predicate Good(bs: seq<Block>, pool: int, end: int) {
    Tiled(bs, pool, end) && Coalesced(bs)
  }

  lemma ApplyGood(bs: seq<Block>, pool: int, end: int, op: Op)
    requires Good(bs, pool, end)
    ensures Good(Apply(bs, op), pool, end)
  {
    match op
    case Malloc(size) =>
      var k := FitIndex(bs, size + HEADER_SIZE, 0);
      if size != 0 && k < |bs| {
        TakeTiled(bs, pool, end, k, size + HEADER_SIZE);
        TakeCoalesced(bs, k, size + HEADER_SIZE);
      }
    case Free(addr) =>
      var i := IndexOf(bs, addr);
      if i < |bs| {
        ReleaseCoalesced(bs, i);
        if !bs[i].free { MergeTiled(bs, pool, end, Lo(bs, i), Hi(bs, i)); }
      }
  }

  lemma {:induction false} ExecGood(bs: seq<Block>, pool: int, end: int, ops: seq<Op>)
    requires Good(bs, pool, end)
    ensures Good(Exec(bs, ops), pool, end)
    decreases |ops|
  {
    if ops == [] {
    } else {
      ApplyGood(bs, pool, end, ops[0]);
      ExecGood(Apply(bs, ops[0]), pool, end, ops[1..]);
    }
  }

  /** The pool right after initialisation. */
  function Whole(pool: int, end: int): seq<Block> {
    [Block(pool, end - pool, true)]
  }

  /**
   In every run the blocks tile the pool with no two free ones adjacent, and the list depends
   on nothing but the blocks in use: two runs that leave the same blocks in use leave the same
   list, and a run that leaves none leaves the single initial block.
   */
  lemma {:induction false} RunTheorem(pool: int, end: int, ops: seq<Op>, others: seq<Op>)
    requires NULL < pool < end
    ensures var a, b := Exec(Whole(pool, end), ops), Exec(Whole(pool, end), others);
            Good(a, pool, end) &&
            (Live(a) == Live(b) ==> a == b) &&
            (Live(a) == {} ==> a == Whole(pool, end))
  {
    var w := Whole(pool, end);
    var a, b := Exec(w, ops), Exec(w, others);
    assert Good(w, pool, end);
    ExecGood(w, pool, end, ops);
    ExecGood(w, pool, end, others);
    TiledIsRoomy(a, pool, end);
    TiledIsRoomy(b, pool, end);
    TiledIsRoomy(w, pool, end);
    assert Live(w) == {};
    if Live(a) == Live(b) { LiveDetermines(a, b, pool, end); }
    if Live(a) == {} { LiveDetermines(a, w, pool, end); }
  }

  /** A run after which the next request of 68 bytes takes the larger of two blocks that fit. */
  lemma FirstFitIsNotBestFit() returns (ops: seq<Op>, bs: seq<Block>)
    ensures ops == [Malloc(168), Malloc(68), Free(1000)] && bs == Exec(Whole(1000, 1400), ops)
    ensures bs == [Block(1000, 200, true), Block(1200, 100, false), Block(1300, 100, true)]
    ensures FitIndex(bs, 100, 0) == 0 && !IsBestFit(bs, 100, 0) && IsBestFit(bs, 100, 2)
  {
    var s0 := Whole(1000, 1400);
    var s1 := Apply(s0, Malloc(168));
    assert s1 == [Block(1000, 200, false), Block(1200, 200, true)];
    var s2 := Apply(s1, Malloc(68));
    assert FitIndex(s1, 100, 1) == 1;
    assert s2 == [Block(1000, 200, false), Block(1200, 100, false), Block(1300, 100, true)];
    bs := Apply(s2, Free(1000));
    assert Hi(s2, 0) == 1 && Lo(s2, 0) == 0;
    assert bs == [Block(1000, 200, true), Block(1200, 100, false), Block(1300, 100, true)];
    assert FitsRequest(bs[2], 100);
    var o2, o3 := [Malloc(68), Free(1000)], [Free(1000)];
    ops := [Malloc(168), Malloc(68), Free(1000)];
    assert ops[1..] == o2 && o2[1..] == o3 && o3[1..] == [];
    assert Exec(bs, []) == bs && Exec(s2, o3) == bs && Exec(s1, o2) == bs;
  }

  function FreeAll(bs: seq<Block>, addrs: seq<int>): seq<Block>
    decreases |addrs|
  {
    if addrs == [] then bs else FreeAll(Apply(bs, Free(addrs[0])), addrs[1..])
  }

  lemma FreeLive(bs: seq<Block>, pool: int, end: int, addr: int)
    requires Tiled(bs, pool, end)
    ensures forall x :: x in Live(Apply(bs, Free(addr))) ==> x in Live(bs) && x.0 != addr
  {
    var i := IndexOf(bs, addr);
    if i < |bs| && !bs[i].free { ReleaseLive(bs, pool, end, i); }
    forall x | x in Live(Apply(bs, Free(addr))) ensures x in Live(bs) && x.0 != addr {
      var j: nat :| j < |bs| && !bs[j].free && x == (bs[j].addr, bs[j].size);
      if i < j && i < |bs| { Ordered(bs, pool, end, i, j); }
      if j < i < |bs| { Ordered(bs, pool, end, j, i); }
    }
  }

  lemma {:induction false} FreeAllLive(bs: seq<Block>, pool: int, end: int, addrs: seq<int>)
    requires Good(bs, pool, end)
    ensures Good(FreeAll(bs, addrs), pool, end)
    ensures forall x :: x in Live(FreeAll(bs, addrs)) ==> x in Live(bs) && x.0 !in addrs
    decreases |addrs|
  {
    if addrs == [] {
    } else {
      ApplyGood(bs, pool, end, Free(addrs[0]));
      FreeLive(bs, pool, end, addrs[0]);
      FreeAllLive(Apply(bs, Free(addrs[0])), pool, end, addrs[1..]);
    }
  }

  /** Freeing all blocks in use, in any order, restores the single initial block. */
  lemma FreeEverything(bs: seq<Block>, pool: int, end: int, addrs: seq<int>)
    requires Good(bs, pool, end) && pool < end
    requires forall i :: 0 <= i < |bs| && !bs[i].free ==> bs[i].addr in addrs
    ensures FreeAll(bs, addrs) == Whole(pool, end)
  {
    FreeAllLive(bs, pool, end, addrs);
    var r := FreeAll(bs, addrs);
    assert forall x :: x in Live(bs) ==> x.0 in addrs;
    assert Live(r) == {} && Live(Whole(pool, end)) == {};
    assert Good(Whole(pool, end), pool, end);
    TiledIsRoomy(r, pool, end);
    TiledIsRoomy(Whole(pool, end), pool, end);
    LiveDetermines(r, Whole(pool, end), pool, end);
  }

  /** The sizes always add up to the pool: from block i to the end there is no gap. */
  lemma {:induction false} SizesAddUp(bs: seq<Block>, pool: int, end: int, i: nat)
    requires Tiled(bs, pool, end) && i <= |bs|
    ensures SizeFrom(bs, i) == if i < |bs| then end - bs[i].addr else 0
    decreases |bs| - i
  {
    if i == |bs| {
    } else {
      assert Fits(bs, i, end);
      SizesAddUp(bs, pool, end, i + 1);
    }
  }

  function SizeFrom(bs: seq<Block>, i: nat): int
    requires i <= |bs|
    decreases |bs| - i
  {
    if i == |bs| then 0 else bs[i].size + SizeFrom(bs, i + 1)
  }
}
