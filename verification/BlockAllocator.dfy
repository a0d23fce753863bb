/**
 The block allocator as it is written: headers in the pool with next and prev fields. Memory is a map
 from addresses to what is read there as a header. Only the headers of the blocks on the chain are the
 allocator's own; whatever else the map holds may be data of clients. The methods are proved against
 functions on the map; lemmas then say when these do what BlockLists promises, and exactly when not.
 */
module BlockAllocator {
  import opened Arithmetic
  import opened BlockLists
  import opened BackLinks

  // Number of values of `int`.
  const INT_VALUES := 0x1_0000_0000

  function WrapSize(x: int): int {
    x % SIZE_VALUES
  }

  /** Conversion to `int`. */
  function ToInt(x: int): int {
    var r := x % INT_VALUES;
    if r > INT_MAX then r - INT_VALUES else r
  }

  datatype Header = Header(isFree: bool, size: int, next: int, prev: int)

  type Heap = map<int, Header>

  // ---------------------------------------------------------------- the code, on header maps

  /** Following next from here meets headers only and comes to an end. */
  ghost predicate Searchable(h: Heap, end: int, cursor: int)
    decreases end - cursor
  {
    cursor == NULL ||
    (cursor in h && cursor < end &&
     (h[cursor].next == NULL || (cursor < h[cursor].next && Searchable(h, end, h[cursor].next))))
  }

  /** Following prev from here, while the headers say free, meets headers only and comes to an end. */
  ghost predicate Retraceable(h: Heap, cursor: int)
    decreases cursor
  {
    cursor > NULL && cursor in h &&
    var p := h[cursor].prev;
    p == NULL || (p in h && p < cursor && (h[p].isFree ==> Retraceable(h, p)))
  }

  /** The search loop of `my_malloc`. */
  ghost function FirstFit(h: Heap, end: int, cursor: int, need: int): (r: int)
    requires Searchable(h, end, cursor)
    ensures r == NULL || (r in h && h[r].isFree && h[r].size >= need && Searchable(h, end, r))
    decreases if cursor == NULL then 0 else 1, end - cursor
  {
    if cursor == NULL then NULL
    else if h[cursor].isFree && h[cursor].size >= need then cursor
    else FirstFit(h, end, h[cursor].next, need)
  }

  /** The split of `my_malloc`, in the order of its assignments. */
  function Carve(h: Heap, c: int, need: int): Heap
    requires c in h
  {
    if h[c].size < WrapSize(need + HEADER_SIZE) then h[c := h[c].(isFree := false)]
    else
      var rest, nextBuf := c + need, h[c].next;
      var h1 := h[c := h[c].(next := rest)];
      var h2 := h1[rest := Header(true, WrapSize(h1[c].size - need), nextBuf, c)];
      h2[c := h2[c].(isFree := false, size := need)]
  }

  /** The block that `my_malloc` takes, NULL if it takes none. */
  ghost function Found(h: Heap, end: int, first: int, size: int): (c: int)
    requires Searchable(h, end, first)
    ensures c == NULL ||
            (c in h && h[c].isFree && h[c].size >= WrapSize(size + HEADER_SIZE) && Searchable(h, end, c))
  {
    if size == 0 then NULL else FirstFit(h, end, first, WrapSize(size + HEADER_SIZE))
  }

  /** The sum of size and header has wrapped so far that the split writes one header over another. */
  ghost predicate Overlaps(h: Heap, end: int, first: int, size: int)
    requires Searchable(h, end, first)
  {
    var c, need := Found(h, end, first, size), WrapSize(size + HEADER_SIZE);
    c != NULL && need < HEADER_SIZE && h[c].size >= need + HEADER_SIZE
  }

  ghost function MallocHeap(h: Heap, end: int, first: int, size: int): (Heap, int)
    requires Searchable(h, end, first) && !Overlaps(h, end, first, size)
  {
    var c := Found(h, end, first, size);
    if c == NULL then (h, NULL) else (Carve(h, c, WrapSize(size + HEADER_SIZE)), c + HEADER_SIZE)
  }

  /** The forward loop of `my_free`: where it stops and the sizes it adds up. */
  ghost function ForwardRun(h: Heap, end: int, cursor: int): (r: (int, int))
    requires Searchable(h, end, cursor) && cursor != NULL
    ensures r.0 in h && r.0 != NULL && Searchable(h, end, r.0)
    decreases end - cursor
  {
    var n := h[cursor].next;
    assert n == NULL || Searchable(h, end, n);
    if n == NULL || !h[n].isFree then (cursor, 0)
    else
      var r := ForwardRun(h, end, n); (r.0, h[n].size + r.1)
  }

  /** The backward loop of `my_free`. */
  ghost function BackwardRun(h: Heap, cursor: int): (r: (int, int))
    requires Retraceable(h, cursor)
    ensures r.0 in h
    decreases cursor
  {
    var p := h[cursor].prev;
    if p == NULL || !h[p].isFree then (cursor, 0)
    else
      var r := BackwardRun(h, p); (r.0, h[p].size + r.1)
  }

  /** What is stored for a sum of sizes that went through the `int` merge_size. */
  function Stored(total: int): int {
    WrapSize(ToInt(total))
  }

  /** The last writes of `my_free`. */
  function Unlink(h: Heap, cursor: int, nextBuf: int, size: int): Heap
    requires cursor in h && (nextBuf == NULL || nextBuf in h)
  {
    var h1 := h[cursor := h[cursor].(next := nextBuf)];
    var h2 := if nextBuf == NULL then h1 else h1[nextBuf := h1[nextBuf].(prev := cursor)];
    h2[cursor := h2[cursor].(size := size)]
  }

  /** The first write of `my_free`. */
  function MarkHeap(h: Heap, a: int): Heap
    requires a in h
  {
    h[a := h[a].(isFree := true)]
  }

  /** What the C code needs for its accesses to be defined and its loops to end. */
  ghost predicate Freeable(h: Heap, end: int, a: int) {
    a != NULL && a in h &&
    (h[a].isFree || (Searchable(MarkHeap(h, a), end, a) && Retraceable(MarkHeap(h, a), a)))
  }

  /** The sizes that `my_free` of a block in use adds up. */
  ghost function FreeTotal(h: Heap, end: int, a: int): int
    requires Freeable(h, end, a) && !h[a].isFree
  {
    h[a].size + ForwardRun(MarkHeap(h, a), end, a).1 + BackwardRun(MarkHeap(h, a), a).1
  }

  ghost function FreeHeap(h: Heap, end: int, a: int): Heap
    requires Freeable(h, end, a)
  {
    if h[a].isFree then h
    else
      var m, last := MarkHeap(h, a), ForwardRun(MarkHeap(h, a), end, a).0;
      assert m[last].next == NULL || Searchable(m, end, m[last].next);
      Unlink(m, BackwardRun(m, a).0, m[last].next, Stored(FreeTotal(h, end, a)))
  }

  /** The split with the assignment that the code leaves out: the block behind the remainder points back to it. */
  function RelinkedCarve(h: Heap, c: int, need: int): Heap
    requires c in h && (h[c].next == NULL || h[c].next in h)
  {
    var r, nextBuf := Carve(h, c, need), h[c].next;
    if h[c].size < WrapSize(need + HEADER_SIZE) || nextBuf == NULL then r
    else r[nextBuf := r[nextBuf].(prev := c + need)]
  }

  /** `my_malloc` with that assignment. */
  ghost function RelinkedMallocHeap(h: Heap, end: int, first: int, size: int): (Heap, int)
    requires Searchable(h, end, first) && !Overlaps(h, end, first, size)
  {
    var c := Found(h, end, first, size);
    if c == NULL then (h, NULL)
    else
      assert h[c].next == NULL || Searchable(h, end, h[c].next);
      (RelinkedCarve(h, c, WrapSize(size + HEADER_SIZE)), c + HEADER_SIZE)
  }

  // ---------------------------------------------------------------- headers that spell out a list

  /** The header of block i has the block's size, state and successor. */
  ghost predicate Fwd(h: Heap, bs: seq<Block>, i: nat)
    requires i < |bs|
  {
    var b := bs[i];
    b.addr in h && h[b.addr].size == b.size && h[b.addr].isFree == b.free && h[b.addr].next == AddrAt(bs, i + 1)
  }

  /** The header of block i holds that back link. */
  ghost predicate Back(h: Heap, bs: seq<Block>, i: nat, back: int)
    requires i < |bs|
  {
    bs[i].addr in h && h[bs[i].addr].prev == back
  }

  /** The chain along next spells out the blocks. */
  ghost predicate Forward(h: Heap, bs: seq<Block>, pool: int, end: int) {
    Tiled(bs, pool, end) && forall i: nat :: i < |bs| ==> Fwd(h, bs, i)
  }

  /** And the headers hold these back links, right or wrong. */
  ghost predicate Linked(h: Heap, bs: seq<Block>, backs: seq<int>, pool: int, end: int) {
    Forward(h, bs, pool, end) && |backs| == |bs| && forall i: nat :: i < |bs| ==> Back(h, bs, i, backs[i])
  }

  /** The headers spell out the blocks forwards and backwards. */
  ghost predicate Repr(h: Heap, bs: seq<Block>, pool: int, end: int) {
    Linked(h, bs, Agreeing(bs), pool, end)
  }

  /** Address a is that of a block. */
  ghost predicate OnChain(bs: seq<Block>, a: int) {
    exists i: nat :: i < |bs| && AddrAt(bs, i) == a
  }

  // ---------------------------------------------------------------- what belongs to clients

  /** Address x holds the same before and after. */
  ghost predicate Same(h: Heap, h': Heap, x: int) {
    x in h && x in h' && h'[x] == h[x]
  }

  /** What is not a header of the chain before or after a call has not changed. */
  ghost predicate OffChainKept(h: Heap, h': Heap, bs: seq<Block>, bs': seq<Block>) {
    forall x :: x in h && !OnChain(bs, x) && !OnChain(bs', x) ==> Same(h, h', x)
  }

  /** Address x is neither where block i starts nor anywhere in it if it is free. */
  ghost predicate Clear(bs: seq<Block>, i: nat, x: int)
    requires i < |bs|
  {
    x != bs[i].addr && !(bs[i].free && bs[i].addr <= x < End(bs[i]))
  }

  /** Memory that the allocator has given away: no header of the chain, and in no free block. */
  ghost predicate Private(bs: seq<Block>, x: int) {
    forall i: nat :: i < |bs| ==> Clear(bs, i, x)
  }

  ghost predicate ClientsKept(h: Heap, h': Heap, bs: seq<Block>) {
    forall x :: x in h && Private(bs, x) ==> Same(h, h', x)
  }

  /** Clients, or whatever happened to memory that is not a header of the chain, turn h into g. */
  ghost predicate ClientWrite(h: Heap, g: Heap, bs: seq<Block>) {
    h.Keys <= g.Keys && forall x :: x in h && OnChain(bs, x) ==> Same(h, g, x)
  }

  /** The payload of a block in use is private. */
  lemma PayloadIsPrivate(bs: seq<Block>, pool: int, end: int, i: nat, x: int)
    requires Tiled(bs, pool, end) && i < |bs| && !bs[i].free && bs[i].addr + HEADER_SIZE <= x < End(bs[i])
    ensures Private(bs, x)
  {
    forall j: nat | j < |bs| ensures Clear(bs, j, x) {
      PayloadsDisjoint(bs, pool, end, i, j, x);
    }
  }

  lemma WriteKeepsLinked(h: Heap, g: Heap, bs: seq<Block>, backs: seq<int>, pool: int, end: int)
    requires Linked(h, bs, backs, pool, end) && ClientWrite(h, g, bs)
    ensures Linked(g, bs, backs, pool, end)
  {
    forall i: nat | i < |bs| ensures Fwd(g, bs, i) && Back(g, bs, i, backs[i]) {
      assert Fwd(h, bs, i) && Back(h, bs, i, backs[i]);
      assert AddrAt(bs, i) == bs[i].addr;
      assert OnChain(bs, bs[i].addr) && Same(h, g, bs[i].addr);
    }
  }

  lemma PrivateIsOff(bs: seq<Block>, x: int)
    requires Private(bs, x)
    ensures !OnChain(bs, x)
  {
    forall j: nat | j < |bs| ensures AddrAt(bs, j) != x {
      assert Clear(bs, j, x);
    }
  }

  lemma PrivateAfterTake(bs: seq<Block>, k: nat, need: int, x: int)
    requires Private(bs, x) && k < |bs| && bs[k].free && need > 0
    ensures !OnChain(Take(bs, k, need), x)
  {
    var r := Take(bs, k, need);
    forall j: nat | j < |r| ensures AddrAt(r, j) != x {
      if |r| > |bs| && j == k + 1 {
        assert Clear(bs, k, x);
      } else {
        var i := if j <= k || |r| == |bs| then j else j - 1;
        assert r[j].addr == bs[i].addr && Clear(bs, i, x);
      }
    }
  }

  lemma PrivateAfterRelease(bs: seq<Block>, i: nat, x: int)
    requires Private(bs, x) && i < |bs|
    ensures !OnChain(Release(bs, i), x)
  {
    var r := Release(bs, i);
    forall j: nat | j < |r| ensures AddrAt(r, j) != x {
      var was := if bs[i].free || j <= Lo(bs, i) then j else j + (Hi(bs, i) - Lo(bs, i)) - 1;
      assert r[j].addr == bs[was].addr && Clear(bs, was, x);
    }
  }

  /** What a call puts on the chain is in no memory that was given away. */
  lemma PrivateStays(bs: seq<Block>, op: Op, x: int)
    requires Private(bs, x)
    ensures !OnChain(bs, x) && !OnChain(Apply(bs, op), x)
  {
    PrivateIsOff(bs, x);
    match op
    case Malloc(size) =>
      var k := FitIndex(bs, size + HEADER_SIZE, 0);
      if size != 0 && k < |bs| { PrivateAfterTake(bs, k, size + HEADER_SIZE, x); }
    case Free(a) =>
      var i := IndexOf(bs, a);
      if i < |bs| { PrivateAfterRelease(bs, i, x); }
  }

  lemma KeptForClients(h: Heap, h': Heap, bs: seq<Block>, op: Op)
    requires OffChainKept(h, h', bs, Apply(bs, op))
    ensures ClientsKept(h, h', bs)
  {
    forall x | x in h && Private(bs, x) ensures Same(h, h', x) {
      PrivateStays(bs, op, x);
    }
  }

  // ---------------------------------------------------------------- my_malloc

  lemma {:induction false} ForwardSearchable(h: Heap, bs: seq<Block>, pool: int, end: int, i: nat)
    requires Forward(h, bs, pool, end) && i <= |bs|
    ensures Searchable(h, end, AddrAt(bs, i))
    ensures i < |bs| ==> bs[i].addr in h && NULL < pool <= bs[i].addr
    decreases |bs| - i
  {
    if i < |bs| {
      assert Fwd(h, bs, i);
      Ordered(bs, pool, end, i, i);
      if i + 1 < |bs| { Ordered(bs, pool, end, i, i + 1); }
      ForwardSearchable(h, bs, pool, end, i + 1);
    }
  }

  lemma {:induction false} FirstFitRefines(h: Heap, bs: seq<Block>, pool: int, end: int, i: nat, need: int)
    requires Forward(h, bs, pool, end) && i <= |bs|
    ensures Searchable(h, end, AddrAt(bs, i))
    ensures FirstFit(h, end, AddrAt(bs, i), need) == AddrAt(bs, FitIndex(bs, need, i))
    decreases |bs| - i
  {
    ForwardSearchable(h, bs, pool, end, i);
    if i == |bs| {
    } else {
      assert Fwd(h, bs, i);
      if !(bs[i].free && bs[i].size >= need) {
        FirstFitRefines(h, bs, pool, end, i + 1, need);
      }
    }
  }

  /** Without wrap-around the split writes two headers and nothing else. */
  lemma CarveWrites(h: Heap, c: int, need: int)
    requires c in h && HEADER_SIZE < need <= h[c].size < SIZE_VALUES / 2
    ensures Carve(h, c, need) ==
            if h[c].size < need + HEADER_SIZE then h[c := h[c].(isFree := false)]
            else h[c := Header(false, need, c + need, h[c].prev)]
                  [c + need := Header(true, h[c].size - need, h[c].next, c)]
  {
  }

  /** The request is for a block that is free and large enough, in a pool within the range of `size_t`. */
  ghost predicate Fitting(h: Heap, bs: seq<Block>, pool: int, end: int, k: nat, need: int) {
    Forward(h, bs, pool, end) && end < SIZE_VALUES / 2 &&
    k < |bs| && bs[k].free && bs[k].size >= need > HEADER_SIZE
  }

  lemma FittingBlock(h: Heap, bs: seq<Block>, pool: int, end: int, k: nat, need: int)
    requires Fitting(h, bs, pool, end, k, need)
    ensures var c := bs[k].addr;
            c in h && pool <= c && End(bs[k]) <= end && h[c].size == bs[k].size && h[c].isFree &&
            h[c].next == AddrAt(bs, k + 1) && (h[c].next == NULL || h[c].next in h) &&
            (k + 1 < |bs| ==> End(bs[k]) == bs[k + 1].addr) &&
            Carve(h, c, need) ==
              if !Splits(bs[k], need) then h[c := h[c].(isFree := false)]
              else h[c := Header(false, need, c + need, h[c].prev)]
                    [c + need := Header(true, bs[k].size - need, AddrAt(bs, k + 1), c)]
  {
    Ordered(bs, pool, end, k, k);
    assert Fwd(h, bs, k) && Fits(bs, k, end);
    if k + 1 < |bs| { assert Fwd(h, bs, k + 1); }
    CarveWrites(h, bs[k].addr, need);
  }

  /** The blocks other than k are not where the split writes. */
  lemma Elsewhere(bs: seq<Block>, pool: int, end: int, k: nat, j: nat)
    requires Tiled(bs, pool, end) && k < |bs| && j < |bs| && j != k
    ensures bs[j].addr < bs[k].addr || End(bs[k]) <= bs[j].addr
    ensures bs[j].addr != bs[k].addr
  {
    if j < k { Ordered(bs, pool, end, j, k); } else { Ordered(bs, pool, end, k, j); }
  }

  lemma CarveFwd(h: Heap, bs: seq<Block>, pool: int, end: int, k: nat, need: int, i: nat)
    requires Fitting(h, bs, pool, end, k, need) && i < |Take(bs, k, need)|
    ensures bs[k].addr in h && Fwd(Carve(h, bs[k].addr, need), Take(bs, k, need), i)
  {
    FittingBlock(h, bs, pool, end, k, need);
    var r := Take(bs, k, need);
    var j := if i <= k || |r| == |bs| then i else i - 1;
    assert Fwd(h, bs, j);
    if j != k {
      Elsewhere(bs, pool, end, k, j);
      assert r[i] == bs[j];
      assert AddrAt(r, i + 1) == AddrAt(bs, j + 1);
    }
  }

  lemma CarveForward(h: Heap, bs: seq<Block>, pool: int, end: int, k: nat, need: int)
    requires Fitting(h, bs, pool, end, k, need)
    ensures bs[k].addr in h && Forward(Carve(h, bs[k].addr, need), Take(bs, k, need), pool, end)
  {
    FittingBlock(h, bs, pool, end, k, need);
    TakeTiled(bs, pool, end, k, need);
    forall i: nat | i < |Take(bs, k, need)|
      ensures Fwd(Carve(h, bs[k].addr, need), Take(bs, k, need), i)
    {
      CarveFwd(h, bs, pool, end, k, need, i);
    }
  }

  /** The split leaves the back links that TakeBacks says. */
  lemma CarveBack(h: Heap, bs: seq<Block>, backs: seq<int>, pool: int, end: int, k: nat, need: int, i: nat)
    requires Fitting(h, bs, pool, end, k, need) && Linked(h, bs, backs, pool, end) && i < |Take(bs, k, need)|
    ensures bs[k].addr in h && |TakeBacks(bs, backs, k, need)| == |Take(bs, k, need)|
    ensures Back(Carve(h, bs[k].addr, need), Take(bs, k, need), i, TakeBacks(bs, backs, k, need)[i])
  {
    FittingBlock(h, bs, pool, end, k, need);
    var r := Take(bs, k, need);
    var j := if i <= k || |r| == |bs| then i else i - 1;
    assert Back(h, bs, j, backs[j]);
    if j != k {
      Elsewhere(bs, pool, end, k, j);
      assert r[i] == bs[j];
    }
  }

  lemma CarveLinked(h: Heap, bs: seq<Block>, backs: seq<int>, pool: int, end: int, k: nat, need: int)
    requires Fitting(h, bs, pool, end, k, need) && Linked(h, bs, backs, pool, end)
    ensures bs[k].addr in h
    ensures Linked(Carve(h, bs[k].addr, need), Take(bs, k, need), TakeBacks(bs, backs, k, need), pool, end)
  {
    CarveForward(h, bs, pool, end, k, need);
    var r, rb := Take(bs, k, need), TakeBacks(bs, backs, k, need);
    forall i: nat | i < |r| ensures Back(Carve(h, bs[k].addr, need), r, i, rb[i]) {
      CarveBack(h, bs, backs, pool, end, k, need, i);
    }
  }

  lemma CarveKeeps(h: Heap, bs: seq<Block>, pool: int, end: int, k: nat, need: int)
    requires Fitting(h, bs, pool, end, k, need)
    ensures bs[k].addr in h && OffChainKept(h, Carve(h, bs[k].addr, need), bs, Take(bs, k, need))
  {
    FittingBlock(h, bs, pool, end, k, need);
    assert AddrAt(bs, k) == bs[k].addr;
    if Splits(bs[k], need) { assert AddrAt(Take(bs, k, need), k + 1) == bs[k].addr + need; }
  }

  lemma MallocWrites(h: Heap, bs: seq<Block>, pool: int, end: int, size: nat)
    requires Forward(h, bs, pool, end) && size + HEADER_SIZE < SIZE_VALUES
    ensures Searchable(h, end, pool) && NULL < pool && !Overlaps(h, end, pool, size)
    ensures var k := FitIndex(bs, size + HEADER_SIZE, 0);
            if size == 0 || k == |bs| then
              Found(h, end, pool, size) == NULL && Allocated(bs, size) == bs && Granted(bs, size) == NULL
            else
              bs[k].addr in h && pool <= bs[k].addr && Found(h, end, pool, size) == bs[k].addr &&
              MallocHeap(h, end, pool, size) ==
                (Carve(h, bs[k].addr, size + HEADER_SIZE), bs[k].addr + HEADER_SIZE) &&
              Allocated(bs, size) == Take(bs, k, size + HEADER_SIZE) && Granted(bs, size) == bs[k].addr + HEADER_SIZE
  {
    var need := size + HEADER_SIZE;
    var k := FitIndex(bs, need, 0);
    FirstFitRefines(h, bs, pool, end, 0, need);
    if k < |bs| {
      assert Fwd(h, bs, k);
      Ordered(bs, pool, end, k, k);
    }
  }

  /**
   From any correct forward chain, whatever the back links are, `my_malloc` takes the lowest block
   that fits, keeps the chain and leaves the back links that BackLinks says.
   */
  lemma MallocRefines(h: Heap, bs: seq<Block>, backs: seq<int>, pool: int, end: int, size: nat)
    requires Linked(h, bs, backs, pool, end) && end < SIZE_VALUES / 2 && size + HEADER_SIZE < SIZE_VALUES
    ensures Searchable(h, end, pool) && !Overlaps(h, end, pool, size)
    ensures var (h', ptr) := MallocHeap(h, end, pool, size);
            Linked(h', Allocated(bs, size), BacksAfter(bs, backs, Op.Malloc(size)), pool, end) &&
            ptr == Granted(bs, size) && (ptr == NULL ==> h' == h && Allocated(bs, size) == bs) &&
            OffChainKept(h, h', bs, Allocated(bs, size))
  {
    MallocWrites(h, bs, pool, end, size);
    var k := FitIndex(bs, size + HEADER_SIZE, 0);
    if size != 0 && k < |bs| {
      CarveLinked(h, bs, backs, pool, end, k, size + HEADER_SIZE);
      CarveKeeps(h, bs, pool, end, k, size + HEADER_SIZE);
    }
  }

  /**
   The links agree after `my_malloc` exactly if the request does not split a block that has a
   successor: there the successor keeps pointing at the block that was split.
   */
  lemma MallocBackLinks(h: Heap, bs: seq<Block>, pool: int, end: int, size: nat)
    requires Repr(h, bs, pool, end) && end < SIZE_VALUES / 2 && size + HEADER_SIZE < SIZE_VALUES
    ensures Searchable(h, end, pool) && !Overlaps(h, end, pool, size)
    ensures Repr(MallocHeap(h, end, pool, size).0, Allocated(bs, size), pool, end) <==>
            size == 0 || !SplitsInside(bs, size + HEADER_SIZE)
  {
    MallocRefines(h, bs, Agreeing(bs), pool, end, size);
    CallAgrees(bs, Op.Malloc(size));
    var h' := MallocHeap(h, end, pool, size).0;
    SameBacks(h', Allocated(bs, size), BacksAfter(bs, Agreeing(bs), Op.Malloc(size)), pool, end);
  }

  /** The headers hold one list of back links only. */
  lemma SameBacks(h: Heap, bs: seq<Block>, backs: seq<int>, pool: int, end: int)
    requires Linked(h, bs, backs, pool, end)
    ensures Repr(h, bs, pool, end) <==> backs == Agreeing(bs)
  {
    if Repr(h, bs, pool, end) {
      forall i: nat | i < |bs| ensures backs[i] == Agreeing(bs)[i] {
        assert Back(h, bs, i, backs[i]) && Back(h, bs, i, Agreeing(bs)[i]);
      }
    }
  }

  /**
   The sum of size and header wraps around in `size_t`. If some free block holds the sum, it is
   granted, without writing one header over another and with room for the bytes asked for,
   exactly if the sum did not wrap.
   */
  lemma GrantedIsLargeEnough(h: Heap, bs: seq<Block>, pool: int, end: int, size: nat)
    requires Forward(h, bs, pool, end) && end < SIZE_VALUES / 2 && 0 < size < SIZE_VALUES
    requires FitIndex(bs, WrapSize(size + HEADER_SIZE), 0) < |bs|
    ensures Searchable(h, end, pool) && Found(h, end, pool, size) != NULL
    ensures (!Overlaps(h, end, pool, size) &&
             var (h', ptr) := MallocHeap(h, end, pool, size);
             ptr - HEADER_SIZE in h' && h'[ptr - HEADER_SIZE].size >= size + HEADER_SIZE) <==>
            size + HEADER_SIZE < SIZE_VALUES
  {
    var need := WrapSize(size + HEADER_SIZE);
    var k := FitIndex(bs, need, 0);
    FirstFitRefines(h, bs, pool, end, 0, need);
    assert Fwd(h, bs, k);
    Ordered(bs, pool, end, k, k);
  }

  /** In a pool of 40 bytes the largest request there is gets a block of 40 bytes. */
  lemma GrantedTooSmall(h: Heap)
    requires h == map[1000 := Header(true, 40, NULL, NULL)]
    ensures Forward(h, Whole(1000, 1040), 1000, 1040)
    ensures Searchable(h, 1040, 1000) && !Overlaps(h, 1040, 1000, SIZE_VALUES - 1)
    ensures MallocHeap(h, 1040, 1000, SIZE_VALUES - 1) == (h[1000 := Header(false, 40, NULL, NULL)], 1032)
  {
    assert Searchable(h, 1040, 1000);
    assert FirstFit(h, 1040, 1000, 31) == 1000;
  }

  /** In a larger one the same request makes the split write its second header into the first. */
  lemma HeadersOverlap(h: Heap)
    requires h == map[1000 := Header(true, 300, NULL, NULL)]
    ensures Forward(h, Whole(1000, 1300), 1000, 1300)
    ensures Searchable(h, 1300, 1000) && Overlaps(h, 1300, 1000, SIZE_VALUES - 1)
  {
    assert Searchable(h, 1300, 1000);
    assert FirstFit(h, 1300, 1000, 31) == 1000;
  }

  /** With the left-out assignment added, the links agree everywhere after a split. */
  lemma RelinkRepr(h: Heap, bs: seq<Block>, pool: int, end: int, k: nat, need: int)
    requires Fitting(h, bs, pool, end, k, need) && Repr(h, bs, pool, end)
    ensures bs[k].addr in h && (h[bs[k].addr].next == NULL || h[bs[k].addr].next in h)
    ensures Repr(RelinkedCarve(h, bs[k].addr, need), Take(bs, k, need), pool, end)
    ensures OffChainKept(h, RelinkedCarve(h, bs[k].addr, need), bs, Take(bs, k, need))
  {
    var c, r := bs[k].addr, Take(bs, k, need);
    FittingBlock(h, bs, pool, end, k, need);
    CarveForward(h, bs, pool, end, k, need);
    CarveKeeps(h, bs, pool, end, k, need);
    var hr, hf := Carve(h, c, need), RelinkedCarve(h, c, need);
    if k + 1 < |bs| { assert AddrAt(bs, k + 1) == bs[k + 1].addr; }
    forall i: nat | i < |r| ensures Fwd(hf, r, i) && Back(hf, r, i, Agreeing(r)[i]) {
      assert Fwd(hr, r, i);
      RelinkBack(h, bs, pool, end, k, need, i);
    }
  }

  lemma RelinkBack(h: Heap, bs: seq<Block>, pool: int, end: int, k: nat, need: int, i: nat)
    requires Fitting(h, bs, pool, end, k, need) && Repr(h, bs, pool, end) && i < |Take(bs, k, need)|
    requires bs[k].addr in h && (h[bs[k].addr].next == NULL || h[bs[k].addr].next in h)
    ensures var r, hf := Take(bs, k, need), RelinkedCarve(h, bs[k].addr, need);
            Back(hf, r, i, LinkOf(r, i)) && (Fwd(Carve(h, bs[k].addr, need), r, i) ==> Fwd(hf, r, i))
  {
    var r := Take(bs, k, need);
    FittingBlock(h, bs, pool, end, k, need);
    CarveBack(h, bs, Agreeing(bs), pool, end, k, need, i);
    if Splits(bs[k], need) && k + 1 < |bs| {
      TakeTiled(bs, pool, end, k, need);
      if i != k + 2 { Elsewhere(r, pool, end, k + 2, i); }
      if i > k + 2 { assert r[i - 1] == bs[i - 2]; }
      if 0 < i <= k { assert r[i - 1] == bs[i - 1]; }
    } else {
      if 0 < i { assert r[i - 1].addr == bs[i - 1].addr; }
    }
  }

  /** With the left-out assignment added, `my_malloc` keeps all links and does what BlockLists says. */
  lemma RelinkedMallocRefines(h: Heap, bs: seq<Block>, pool: int, end: int, size: nat)
    requires Repr(h, bs, pool, end) && end < SIZE_VALUES / 2 && size + HEADER_SIZE < SIZE_VALUES
    ensures Searchable(h, end, pool) && !Overlaps(h, end, pool, size)
    ensures var (h', ptr) := RelinkedMallocHeap(h, end, pool, size);
            ptr == Granted(bs, size) && Repr(h', Allocated(bs, size), pool, end) &&
            (ptr == NULL ==> Allocated(bs, size) == bs) && OffChainKept(h, h', bs, Allocated(bs, size))
  {
    var k := FitIndex(bs, size + HEADER_SIZE, 0);
    MallocWrites(h, bs, pool, end, size);
    if size != 0 && k < |bs| {
      RelinkRepr(h, bs, pool, end, k, size + HEADER_SIZE);
      assert RelinkedMallocHeap(h, end, pool, size).0 == RelinkedCarve(h, bs[k].addr, size + HEADER_SIZE);
    }
  }

  // ---------------------------------------------------------------- my_free, where its loops lead

  /** Blocks with block i marked free. */
  function Marked(bs: seq<Block>, i: nat): seq<Block>
    requires i < |bs|
  {
    bs[i := bs[i].(free := true)]
  }

  lemma MarkedLinked(h: Heap, bs: seq<Block>, backs: seq<int>, pool: int, end: int, i: nat)
    requires Linked(h, bs, backs, pool, end) && i < |bs|
    ensures bs[i].addr in h && Linked(MarkHeap(h, bs[i].addr), Marked(bs, i), backs, pool, end)
  {
    var a := bs[i].addr;
    assert Fwd(h, bs, i);
    var m, ms := MarkHeap(h, a), Marked(bs, i);
    forall j: nat | j < |ms| ensures Fwd(m, ms, j) && Fits(ms, j, end) && Back(m, ms, j, backs[j]) {
      assert Fwd(h, bs, j) && Fits(bs, j, end) && Back(h, bs, j, backs[j]);
      if j != i { Elsewhere(bs, pool, end, i, j); }
    }
  }

  lemma {:induction false} ForwardRunRefines(h: Heap, bs: seq<Block>, pool: int, end: int, i: nat)
    requires Forward(h, bs, pool, end) && i < |bs|
    ensures Searchable(h, end, bs[i].addr) && NULL < bs[i].addr
    ensures var last := bs[Hi(bs, i) - 1];
            ForwardRun(h, end, bs[i].addr) == (last.addr, End(last) - End(bs[i]))
    decreases |bs| - i
  {
    ForwardSearchable(h, bs, pool, end, i);
    assert Fwd(h, bs, i) && Fits(bs, i, end);
    if i + 1 < |bs| {
      assert Fwd(h, bs, i + 1);
      Ordered(bs, pool, end, 0, i + 1);
      ForwardRunRefines(h, bs, pool, end, i + 1);
    }
  }

  lemma {:induction false} SameHi(bs: seq<Block>, i: nat, j: nat)
    requires i <= j < |bs|
    ensures Hi(Marked(bs, i), j) == Hi(bs, j)
    decreases |bs| - j
  {
    if j + 1 < |bs| && bs[j + 1].free { SameHi(bs, i, j + 1); }
  }

  /** Where the links of a free run agree, the backward loop goes through the run. */
  lemma {:induction false} WalkDown(h: Heap, bs: seq<Block>, backs: seq<int>, pool: int, end: int, lo: nat, i: nat)
    requires Linked(h, bs, backs, pool, end) && lo <= i < |bs|
    requires forall j: nat {:trigger backs[j]} :: lo < j <= i ==> backs[j] == LinkOf(bs, j)
    requires forall j :: lo <= j < i ==> bs[j].free
    ensures Retraceable(h, bs[i].addr) <==> Retraceable(h, bs[lo].addr)
    ensures Retraceable(h, bs[i].addr) ==>
              var b, r := BackwardRun(h, bs[i].addr), BackwardRun(h, bs[lo].addr);
              b.0 == r.0 && b.1 == r.1 + bs[i].addr - bs[lo].addr
    decreases i
  {
    if i == lo {
    } else {
      assert Back(h, bs, i, backs[i]) && backs[i] == bs[i - 1].addr;
      assert Fwd(h, bs, i) && Fwd(h, bs, i - 1) && Fits(bs, i - 1, end);
      Ordered(bs, pool, end, i - 1, i);
      WalkDown(h, bs, backs, pool, end, lo, i - 1);
    }
  }

  /** Where the forward loop of `my_free` stops, and what it adds up. */
  lemma ForwardRunMarked(h: Heap, bs: seq<Block>, backs: seq<int>, pool: int, end: int, i: nat)
    requires Linked(h, bs, backs, pool, end) && i < |bs|
    ensures bs[i].addr in h
    ensures var m, last := MarkHeap(h, bs[i].addr), bs[Hi(bs, i) - 1];
            Linked(m, Marked(bs, i), backs, pool, end) &&
            Searchable(m, end, bs[i].addr) && NULL < bs[i].addr &&
            ForwardRun(m, end, bs[i].addr) == (last.addr, End(last) - End(bs[i]))
  {
    MarkedLinked(h, bs, backs, pool, end, i);
    ForwardRunRefines(MarkHeap(h, bs[i].addr), Marked(bs, i), pool, end, i);
    SameHi(bs, i, i);
  }

  /** The headers that `my_free` changes, in the map with the block marked free. */
  lemma FreeTargets(m: Heap, bs: seq<Block>, pool: int, end: int, i: nat)
    requires i < |bs| && Forward(m, Marked(bs, i), pool, end)
    ensures var lo, hi := Lo(bs, i), Hi(bs, i);
            bs[lo].addr in m && bs[hi - 1].addr in m && m[bs[hi - 1].addr].next == AddrAt(bs, hi) &&
            (AddrAt(bs, hi) == NULL || AddrAt(bs, hi) in m)
  {
    var ms, lo, hi := Marked(bs, i), Lo(bs, i), Hi(bs, i);
    assert Fwd(m, ms, lo) && Fwd(m, ms, hi - 1);
    if hi < |bs| { assert Fwd(m, ms, hi); }
  }

  /** What `my_free` adds up and writes, wherever the back links lead. */
  lemma FreeShape(h: Heap, bs: seq<Block>, backs: seq<int>, pool: int, end: int, i: nat)
    requires Linked(h, bs, backs, pool, end) && i < |bs| && !bs[i].free
    requires bs[i].addr in h && Retraceable(MarkHeap(h, bs[i].addr), bs[i].addr)
    ensures var a, m, hi := bs[i].addr, MarkHeap(h, bs[i].addr), Hi(bs, i);
            Freeable(h, end, a) && !h[a].isFree &&
            Linked(m, Marked(bs, i), backs, pool, end) && (AddrAt(bs, hi) == NULL || AddrAt(bs, hi) in m) &&
            FreeTotal(h, end, a) == End(bs[hi - 1]) - a + BackwardRun(m, a).1 &&
            FreeHeap(h, end, a) == Unlink(m, BackwardRun(m, a).0, AddrAt(bs, hi), Stored(FreeTotal(h, end, a)))
  {
    assert Fwd(h, bs, i);
    ForwardRunMarked(h, bs, backs, pool, end, i);
    FreeTargets(MarkHeap(h, bs[i].addr), bs, pool, end, i);
  }

  // ---------------------------------------------------------------- my_free, if the release is safe

  /** The first of the free run is where the backward loop of a safe release stops. */
  lemma SafeStop(m: Heap, bs: seq<Block>, backs: seq<int>, pool: int, end: int, i: nat)
    requires i < |bs| && !bs[i].free && Linked(m, Marked(bs, i), backs, pool, end) && SafeLinks(bs, backs, i)
    ensures var first := bs[Lo(bs, i)].addr;
            first == Marked(bs, i)[Lo(bs, i)].addr && Retraceable(m, first) && BackwardRun(m, first) == (first, 0)
  {
    var ms, lo := Marked(bs, i), Lo(bs, i);
    Ordered(ms, pool, end, lo, lo);
    assert Fwd(m, ms, lo) && Back(m, ms, lo, backs[lo]);
    if backs[lo] != NULL {
      var k: nat :| k < lo && bs[k].addr == backs[lo] && !bs[k].free;
      assert Fwd(m, ms, k) && ms[k] == bs[k];
      Ordered(ms, pool, end, k, lo);
    }
  }

  /** The backward loop of a safe release goes to the first of the free run and no further. */
  lemma SafeWalk(m: Heap, bs: seq<Block>, backs: seq<int>, pool: int, end: int, i: nat)
    requires i < |bs| && !bs[i].free && Linked(m, Marked(bs, i), backs, pool, end) && SafeLinks(bs, backs, i)
    ensures var a, first := bs[i].addr, bs[Lo(bs, i)].addr;
            Retraceable(m, a) && BackwardRun(m, a) == (first, a - first)
  {
    var ms, lo := Marked(bs, i), Lo(bs, i);
    SafeStop(m, bs, backs, pool, end, i);
    forall j: nat {:trigger backs[j]} | lo < j <= i ensures backs[j] == LinkOf(ms, j) {
      assert backs[j] == LinkOf(bs, j);
    }
    WalkDown(m, ms, backs, pool, end, lo, i);
  }

  /** The last writes of `my_free` turn a run of free blocks on the chain into one. */
  lemma UnlinkBlock(h: Heap, bs: seq<Block>, backs: seq<int>, pool: int, end: int, lo: nat, hi: nat, i: nat)
    requires Linked(h, bs, backs, pool, end) && lo < hi <= |bs| && bs[lo].free
    requires i < |Merge(bs, lo, hi)|
    ensures bs[lo].addr in h && (AddrAt(bs, hi) == NULL || AddrAt(bs, hi) in h)
    ensures var hr := Unlink(h, bs[lo].addr, AddrAt(bs, hi), End(bs[hi - 1]) - bs[lo].addr);
            Fwd(hr, Merge(bs, lo, hi), i) && Back(hr, Merge(bs, lo, hi), i, MergeBacks(bs, backs, lo, hi)[i])
  {
    var r := Merge(bs, lo, hi);
    var j := OldPlace(i, lo, hi);
    assert Fwd(h, bs, lo) && Fwd(h, bs, j) && Back(h, bs, j, backs[j]);
    if hi < |bs| { assert Fwd(h, bs, hi); Ordered(bs, pool, end, lo, hi); }
    Ordered(bs, pool, end, lo, hi - 1);
    if j != lo { Elsewhere(bs, pool, end, lo, j); }
    if hi < |bs| && j != hi { Elsewhere(bs, pool, end, hi, j); }
  }

  lemma UnlinkLinked(h: Heap, bs: seq<Block>, backs: seq<int>, pool: int, end: int, lo: nat, hi: nat)
    requires Linked(h, bs, backs, pool, end) && lo < hi <= |bs| && bs[lo].free
    ensures bs[lo].addr in h && (AddrAt(bs, hi) == NULL || AddrAt(bs, hi) in h)
    ensures Linked(Unlink(h, bs[lo].addr, AddrAt(bs, hi), End(bs[hi - 1]) - bs[lo].addr),
                   Merge(bs, lo, hi), MergeBacks(bs, backs, lo, hi), pool, end)
  {
    assert Fwd(h, bs, lo);
    if hi < |bs| { assert Fwd(h, bs, hi); }
    MergeTiled(bs, pool, end, lo, hi);
    var hr := Unlink(h, bs[lo].addr, AddrAt(bs, hi), End(bs[hi - 1]) - bs[lo].addr);
    forall i: nat | i < |Merge(bs, lo, hi)|
      ensures Fwd(hr, Merge(bs, lo, hi), i) && Back(hr, Merge(bs, lo, hi), i, MergeBacks(bs, backs, lo, hi)[i])
    {
      UnlinkBlock(h, bs, backs, pool, end, lo, hi, i);
    }
  }

  lemma IntLimit(x: int)
    requires 0 <= x < SIZE_VALUES / 2
    ensures Stored(x) == x <==> x <= INT_MAX
  {
  }

  /** From h, with block i marked free, the last writes of `my_free` lead to h'. */
  ghost predicate Unlinks(h: Heap, h': Heap, bs: seq<Block>, backs: seq<int>, pool: int, end: int, i: nat, size: int)
    requires i < |bs|
  {
    var lo, hi := Lo(bs, i), Hi(bs, i);
    bs[i].addr in h &&
    var m := MarkHeap(h, bs[i].addr);
    Linked(m, Marked(bs, i), backs, pool, end) &&
    bs[lo].addr in m && (AddrAt(bs, hi) == NULL || AddrAt(bs, hi) in m) &&
    h' == Unlink(m, bs[lo].addr, AddrAt(bs, hi), size)
  }

  /** What `my_free` writes if the backward loop meets what it should. */
  lemma FreeWrites(h: Heap, bs: seq<Block>, backs: seq<int>, pool: int, end: int, i: nat)
    requires Linked(h, bs, backs, pool, end) && i < |bs| && !bs[i].free && SafeLinks(bs, backs, i)
    ensures Freeable(h, end, bs[i].addr) && !h[bs[i].addr].isFree
    ensures FreeTotal(h, end, bs[i].addr) == MergedSize(bs, i)
    ensures Unlinks(h, FreeHeap(h, end, bs[i].addr), bs, backs, pool, end, i, Stored(MergedSize(bs, i)))
  {
    MarkedLinked(h, bs, backs, pool, end, i);
    var m := MarkHeap(h, bs[i].addr);
    SafeWalk(m, bs, backs, pool, end, i);
    FreeShape(h, bs, backs, pool, end, i);
    FreeTargets(m, bs, pool, end, i);
  }

  lemma MarkedPlaces(bs: seq<Block>, backs: seq<int>, i: nat)
    requires i < |bs| == |backs| && !bs[i].free
    ensures var ms, lo, hi := Marked(bs, i), Lo(bs, i), Hi(bs, i);
            ms[lo].free && ms[lo].addr == bs[lo].addr && AddrAt(ms, hi) == AddrAt(bs, hi) &&
            End(ms[hi - 1]) - ms[lo].addr == MergedSize(bs, i) && Merge(ms, lo, hi) == Release(bs, i) &&
            MergeBacks(ms, backs, lo, hi) == ReleaseBacks(bs, backs, i)
  {
    var ms, lo, hi := Marked(bs, i), Lo(bs, i), Hi(bs, i);
    assert ms[..lo] == bs[..lo] && ms[hi..] == bs[hi..];
    assert ms[hi - 1].addr == bs[hi - 1].addr && ms[hi - 1].size == bs[hi - 1].size;
  }

  lemma UnlinksLinked(h: Heap, h': Heap, bs: seq<Block>, backs: seq<int>, pool: int, end: int, i: nat)
    requires i < |bs| == |backs| && !bs[i].free && Unlinks(h, h', bs, backs, pool, end, i, MergedSize(bs, i))
    ensures Linked(h', Release(bs, i), ReleaseBacks(bs, backs, i), pool, end)
  {
    var m, ms, lo, hi := MarkHeap(h, bs[i].addr), Marked(bs, i), Lo(bs, i), Hi(bs, i);
    MarkedPlaces(bs, backs, i);
    UnlinkLinked(m, ms, backs, pool, end, lo, hi);
    assert h' == Unlink(m, ms[lo].addr, AddrAt(ms, hi), End(ms[hi - 1]) - ms[lo].addr);
  }

  lemma UnlinksKeeps(h: Heap, h': Heap, bs: seq<Block>, backs: seq<int>, pool: int, end: int, i: nat, size: int)
    requires i < |bs| && !bs[i].free && Unlinks(h, h', bs, backs, pool, end, i, size)
    ensures OffChainKept(h, h', bs, Release(bs, i))
  {
    var lo, hi := Lo(bs, i), Hi(bs, i);
    assert AddrAt(bs, i) == bs[i].addr && AddrAt(bs, lo) == bs[lo].addr;
    forall x | x in h && !OnChain(bs, x) ensures Same(h, h', x) {
      assert x != bs[i].addr && x != bs[lo].addr;
      if hi < |bs| { assert AddrAt(bs, hi) != x; }
    }
  }

  /**
   From any correct forward chain a safe release merges the block with the free runs on both sides;
   the block behind then points back to it, every other header of the chain keeps the link it had,
   right or wrong, and nothing off the chain is changed.
   */
  lemma FreeRefines(h: Heap, bs: seq<Block>, backs: seq<int>, pool: int, end: int, i: nat)
    requires Linked(h, bs, backs, pool, end) && end < SIZE_VALUES / 2 && i < |bs|
    requires bs[i].free || SafeRelease(bs, backs, i)
    ensures Freeable(h, end, bs[i].addr)
    ensures Linked(FreeHeap(h, end, bs[i].addr), Release(bs, i), ReleaseBacks(bs, backs, i), pool, end)
    ensures OffChainKept(h, FreeHeap(h, end, bs[i].addr), bs, Release(bs, i))
  {
    assert Fwd(h, bs, i);
    Ordered(bs, pool, end, i, i);
    if !bs[i].free {
      FreeWrites(h, bs, backs, pool, end, i);
      MergedFits(bs, pool, end, i);
      IntLimit(MergedSize(bs, i));
      UnlinksLinked(h, FreeHeap(h, end, bs[i].addr), bs, backs, pool, end, i);
      UnlinksKeeps(h, FreeHeap(h, end, bs[i].addr), bs, backs, pool, end, i, MergedSize(bs, i));
    }
  }

  lemma WrittenSize(h: Heap, bs: seq<Block>, backs: seq<int>, pool: int, end: int, i: nat)
    requires Linked(h, bs, backs, pool, end) && i < |bs| && !bs[i].free && SafeLinks(bs, backs, i)
    ensures Freeable(h, end, bs[i].addr) && bs[Lo(bs, i)].addr in FreeHeap(h, end, bs[i].addr)
    ensures FreeHeap(h, end, bs[i].addr)[bs[Lo(bs, i)].addr].size == Stored(MergedSize(bs, i))
  {
    FreeWrites(h, bs, backs, pool, end, i);
  }

  /** The `int` merge size is the exact limit: the size written is right if and only if it is at most INT_MAX. */
  lemma MergeSizeLimit(h: Heap, bs: seq<Block>, backs: seq<int>, pool: int, end: int, i: nat)
    requires Linked(h, bs, backs, pool, end) && end < SIZE_VALUES / 2
    requires i < |bs| && !bs[i].free && SafeLinks(bs, backs, i)
    ensures Freeable(h, end, bs[i].addr) && bs[Lo(bs, i)].addr in FreeHeap(h, end, bs[i].addr)
    ensures FreeHeap(h, end, bs[i].addr)[bs[Lo(bs, i)].addr].size == MergedSize(bs, i) <==>
            MergedSize(bs, i) <= INT_MAX
  {
    WrittenSize(h, bs, backs, pool, end, i);
    MergedFits(bs, pool, end, i);
    IntLimit(MergedSize(bs, i));
  }

  /** In a pool of 2^31 bytes, allocating all of it and freeing it leaves a block of 2^64 - 2^31 bytes. */
  lemma MergeSizeOverflows(h: Heap)
    requires h == map[1000 := Header(true, INT_MAX + 1, NULL, NULL)]
    ensures var end, taken := 1000 + INT_MAX + 1, map[1000 := Header(false, INT_MAX + 1, NULL, NULL)];
            Forward(h, Whole(1000, end), 1000, end) && Searchable(h, end, 1000) &&
            !Overlaps(h, end, 1000, INT_MAX + 1 - HEADER_SIZE) &&
            MallocHeap(h, end, 1000, INT_MAX + 1 - HEADER_SIZE) == (taken, 1032) &&
            Freeable(taken, end, 1000) &&
            FreeHeap(taken, end, 1000) == map[1000 := Header(true, SIZE_VALUES - INT_MAX - 1, NULL, NULL)]
  {
    var end, taken := 1000 + INT_MAX + 1, map[1000 := Header(false, INT_MAX + 1, NULL, NULL)];
    assert Searchable(h, end, 1000);
    assert FirstFit(h, end, 1000, INT_MAX + 1) == 1000;
    assert Carve(h, 1000, INT_MAX + 1) == taken;
    var m := MarkHeap(taken, 1000);
    assert m == map[1000 := Header(true, INT_MAX + 1, NULL, NULL)];
    assert Searchable(m, end, 1000) && Retraceable(m, 1000);
    assert ForwardRun(m, end, 1000) == BackwardRun(m, 1000) == (1000, 0);
    assert Stored(INT_MAX + 1) == SIZE_VALUES - INT_MAX - 1;
  }

  // ---------------------------------------------------------------- my_free, if it is not

  /** Whatever is free below address y is a header of the chain. */
  ghost predicate QuietBelow(h: Heap, bs: seq<Block>, y: int) {
    forall x :: x in h && x < y && h[x].isFree ==> OnChain(bs, x)
  }

  /**
   If nothing off the chain looks free, the backward loop ends at a header of the chain. It adds up at
   most the distance gone, and all of it only along links that agree.
   */
  lemma {:induction false} ChainWalk(h: Heap, bs: seq<Block>, backs: seq<int>, pool: int, end: int, k: nat)
    returns (j: nat)
    requires Linked(h, bs, backs, pool, end) && k < |bs|
    requires Retraceable(h, bs[k].addr) && QuietBelow(h, bs, bs[k].addr)
    ensures j <= k && BackwardRun(h, bs[k].addr).0 == bs[j].addr
    ensures 0 <= BackwardRun(h, bs[k].addr).1 <= bs[k].addr - bs[j].addr
    ensures BackwardRun(h, bs[k].addr).1 == bs[k].addr - bs[j].addr ==>
              forall x: nat {:trigger backs[x]} :: j < x <= k ==> backs[x] == LinkOf(bs, x)
    ensures backs[j] == NULL || (backs[j] in h && backs[j] < bs[j].addr && !h[backs[j]].isFree)
    decreases k
  {
    assert Back(h, bs, k, backs[k]);
    var p := backs[k];
    if p == NULL || !h[p].isFree {
      j := k;
    } else {
      assert OnChain(bs, p);
      var k': nat :| k' < |bs| && AddrAt(bs, k') == p;
      if k <= k' { Ordered(bs, pool, end, k, k'); }
      Ordered(bs, pool, end, k', k);
      assert Fwd(h, bs, k') && Fits(bs, k', end);
      j := ChainWalk(h, bs, backs, pool, end, k');
      if k' + 1 < k { Ordered(bs, pool, end, k' + 1, k); }
    }
  }

  /** The blocks up to the merged one. */
  lemma MergedPlaces(bs: seq<Block>, lo: nat, hi: nat, j: nat)
    requires lo < hi <= |bs| && j <= lo
    ensures Merge(bs, lo, hi)[j].addr == bs[j].addr
    ensures j < lo ==> AddrAt(Merge(bs, lo, hi), j + 1) == bs[j + 1].addr
    ensures j == lo ==> Merge(bs, lo, hi)[j].size == End(bs[hi - 1]) - bs[lo].addr
  {
  }

  /** A block before the run keeps its successor, which is not the one behind the run. */
  lemma OtherNext(bs: seq<Block>, pool: int, end: int, lo: nat, hi: nat, j: nat)
    requires Tiled(bs, pool, end) && j < lo < hi <= |bs|
    ensures AddrAt(Merge(bs, lo, hi), j + 1) != AddrAt(bs, hi)
  {
    MergedPlaces(bs, lo, hi, j);
    Ordered(bs, pool, end, 0, j + 1);
    if hi < |bs| { Ordered(bs, pool, end, j + 1, hi); }
  }

  /** A block before the free run cannot be what is written: its successor would be lost. */
  lemma EndsNotBefore(m: Heap, h': Heap, bs: seq<Block>, pool: int, end: int, lo: nat, hi: nat, j: nat, size: int)
    requires Tiled(bs, pool, end) && j < lo < hi <= |bs|
    requires bs[j].addr in m && (AddrAt(bs, hi) == NULL || AddrAt(bs, hi) in m)
    requires h' == Unlink(m, bs[j].addr, AddrAt(bs, hi), size)
    ensures !Forward(h', Merge(bs, lo, hi), pool, end)
  {
    MergedPlaces(bs, lo, hi, j);
    OtherNext(bs, pool, end, lo, hi, j);
    assert h'[bs[j].addr].next == AddrAt(bs, hi);
    assert !Fwd(h', Merge(bs, lo, hi), j);
  }

  /** A block inside the free run cannot be either: the first of the run would keep its size. */
  lemma EndsNotInside(m: Heap, h': Heap, bs: seq<Block>, pool: int, end: int, lo: nat, hi: nat, j: nat, size: int)
    requires Tiled(bs, pool, end) && lo < j < hi <= |bs|
    requires bs[j].addr in m && (AddrAt(bs, hi) == NULL || AddrAt(bs, hi) in m)
    requires bs[lo].addr in m && m[bs[lo].addr].size == bs[lo].size
    requires h' == Unlink(m, bs[j].addr, AddrAt(bs, hi), size)
    ensures !Forward(h', Merge(bs, lo, hi), pool, end)
  {
    Ordered(bs, pool, end, lo, j);
    Ordered(bs, pool, end, j, hi - 1);
    assert h'[bs[lo].addr].size == bs[lo].size;
    MergedPlaces(bs, lo, hi, lo);
    assert !Fwd(h', Merge(bs, lo, hi), lo);
  }

  /** If the chain is right afterwards, the block written is the first of the free run, with the size of it all. */
  lemma EndsAtFirst(m: Heap, h': Heap, bs: seq<Block>, pool: int, end: int, lo: nat, hi: nat, j: nat, size: int)
    requires Tiled(bs, pool, end) && lo < hi <= |bs| && j < hi
    requires bs[j].addr in m && (AddrAt(bs, hi) == NULL || AddrAt(bs, hi) in m)
    requires bs[lo].addr in m && m[bs[lo].addr].size == bs[lo].size
    requires h' == Unlink(m, bs[j].addr, AddrAt(bs, hi), size) && Forward(h', Merge(bs, lo, hi), pool, end)
    ensures j == lo && size == End(bs[hi - 1]) - bs[lo].addr
  {
    if j < lo {
      EndsNotBefore(m, h', bs, pool, end, lo, hi, j, size);
    } else if j > lo {
      EndsNotInside(m, h', bs, pool, end, lo, hi, j, size);
    } else {
      MergedPlaces(bs, lo, hi, lo);
      assert Fwd(h', Merge(bs, lo, hi), lo);
    }
  }

  /** The chain after a release is right, and memory that was given away has not changed. */
  ghost predicate FreeRight(h: Heap, bs: seq<Block>, pool: int, end: int, i: nat)
    requires i < |bs|
  {
    var a := bs[i].addr;
    Freeable(h, end, a) && Forward(FreeHeap(h, end, a), Release(bs, i), pool, end) &&
    ClientsKept(h, FreeHeap(h, end, a), bs)
  }

  /** A sum that is stored as a larger size can only be that size. */
  lemma StoredExact(x: int, y: int)
    requires 0 <= x <= y < SIZE_VALUES / 2 && Stored(x) == y
    ensures x == y <= INT_MAX
  {
  }

  /** The back links behind block lo up to block i agree. */
  ghost predicate AgreeingFrom(bs: seq<Block>, backs: seq<int>, lo: nat, i: nat)
    requires i < |bs| == |backs|
  {
    forall x: nat {:trigger backs[x]} :: lo < x <= i ==> backs[x] == LinkOf(bs, x)
  }

  /** A release has gone back to block j: what it writes, what it has added up and where it stopped. */
  ghost predicate WalkEnds(h: Heap, bs: seq<Block>, backs: seq<int>, pool: int, end: int, i: nat, j: nat)
    requires i < |bs|
  {
    var a, hi := bs[i].addr, Hi(bs, i);
    j <= i && Freeable(h, end, a) && !h[a].isFree && |backs| == |bs| &&
    var m, total := MarkHeap(h, a), FreeTotal(h, end, a);
    Forward(m, Marked(bs, i), pool, end) && bs[j].addr in m && (AddrAt(bs, hi) == NULL || AddrAt(bs, hi) in m) &&
    FreeHeap(h, end, a) == Unlink(m, bs[j].addr, AddrAt(bs, hi), Stored(total)) &&
    (backs[j] == NULL || (backs[j] in m && backs[j] < bs[j].addr && !m[backs[j]].isFree)) &&
    TotalOk(bs, backs, i, j, total)
  }

  /** The sum is at most the size from block j to the end of the free run, and all of it only if the links agree. */
  ghost predicate TotalOk(bs: seq<Block>, backs: seq<int>, i: nat, j: nat, total: int)
    requires j <= i < |bs| == |backs|
  {
    var full := End(bs[Hi(bs, i) - 1]) - bs[j].addr;
    0 <= total - (End(bs[Hi(bs, i) - 1]) - bs[i].addr) && total <= full &&
    (total == full ==> AgreeingFrom(bs, backs, j, i))
  }

  lemma QuietFree(h: Heap, bs: seq<Block>, backs: seq<int>, pool: int, end: int, i: nat) returns (j: nat)
    requires Linked(h, bs, backs, pool, end) && i < |bs| && !bs[i].free
    requires QuietBelow(h, bs, end) && Freeable(h, end, bs[i].addr)
    ensures WalkEnds(h, bs, backs, pool, end, i, j)
  {
    assert Fwd(h, bs, i);
    var m, ms := MarkHeap(h, bs[i].addr), Marked(bs, i);
    FreeShape(h, bs, backs, pool, end, i);
    MarkedQuiet(h, bs, pool, end, i);
    j := ChainWalk(m, ms, backs, pool, end, i);
    assert ms[j].addr == bs[j].addr;
    if BackwardRun(m, bs[i].addr).1 == bs[i].addr - bs[j].addr {
      forall x: nat {:trigger backs[x]} | j < x <= i ensures backs[x] == LinkOf(bs, x) {
        assert backs[x] == LinkOf(ms, x);
      }
    }
  }

  lemma RightEnds(m: Heap, h': Heap, bs: seq<Block>, pool: int, end: int, i: nat, j: nat, size: int)
    requires j <= i < |bs| && !bs[i].free && Tiled(bs, pool, end) && Forward(m, Marked(bs, i), pool, end)
    requires bs[j].addr in m && (AddrAt(bs, Hi(bs, i)) == NULL || AddrAt(bs, Hi(bs, i)) in m)
    requires h' == Unlink(m, bs[j].addr, AddrAt(bs, Hi(bs, i)), size) && Forward(h', Release(bs, i), pool, end)
    ensures j == Lo(bs, i) && size == MergedSize(bs, i)
  {
    FirstSize(m, bs, pool, end, i);
    EndsAtFirst(m, h', bs, pool, end, Lo(bs, i), Hi(bs, i), j, size);
  }

  lemma FirstSize(m: Heap, bs: seq<Block>, pool: int, end: int, i: nat)
    requires i < |bs| && Forward(m, Marked(bs, i), pool, end)
    ensures bs[Lo(bs, i)].addr in m && m[bs[Lo(bs, i)].addr].size == bs[Lo(bs, i)].size
  {
    assert Fwd(m, Marked(bs, i), Lo(bs, i));
  }

  lemma TotalAgrees(bs: seq<Block>, backs: seq<int>, pool: int, end: int, i: nat, total: int)
    requires i < |bs| == |backs| && Tiled(bs, pool, end) && end < SIZE_VALUES / 2
    requires TotalOk(bs, backs, i, Lo(bs, i), total) && Stored(total) == MergedSize(bs, i)
    ensures MergedSize(bs, i) <= INT_MAX && AgreeingFrom(bs, backs, Lo(bs, i), i)
  {
    MergedFits(bs, pool, end, i);
    Ordered(bs, pool, end, i, Hi(bs, i) - 1);
    StoredExact(total, MergedSize(bs, i));
  }

  lemma LeadsToUsed(m: Heap, bs: seq<Block>, pool: int, end: int, i: nat, lo: nat, p: int)
    requires lo <= i < |bs| && Tiled(bs, pool, end) && Forward(m, Marked(bs, i), pool, end)
    requires OnChain(bs, p) && p in m && p < bs[lo].addr && !m[p].isFree
    ensures p == NULL || UsedBefore(bs, lo, p)
  {
    if p != NULL {
      var k: nat :| k < |bs| && AddrAt(bs, k) == p;
      assert Fwd(m, Marked(bs, i), k);
      if lo <= k { Ordered(bs, pool, end, lo, k); }
    }
  }

  /** What a right release tells of the links if nothing off the chain looks free. */
  lemma RightMeansAgreeing(h: Heap, bs: seq<Block>, backs: seq<int>, pool: int, end: int, i: nat)
    requires Linked(h, bs, backs, pool, end) && end < SIZE_VALUES / 2 && i < |bs| && !bs[i].free
    requires QuietBelow(h, bs, end) && FreeRight(h, bs, pool, end, i)
    ensures MergedSize(bs, i) <= INT_MAX && AgreeingFrom(bs, backs, Lo(bs, i), i)
    ensures var lo := Lo(bs, i);
            backs[lo] == NULL ||
            (backs[lo] in h && backs[lo] < bs[lo].addr && (OnChain(bs, backs[lo]) ==> UsedBefore(bs, lo, backs[lo])))
  {
    var j := QuietFree(h, bs, backs, pool, end, i);
    var total := FreeTotal(h, end, bs[i].addr);
    RightEnds(MarkHeap(h, bs[i].addr), FreeHeap(h, end, bs[i].addr), bs, pool, end, i, j, Stored(total));
    TotalAgrees(bs, backs, pool, end, i, total);
    if backs[j] != NULL && OnChain(bs, backs[j]) {
      LeadsToUsed(MarkHeap(h, bs[i].addr), bs, pool, end, i, j, backs[j]);
    }
  }

  lemma MarkedQuiet(h: Heap, bs: seq<Block>, pool: int, end: int, i: nat)
    requires Tiled(bs, pool, end) && i < |bs| && bs[i].addr in h && QuietBelow(h, bs, end)
    ensures QuietBelow(MarkHeap(h, bs[i].addr), Marked(bs, i), bs[i].addr)
  {
    Ordered(bs, pool, end, i, i);
    var m, ms := MarkHeap(h, bs[i].addr), Marked(bs, i);
    forall x | x in m && x < bs[i].addr && m[x].isFree ensures OnChain(ms, x) {
      var k: nat :| k < |bs| && AddrAt(bs, k) == x;
      assert AddrAt(ms, k) == x;
    }
  }

  /** Memory in which nothing off the chain looks free. */
  ghost function Quiet(h: Heap, bs: seq<Block>): (g: Heap)
    ensures ClientWrite(h, g, bs) && g.Keys == h.Keys
    ensures forall x :: x in h && !OnChain(bs, x) ==> g[x] == Header(false, 0, NULL, NULL)
  {
    map x | x in h :: if OnChain(bs, x) then h[x] else Header(false, 0, NULL, NULL)
  }

  /** The first of the free run points to memory that is not on the chain; there a client holds this. */
  ghost function Planted(h: Heap, bs: seq<Block>, p: int, next: int, prev: int): (g: Heap)
    requires p in h && !OnChain(bs, p)
    ensures ClientWrite(h, g, bs)
  {
    var g := Quiet(h, bs)[p := Header(true, 0, next, prev)];
    assert forall x :: x in h && OnChain(bs, x) ==> Same(h, Quiet(h, bs), x);
    g
  }

  /** With that in memory the backward loop goes on from there. */
  lemma StrayWalk(g: Heap, bs: seq<Block>, backs: seq<int>, pool: int, end: int, i: nat, p: int)
    requires Linked(g, bs, backs, pool, end) && i < |bs| && !bs[i].free && AgreeingFrom(bs, backs, Lo(bs, i), i)
    requires backs[Lo(bs, i)] == p != NULL && p in g && p < bs[Lo(bs, i)].addr && g[p].isFree
    requires Freeable(g, end, bs[i].addr) && !g[bs[i].addr].isFree
    ensures var m := MarkHeap(g, bs[i].addr);
            m[p] == g[p] && Retraceable(m, p) && BackwardRun(m, bs[i].addr).0 == BackwardRun(m, p).0
  {
    var m, ms, lo := MarkHeap(g, bs[i].addr), Marked(bs, i), Lo(bs, i);
    MarkedLinked(g, bs, backs, pool, end, i);
    forall x: nat {:trigger backs[x]} | lo < x <= i ensures backs[x] == LinkOf(ms, x) {
      assert backs[x] == LinkOf(bs, x);
    }
    WalkDown(m, ms, backs, pool, end, lo, i);
    assert Back(m, ms, lo, backs[lo]);
    Ordered(bs, pool, end, lo, i);
  }

  lemma StrayWrites(h: Heap, bs: seq<Block>, backs: seq<int>, pool: int, end: int, i: nat, p: int, next: int)
    requires Linked(h, bs, backs, pool, end) && i < |bs| && !bs[i].free && AgreeingFrom(bs, backs, Lo(bs, i), i)
    requires backs[Lo(bs, i)] == p != NULL && p in h && p < bs[Lo(bs, i)].addr && !OnChain(bs, p)
    requires Freeable(Planted(h, bs, p, next, NULL), end, bs[i].addr)
    ensures var g := Planted(h, bs, p, next, NULL);
            p in FreeHeap(g, end, bs[i].addr) && FreeHeap(g, end, bs[i].addr)[p].next == AddrAt(bs, Hi(bs, i))
  {
    var g := Planted(h, bs, p, next, NULL);
    WriteKeepsLinked(h, g, bs, backs, pool, end);
    assert Fwd(g, bs, i);
    StrayWalk(g, bs, backs, pool, end, i, p);
    FreeShape(g, bs, backs, pool, end, i);
  }

  /** A link off the chain: what is there can make the release write to memory that was given away. */
  lemma StrayIntoPrivate(h: Heap, bs: seq<Block>, backs: seq<int>, pool: int, end: int, i: nat, p: int)
    requires Linked(h, bs, backs, pool, end) && i < |bs| && !bs[i].free && AgreeingFrom(bs, backs, Lo(bs, i), i)
    requires backs[Lo(bs, i)] == p != NULL && p in h && p < bs[Lo(bs, i)].addr
    requires !OnChain(bs, p) && Private(bs, p)
    ensures !FreeRight(Planted(h, bs, p, bs[Lo(bs, i)].addr, NULL), bs, pool, end, i)
  {
    var lo, hi := Lo(bs, i), Hi(bs, i);
    var g := Planted(h, bs, p, bs[lo].addr, NULL);
    Ordered(bs, pool, end, lo, lo);
    if hi < |bs| { Ordered(bs, pool, end, lo, hi); }
    if Freeable(g, end, bs[i].addr) {
      StrayWrites(h, bs, backs, pool, end, i, p, bs[lo].addr);
      assert !Same(g, FreeHeap(g, end, bs[i].addr), p);
    }
  }

  /** From memory in a free block the backward loop can go on to the header of that block. */
  lemma StrayReachesChain(h: Heap, bs: seq<Block>, backs: seq<int>, pool: int, end: int, i: nat, p: int, k: nat)
    returns (j: nat)
    requires Linked(h, bs, backs, pool, end) && i < |bs| && !bs[i].free && AgreeingFrom(bs, backs, Lo(bs, i), i)
    requires backs[Lo(bs, i)] == p != NULL && p in h && p < bs[Lo(bs, i)].addr
    requires !OnChain(bs, p) && k < |bs| && bs[k].free && bs[k].addr < p
    requires Freeable(Planted(h, bs, p, NULL, bs[k].addr), end, bs[i].addr)
    ensures var m := MarkHeap(Planted(h, bs, p, NULL, bs[k].addr), bs[i].addr);
            j <= k && Retraceable(m, bs[i].addr) && BackwardRun(m, bs[i].addr).0 == bs[j].addr
  {
    var g := Planted(h, bs, p, NULL, bs[k].addr);
    var m, ms := MarkHeap(g, bs[i].addr), Marked(bs, i);
    WriteKeepsLinked(h, g, bs, backs, pool, end);
    assert Fwd(g, bs, i) && Fwd(g, bs, k);
    StrayWalk(g, bs, backs, pool, end, i, p);
    MarkedLinked(g, bs, backs, pool, end, i);
    PlantedQuiet(h, bs, pool, end, i, p, k);
    assert Fwd(m, ms, k) && ms[k] == bs[k] && NULL < pool <= bs[0].addr;
    Ordered(bs, pool, end, k, k);
    j := ChainWalk(m, ms, backs, pool, end, k);
  }

  /** Which breaks the chain. */
  lemma StrayIntoFree(h: Heap, bs: seq<Block>, backs: seq<int>, pool: int, end: int, i: nat, p: int, k: nat)
    requires Linked(h, bs, backs, pool, end) && i < |bs| && !bs[i].free && AgreeingFrom(bs, backs, Lo(bs, i), i)
    requires backs[Lo(bs, i)] == p != NULL && p in h && p < bs[Lo(bs, i)].addr
    requires !OnChain(bs, p) && k < |bs| && bs[k].free && bs[k].addr < p
    ensures !FreeRight(Planted(h, bs, p, NULL, bs[k].addr), bs, pool, end, i)
  {
    var lo, a := Lo(bs, i), bs[i].addr;
    var g := Planted(h, bs, p, NULL, bs[k].addr);
    WriteKeepsLinked(h, g, bs, backs, pool, end);
    assert Fwd(g, bs, i);
    if lo <= k { Ordered(bs, pool, end, lo, k); }
    if Freeable(g, end, a) {
      var j := StrayReachesChain(h, bs, backs, pool, end, i, p, k);
      FreeShape(g, bs, backs, pool, end, i);
      EndsNotBefore(MarkHeap(g, a), FreeHeap(g, end, a), bs, pool, end, lo, Hi(bs, i), j,
                    Stored(FreeTotal(g, end, a)));
    }
  }

  lemma PlantedQuiet(h: Heap, bs: seq<Block>, pool: int, end: int, i: nat, p: int, k: nat)
    requires Tiled(bs, pool, end) && i < |bs| && p in h && !OnChain(bs, p) && k < |bs| && bs[k].addr < p
    requires bs[i].addr in h
    ensures QuietBelow(MarkHeap(Planted(h, bs, p, NULL, bs[k].addr), bs[i].addr), Marked(bs, i), bs[k].addr)
  {
    var g := Planted(h, bs, p, NULL, bs[k].addr);
    var m, ms := MarkHeap(g, bs[i].addr), Marked(bs, i);
    forall x | x in m && x < bs[k].addr && m[x].isFree ensures OnChain(ms, x) {
      assert AddrAt(bs, i) == bs[i].addr;
      assert OnChain(bs, x);
      var n: nat :| n < |bs| && AddrAt(bs, n) == x;
      assert AddrAt(ms, n) == x;
    }
  }

  /**
   The exact condition for `my_free` as written, on any correct forward chain: whatever is held in
   memory that is not a header of the chain, it leaves the chain of the block released and changes no
   memory that was given away, if and only if the release is safe.
   */
  lemma FreeSafeIff(h: Heap, bs: seq<Block>, backs: seq<int>, pool: int, end: int, i: nat)
    requires Linked(h, bs, backs, pool, end) && end < SIZE_VALUES / 2 && i < |bs| && !bs[i].free
    ensures (forall g :: ClientWrite(h, g, bs) ==> FreeRight(g, bs, pool, end, i)) <==> SafeRelease(bs, backs, i)
  {
    if SafeRelease(bs, backs, i) {
      forall g | ClientWrite(h, g, bs) ensures FreeRight(g, bs, pool, end, i) {
        SafeIsRight(h, g, bs, backs, pool, end, i);
      }
    } else if forall g :: ClientWrite(h, g, bs) ==> FreeRight(g, bs, pool, end, i) {
      RightIsSafe(h, bs, backs, pool, end, i);
    }
  }

  lemma SafeIsRight(h: Heap, g: Heap, bs: seq<Block>, backs: seq<int>, pool: int, end: int, i: nat)
    requires Linked(h, bs, backs, pool, end) && end < SIZE_VALUES / 2 && i < |bs| && !bs[i].free
    requires SafeRelease(bs, backs, i) && ClientWrite(h, g, bs)
    ensures FreeRight(g, bs, pool, end, i)
  {
    WriteKeepsLinked(h, g, bs, backs, pool, end);
    FreeRefines(g, bs, backs, pool, end, i);
    forall x | x in g && Private(bs, x) ensures Same(g, FreeHeap(g, end, bs[i].addr), x) {
      PrivateIsOff(bs, x);
      PrivateAfterRelease(bs, i, x);
    }
  }

  lemma RightIsSafe(h: Heap, bs: seq<Block>, backs: seq<int>, pool: int, end: int, i: nat)
    requires Linked(h, bs, backs, pool, end) && end < SIZE_VALUES / 2 && i < |bs| && !bs[i].free
    requires forall g :: ClientWrite(h, g, bs) ==> FreeRight(g, bs, pool, end, i)
    ensures SafeRelease(bs, backs, i)
  {
    var g, lo := Quiet(h, bs), Lo(bs, i);
    WriteKeepsLinked(h, g, bs, backs, pool, end);
    RightMeansAgreeing(g, bs, backs, pool, end, i);
    var p := backs[lo];
    if p != NULL && !OnChain(bs, p) {
      if Private(bs, p) {
        StrayIntoPrivate(h, bs, backs, pool, end, i, p);
      } else {
        var k: nat :| k < |bs| && !Clear(bs, k, p);
        assert AddrAt(bs, k) != p;
        StrayIntoFree(h, bs, backs, pool, end, i, p, k);
      }
      assert false;
    }
  }

  lemma SameInt(x: int, y: int, k: int)
    requires x == y + k * INT_VALUES
    ensures ToInt(x) == ToInt(y)
  {
    var q, r := Divide(y, INT_VALUES);
    DivModUnique(x, INT_VALUES, q + k, r);
  }

  /** Adding a size to the `int` merge_size in `size_t` arithmetic adds it modulo the range of `int`. */
  lemma ToIntAdds(x: int, y: int)
    ensures ToInt(WrapSize(WrapSize(ToInt(x)) + y)) == ToInt(x + y)
  {
    var q, r := Divide(x, INT_VALUES);
    var q1, r1 := Divide(ToInt(x), SIZE_VALUES);
    var q2, r2 := Divide(r1 + y, SIZE_VALUES);
    var k := if ToInt(x) == r then q else q + 1;
    assert x == ToInt(x) + k * INT_VALUES;
    SameInt(x + y, r2, k + (q1 + q2) * INT_VALUES);
  }

  // ---------------------------------------------------------------- the allocator object

  class Allocator {
    var pool: int
    var poolSize: int
    var headerStart: int     // header_start.next
    var heap: Heap           // the headers written in the pool
    var corrupt: bool        // a header was written over another, `heap` no longer tells what the pool holds
    ghost var blocks: seq<Block>
    ghost var backs: seq<int>

    ghost function Limit(): int
      reads this
    {
      pool + poolSize
    }

    /** The pool is within the address range. */
    ghost predicate Valid()
      reads this
    {
      !corrupt &&
      if pool == NULL then headerStart == NULL
      else headerStart == pool && Limit() < SIZE_VALUES / 2
    }

    /** The forward chain spells out `blocks`, and its headers hold the back links `backs`. */
    ghost predicate Chained()
      reads this
    {
      Valid() && (pool != NULL ==> Linked(heap, blocks, backs, pool, Limit()))
    }

    /** The back links agree, and no two free blocks are adjacent. */
    ghost predicate Consistent()
      reads this
    {
      Chained() && (pool != NULL ==> backs == Agreeing(blocks) && Coalesced(blocks))
    }

    constructor ()
      ensures Consistent() && pool == NULL
    {
      pool, poolSize, headerStart, heap, corrupt, blocks, backs := NULL, 0, NULL, map[], false, [], [];
    }

    /** `mapped` is what mmap returned, NULL for a failure; a mapping of no bytes fails. */
    method Init(totalSize: nat, mapped: int)
      requires Consistent()
      requires mapped >= 0 && (totalSize == 0 ==> mapped == NULL) && mapped + totalSize < SIZE_VALUES / 2
      modifies this
      ensures Consistent()
      ensures old(pool) != NULL ==> unchanged(this)
      ensures old(pool) == NULL ==> pool == mapped
      ensures old(pool) == NULL && mapped != NULL ==>
                poolSize == totalSize && blocks == Whole(mapped, mapped + totalSize)
    {
      if pool != NULL {
        return;
      }
      pool := mapped;
      if pool == NULL {
        return;
      }
      headerStart := pool;
      heap := map[pool := Header(true, totalSize, NULL, NULL)];
      poolSize := totalSize;
      blocks, backs := Whole(pool, pool + totalSize), [NULL];
    }

    method Destroy()
      requires Consistent()
      modifies this
      ensures Consistent() && pool == NULL
    {
      if pool == NULL {
        return;
      }
      pool, poolSize, headerStart := NULL, 0, NULL;
    }

    /** The search loop of `my_malloc`. */
    method FindFit(blockSize: int) returns (cursor: int)
      requires Valid() && pool != NULL && Searchable(heap, Limit(), pool)
      ensures cursor == FirstFit(heap, Limit(), pool, blockSize)
    {
      cursor := headerStart;
      while cursor != NULL
        invariant Searchable(heap, Limit(), cursor)
        invariant FirstFit(heap, Limit(), headerStart, blockSize) == FirstFit(heap, Limit(), cursor, blockSize)
        decreases if cursor == NULL then 0 else Limit() - cursor + 1
      {
        if heap[cursor].isFree && heap[cursor].size >= blockSize {
          break;
        }
        assert heap[cursor].next == NULL || Searchable(heap, Limit(), heap[cursor].next);
        cursor := heap[cursor].next;
      }
    }

    /** The end of `my_malloc`: split the block if the rest can hold a header, and take it. */
    method SplitOff(cursor: int, need: int)
      requires !corrupt && cursor in heap
      modifies this`heap, this`corrupt
      ensures corrupt <==> need < HEADER_SIZE && old(heap)[cursor].size >= WrapSize(need + HEADER_SIZE)
      ensures !corrupt ==> heap == Carve(old(heap), cursor, need)
    {
      var blockSize := need;
      if heap[cursor].size < WrapSize(blockSize + HEADER_SIZE) {
        blockSize := heap[cursor].size;
      } else {
        if blockSize < HEADER_SIZE {
          corrupt := true;
          return;
        }
        var nextBuf := heap[cursor].next;
        heap := heap[cursor := heap[cursor].(next := cursor + blockSize)];
        heap := heap[heap[cursor].next := Header(true, WrapSize(heap[cursor].size - blockSize), nextBuf, cursor)];
      }
      heap := heap[cursor := heap[cursor].(isFree := false, size := blockSize)];
    }

    /**
     `my_malloc` as written. From any pool with a correct forward chain it keeps that chain and
     changes nothing else; it keeps the pool consistent exactly if it does not split a block that has
     a successor.
     */
    method Malloc(size: nat) returns (ptr: int)
      requires Chained() && size < SIZE_VALUES
      modifies this`heap, this`corrupt, this`blocks, this`backs
      ensures pool == NULL ==> ptr == NULL && heap == old(heap) && blocks == old(blocks) && backs == old(backs)
      ensures pool != NULL ==> Searchable(old(heap), Limit(), pool)
      ensures corrupt <==> pool != NULL && Overlaps(old(heap), Limit(), pool, size)
      ensures pool != NULL && !corrupt ==> (heap, ptr) == MallocHeap(old(heap), Limit(), pool, size)
      ensures pool != NULL && size + HEADER_SIZE < SIZE_VALUES ==>
                Chained() && blocks == Allocated(old(blocks), size) && ptr == Granted(old(blocks), size) &&
                backs == BacksAfter(old(blocks), old(backs), Op.Malloc(size)) &&
                OffChainKept(old(heap), heap, old(blocks), blocks)
      ensures pool != NULL && size + HEADER_SIZE < SIZE_VALUES && old(Consistent()) ==>
                (Consistent() <==> size == 0 || !SplitsInside(old(blocks), size + HEADER_SIZE))
    {
      if pool != NULL {
        ForwardSearchable(heap, blocks, pool, Limit(), 0);
        if size + HEADER_SIZE < SIZE_VALUES {
          MallocRefines(heap, blocks, backs, pool, Limit(), size);
          MallocAgrees(blocks, backs, size);
          blocks, backs := Allocated(blocks, size), BacksAfter(blocks, backs, Op.Malloc(size));
        }
      }
      ptr := TakeBlock(size);
    }

    /** The code of `my_malloc`, on any headers that the search can follow. */
    method TakeBlock(size: nat) returns (ptr: int)
      requires Valid() && (pool != NULL ==> Searchable(heap, Limit(), pool))
      modifies this`heap, this`corrupt
      ensures corrupt <==> pool != NULL && Overlaps(old(heap), Limit(), pool, size)
      ensures pool == NULL ==> ptr == NULL && heap == old(heap)
      ensures pool != NULL && !corrupt ==> (heap, ptr) == MallocHeap(old(heap), Limit(), pool, size)
    {
      var blockSize := WrapSize(size + HEADER_SIZE);
      if pool == NULL || size == 0 {
        return NULL;
      }
      if headerStart == NULL {
        return NULL;
      }
      var cursor := FindFit(blockSize);
      if cursor == NULL {
        return NULL;
      }
      ptr := cursor + HEADER_SIZE;
      SplitOff(cursor, blockSize);
    }

    /** `SplitOff` with one assignment ADDED: the block behind the remainder points back to it. */
    method RelinkedSplitOff(cursor: int, need: int)
      requires cursor in heap && (heap[cursor].next == NULL || heap[cursor].next in heap)
      requires need >= HEADER_SIZE
      modifies this`heap
      ensures heap == RelinkedCarve(old(heap), cursor, need)
    {
      var blockSize := need;
      if heap[cursor].size < WrapSize(blockSize + HEADER_SIZE) {
        blockSize := heap[cursor].size;
      } else {
        var nextBuf := heap[cursor].next;
        heap := heap[cursor := heap[cursor].(next := cursor + blockSize)];
        heap := heap[heap[cursor].next := Header(true, WrapSize(heap[cursor].size - blockSize), nextBuf, cursor)];
        if nextBuf != NULL {
          heap := heap[nextBuf := heap[nextBuf].(prev := heap[cursor].next)];
        }
      }
      heap := heap[cursor := heap[cursor].(isFree := false, size := blockSize)];
    }

    /** `my_malloc` with that assignment. */
    method RelinkedMalloc(size: nat) returns (ptr: int)
      requires Consistent() && size + HEADER_SIZE < SIZE_VALUES
      modifies this`heap, this`blocks, this`backs
      ensures Consistent()
      ensures pool == NULL ==> ptr == NULL && heap == old(heap) && blocks == old(blocks)
      ensures pool != NULL ==> Searchable(old(heap), Limit(), pool) && !Overlaps(old(heap), Limit(), pool, size)
      ensures pool != NULL ==> (heap, ptr) == RelinkedMallocHeap(old(heap), Limit(), pool, size)
      ensures pool != NULL ==> blocks == Allocated(old(blocks), size) && ptr == Granted(old(blocks), size) &&
                               OffChainKept(old(heap), heap, old(blocks), blocks)
    {
      var blockSize := WrapSize(size + HEADER_SIZE);
      if pool != NULL { RelinkedMallocRefines(heap, blocks, pool, Limit(), size); }
      if pool == NULL || size == 0 {
        return NULL;
      }
      if headerStart == NULL {
        return NULL;
      }
      var cursor := FindFit(blockSize);
      MallocCoalesced(blocks, size);
      if cursor == NULL {
        return NULL;
      }
      ptr := cursor + HEADER_SIZE;
      blocks := Allocated(blocks, size);
      backs := Agreeing(blocks);
      assert heap[cursor].next == NULL || Searchable(heap, Limit(), heap[cursor].next);
      RelinkedSplitOff(cursor, blockSize);
    }

    /** The forward loop of `my_free`, from the `int` that starts out as the block's own size. */
    method MergeForward(a: int) returns (last: int, mergeSize: int)
      requires a != NULL && Searchable(heap, Limit(), a)
      ensures var r := ForwardRun(heap, Limit(), a); last == r.0 && mergeSize == ToInt(heap[a].size + r.1)
    {
      ghost var r := ForwardRun(heap, Limit(), a);
      mergeSize := ToInt(heap[a].size);
      last := a;
      assert heap[last].next == NULL || Searchable(heap, Limit(), heap[last].next);
      while heap[last].next != NULL && heap[heap[last].next].isFree
        invariant last != NULL && Searchable(heap, Limit(), last)
        invariant heap[last].next == NULL || Searchable(heap, Limit(), heap[last].next)
        invariant ForwardRun(heap, Limit(), last).0 == r.0
        invariant mergeSize == ToInt(heap[a].size + r.1 - ForwardRun(heap, Limit(), last).1)
        decreases Limit() - last
      {
        var n := heap[last].next;
        ToIntAdds(heap[a].size + r.1 - ForwardRun(heap, Limit(), last).1, heap[n].size);
        mergeSize := ToInt(WrapSize(WrapSize(mergeSize) + heap[n].size));
        last := n;
        assert heap[last].next == NULL || Searchable(heap, Limit(), heap[last].next);
      }
    }

    /** The backward loop of `my_free`. */
    method MergeBackward(a: int, size: int, ghost sofar: int) returns (first: int, mergeSize: int)
      requires Retraceable(heap, a) && size == ToInt(sofar)
      ensures var r := BackwardRun(heap, a); first == r.0 && mergeSize == ToInt(sofar + r.1)
    {
      ghost var r := BackwardRun(heap, a);
      mergeSize := size;
      first := a;
      while heap[first].prev != NULL && heap[heap[first].prev].isFree
        invariant Retraceable(heap, first)
        invariant BackwardRun(heap, first).0 == r.0
        invariant mergeSize == ToInt(sofar + r.1 - BackwardRun(heap, first).1)
        decreases first
      {
        var p := heap[first].prev;
        assert Retraceable(heap, p);
        ToIntAdds(sofar + r.1 - BackwardRun(heap, first).1, heap[p].size);
        mergeSize := ToInt(WrapSize(WrapSize(mergeSize) + heap[p].size));
        first := p;
      }
    }

    /** `my_free` behind the computation of the header address. */
    method FreeHeader(headerToFree: int)
      requires Valid() && pool != NULL && Freeable(heap, Limit(), headerToFree)
      modifies this`heap
      ensures heap == FreeHeap(old(heap), Limit(), headerToFree)
    {
      if heap[headerToFree].isFree {
        return;
      }
      heap := heap[headerToFree := heap[headerToFree].(isFree := true)];
      ghost var marked := heap;
      assert marked == MarkHeap(old(heap), headerToFree);
      var last, forwardSize := MergeForward(headerToFree);
      var nextBuf := heap[last].next;
      assert nextBuf == NULL || Searchable(heap, Limit(), nextBuf);
      var cursor, mergeSize := MergeBackward(headerToFree, forwardSize,
        heap[headerToFree].size + ForwardRun(heap, Limit(), headerToFree).1);
      heap := heap[cursor := heap[cursor].(next := nextBuf)];
      if heap[cursor].next != NULL {
        heap := heap[nextBuf := heap[nextBuf].(prev := cursor)];
      }
      heap := heap[cursor := heap[cursor].(size := WrapSize(mergeSize))];
      assert heap == Unlink(marked, cursor, nextBuf, WrapSize(mergeSize));
    }

    /**
     `my_free` as written, wherever its accesses are defined; by FreeRefines they are if the release
     is safe.
     */
    method Free(ptr: int)
      requires Valid() && (pool != NULL ==> Freeable(heap, Limit(), ptr - HEADER_SIZE))
      modifies this`heap, this`blocks, this`backs
      ensures pool == NULL ==> heap == old(heap) && blocks == old(blocks) && backs == old(backs)
      ensures pool != NULL ==> heap == FreeHeap(old(heap), Limit(), ptr - HEADER_SIZE)
      ensures pool != NULL && old(Chained()) && Safe(old(blocks), old(backs), Op.Free(ptr - HEADER_SIZE)) ==>
                Chained() && blocks == Apply(old(blocks), Op.Free(ptr - HEADER_SIZE)) &&
                backs == BacksAfter(old(blocks), old(backs), Op.Free(ptr - HEADER_SIZE)) &&
                OffChainKept(old(heap), heap, old(blocks), blocks)
      ensures pool != NULL && old(Consistent()) && poolSize <= INT_MAX &&
              IndexOf(old(blocks), ptr - HEADER_SIZE) < |old(blocks)| ==>
                Consistent() && blocks == Apply(old(blocks), Op.Free(ptr - HEADER_SIZE))
    {
      if pool == NULL {
        return;
      }
      var headerToFree := ptr - HEADER_SIZE;
      ghost var op := Op.Free(headerToFree);
      if Chained() {
        FreeDone(heap, blocks, backs, pool, Limit(), headerToFree);
        if Safe(blocks, backs, op) {
          blocks, backs := Apply(blocks, op), BacksAfter(blocks, backs, op);
        }
      }
      FreeHeader(headerToFree);
    }
  }

  lemma FreeAgrees(bs: seq<Block>, pool: int, end: int, a: int)
    requires Good(bs, pool, end) && end - pool <= INT_MAX && IndexOf(bs, a) < |bs|
    ensures Safe(bs, Agreeing(bs), Op.Free(a))
    ensures BacksAfter(bs, Agreeing(bs), Op.Free(a)) == Agreeing(Apply(bs, Op.Free(a)))
    ensures Coalesced(Apply(bs, Op.Free(a)))
  {
    MergedFits(bs, pool, end, IndexOf(bs, a));
    AgreeingSafe(bs, IndexOf(bs, a));
    ReleaseAgrees(bs, IndexOf(bs, a));
    ReleaseCoalesced(bs, IndexOf(bs, a));
  }

  lemma FreeDone(h: Heap, bs: seq<Block>, backs: seq<int>, pool: int, end: int, a: int)
    requires Linked(h, bs, backs, pool, end) && end < SIZE_VALUES / 2
    ensures Safe(bs, backs, Op.Free(a)) ==>
              Freeable(h, end, a) && OffChainKept(h, FreeHeap(h, end, a), bs, Apply(bs, Op.Free(a))) &&
              Linked(FreeHeap(h, end, a), Apply(bs, Op.Free(a)), BacksAfter(bs, backs, Op.Free(a)), pool, end)
    ensures backs == Agreeing(bs) && Coalesced(bs) && end - pool <= INT_MAX && IndexOf(bs, a) < |bs| ==>
              Safe(bs, backs, Op.Free(a)) && Coalesced(Apply(bs, Op.Free(a))) &&
              BacksAfter(bs, backs, Op.Free(a)) == Agreeing(Apply(bs, Op.Free(a)))
  {
    if Safe(bs, backs, Op.Free(a)) { FreeRefines(h, bs, backs, pool, end, IndexOf(bs, a)); }
    if backs == Agreeing(bs) && Coalesced(bs) && end - pool <= INT_MAX && IndexOf(bs, a) < |bs| {
      FreeAgrees(bs, pool, end, a);
    }
  }

  lemma MallocAgrees(bs: seq<Block>, backs: seq<int>, size: nat)
    requires |backs| == |bs|
    ensures Coalesced(bs) ==> Coalesced(Allocated(bs, size))
    ensures backs == Agreeing(bs) ==>
              (BacksAfter(bs, backs, Op.Malloc(size)) == Agreeing(Allocated(bs, size)) <==>
               size == 0 || !SplitsInside(bs, size + HEADER_SIZE))
  {
    MallocCoalesced(bs, size);
    CallAgrees(bs, Op.Malloc(size));
  }

  lemma MallocCoalesced(bs: seq<Block>, size: nat)
    ensures Coalesced(bs) ==> Coalesced(Allocated(bs, size))
  {
  }
}
