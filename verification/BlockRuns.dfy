/**
 Runs of the block allocator: calls, and between them whatever clients write to memory that is not a
 header of the chain. What every run keeps with the assignment added; for which calls the code as
 written keeps it as well; and runs in which it does not.
 */
module BlockRuns {
  import opened BlockLists
  import opened BackLinks
  import opened BlockAllocator

  datatype Code = AsWritten | Relinked

  /** The accesses of the call are defined, its loops end, and no header is written over another. */
  ghost predicate CanCall(h: Heap, op: Op, pool: int, end: int) {
    match op
    case Malloc(size) => pool != NULL && Searchable(h, end, pool) && !Overlaps(h, end, pool, size)
    case Free(a) => Freeable(h, end, a)
  }

  /** The headers after a call: `my_malloc` as written or with the assignment added, or `my_free`. */
  ghost function After(code: Code, h: Heap, op: Op, pool: int, end: int): Heap
    requires CanCall(h, op, pool, end)
  {
    match op
    case Malloc(size) =>
      if code == AsWritten then MallocHeap(h, end, pool, size).0 else RelinkedMallocHeap(h, end, pool, size).0
    case Free(a) => FreeHeap(h, end, a)
  }

  ghost predicate Step(code: Code, h: Heap, op: Op, h': Heap, pool: int, end: int) {
    CanCall(h, op, pool, end) && h' == After(code, h, op, pool, end)
  }

  /** Clients turn hs[k] into gs[k], the call ops[k] turns gs[k] into hs[k + 1]. */
  ghost predicate RunOf(code: Code, hs: seq<Heap>, gs: seq<Heap>, bs: seq<Block>, ops: seq<Op>, pool: int, end: int)
    decreases |ops|
  {
    |hs| == |ops| + 1 && |gs| == |ops| &&
    (ops != [] ==>
      ClientWrite(hs[0], gs[0], bs) && Step(code, gs[0], ops[0], hs[1], pool, end) &&
      RunOf(code, hs[1..], gs[1..], Apply(bs, ops[0]), ops[1..], pool, end))
  }

  /** The headers right after initialisation. */
  function Fresh(pool: int, end: int): Heap {
    map[pool := Header(true, end - pool, NULL, NULL)]
  }

  /** A run from the initialised pool. */
  ghost predicate InitialRun(code: Code, hs: seq<Heap>, gs: seq<Heap>, ops: seq<Op>, pool: int, end: int) {
    RunOf(code, hs, gs, Whole(pool, end), ops, pool, end) && hs[0] == Fresh(pool, end)
  }

  /**
   The call can be made, leaves the chain of the blocks that BlockLists says, and changes no memory that
   was given away.
   */
  ghost predicate CallRight(code: Code, h: Heap, bs: seq<Block>, op: Op, pool: int, end: int) {
    CanCall(h, op, pool, end) &&
    Forward(After(code, h, op, pool, end), Apply(bs, op), pool, end) &&
    ClientsKept(h, After(code, h, op, pool, end), bs)
  }

  /** Whatever clients write before each of the calls, every call is right. */
  ghost predicate AlwaysRight(code: Code, h: Heap, bs: seq<Block>, ops: seq<Op>, pool: int, end: int)
    decreases |ops|
  {
    Forward(h, bs, pool, end) &&
    (ops != [] ==>
      forall g :: ClientWrite(h, g, bs) ==>
        CallRight(code, g, bs, ops[0], pool, end) &&
        AlwaysRight(code, After(code, g, ops[0], pool, end), Apply(bs, ops[0]), ops[1..], pool, end))
  }

  /** A pool in the address range. */
  predicate Addressable(pool: int, end: int) {
    NULL < pool < end < SIZE_VALUES / 2
  }

  /** A pool whose sizes are values of `int` as well. */
  predicate InRange(pool: int, end: int) {
    Addressable(pool, end) && end - pool <= INT_MAX
  }

  lemma FreshRepr(pool: int, end: int)
    requires NULL < pool < end
    ensures Repr(Fresh(pool, end), Whole(pool, end), pool, end) && Agreeing(Whole(pool, end)) == [NULL]
  {
  }

  lemma NothingWritten(h: Heap, bs: seq<Block>)
    ensures ClientWrite(h, h, bs)
  {
  }

  lemma RightFirst(code: Code, hs: seq<Heap>, gs: seq<Heap>, bs: seq<Block>, ops: seq<Op>, pool: int, end: int)
    requires RunOf(code, hs, gs, bs, ops, pool, end) && AlwaysRight(code, hs[0], bs, ops, pool, end) && ops != []
    ensures CallRight(code, gs[0], bs, ops[0], pool, end) && hs[1] == After(code, gs[0], ops[0], pool, end)
    ensures RunOf(code, hs[1..], gs[1..], Apply(bs, ops[0]), ops[1..], pool, end)
    ensures AlwaysRight(code, hs[1], Apply(bs, ops[0]), ops[1..], pool, end)
  {
    assert ClientWrite(hs[0], gs[0], bs);
  }

  /** If every call is right whatever clients write, every run goes that way. */
  lemma {:induction false} RightInRun(code: Code, hs: seq<Heap>, gs: seq<Heap>, bs: seq<Block>, ops: seq<Op>,
                                      pool: int, end: int, k: nat)
    requires RunOf(code, hs, gs, bs, ops, pool, end) && AlwaysRight(code, hs[0], bs, ops, pool, end) && k <= |ops|
    ensures Forward(hs[k], Exec(bs, ops[..k]), pool, end)
    ensures k < |ops| ==> CallRight(code, gs[k], Exec(bs, ops[..k]), ops[k], pool, end) &&
                          hs[k + 1] == After(code, gs[k], ops[k], pool, end)
    decreases k
  {
    if k == 0 {
      assert ops[..0] == [];
      if ops != [] { RightFirst(code, hs, gs, bs, ops, pool, end); }
    } else {
      RightFirst(code, hs, gs, bs, ops, pool, end);
      RightInRun(code, hs[1..], gs[1..], Apply(bs, ops[0]), ops[1..], pool, end, k - 1);
      ExecPrefix(bs, ops, k);
    }
  }

  lemma ExecPrefix(bs: seq<Block>, ops: seq<Op>, k: nat)
    requires 0 < k <= |ops|
    ensures Exec(bs, ops[..k]) == Exec(Apply(bs, ops[0]), ops[1..][..k - 1])
  {
    assert ops[..k][0] == ops[0] && ops[..k][1..] == ops[1..][..k - 1];
  }

  // ---------------------------------------------------------------- with the assignment added

  /** The first header says that the whole pool is one free block. */
  ghost predicate InitialHeader(h: Heap, pool: int, end: int) {
    pool in h && h[pool] == Header(true, end - pool, NULL, NULL)
  }

  lemma WholeHeader(h: Heap, pool: int, end: int)
    requires Repr(h, Whole(pool, end), pool, end)
    ensures InitialHeader(h, pool, end)
  {
    assert Fwd(h, Whole(pool, end), 0) && Back(h, Whole(pool, end), 0, Agreeing(Whole(pool, end))[0]);
  }

  /**
   A call that is allowed can be made, does what BlockLists says with all links agreeing, and changes
   nothing off the chain but what it puts on it.
   */
  lemma RelinkedCall(h: Heap, bs: seq<Block>, pool: int, end: int, op: Op)
    requires Repr(h, bs, pool, end) && Coalesced(bs) && InRange(pool, end) && Allowed(bs, op)
    ensures CanCall(h, op, pool, end)
    ensures var h' := After(Relinked, h, op, pool, end);
            Repr(h', Apply(bs, op), pool, end) && OffChainKept(h, h', bs, Apply(bs, op)) && ClientsKept(h, h', bs)
  {
    match op {
      case Malloc(size) => RelinkedMallocRefines(h, bs, pool, end, size);
      case Free(a) => FreeDone(h, bs, Agreeing(bs), pool, end, a);
    }
    KeptForClients(h, After(Relinked, h, op, pool, end), bs, op);
  }

  lemma {:induction false} RelinkedAlways(h: Heap, bs: seq<Block>, pool: int, end: int, ops: seq<Op>)
    requires Repr(h, bs, pool, end) && Good(bs, pool, end) && InRange(pool, end) && AllAllowed(bs, ops)
    ensures AlwaysRight(Relinked, h, bs, ops, pool, end)
    decreases |ops|
  {
    if ops == [] {
    } else {
      var op := ops[0];
      ApplyGood(bs, pool, end, op);
      forall g | ClientWrite(h, g, bs)
        ensures CallRight(Relinked, g, bs, op, pool, end)
        ensures AlwaysRight(Relinked, After(Relinked, g, op, pool, end), Apply(bs, op), ops[1..], pool, end)
      {
        WriteKeepsLinked(h, g, bs, Agreeing(bs), pool, end);
        RelinkedCall(g, bs, pool, end, op);
        RelinkedAlways(After(Relinked, g, op, pool, end), Apply(bs, op), pool, end, ops[1..]);
      }
    }
  }

  lemma {:induction false} RunRefines(hs: seq<Heap>, gs: seq<Heap>, bs: seq<Block>, pool: int, end: int, ops: seq<Op>)
    requires RunOf(Relinked, hs, gs, bs, ops, pool, end) && AllAllowed(bs, ops)
    requires Repr(hs[0], bs, pool, end) && Good(bs, pool, end) && InRange(pool, end)
    ensures Repr(hs[|ops|], Exec(bs, ops), pool, end)
    decreases |ops|
  {
    if ops == [] {
    } else {
      WriteKeepsLinked(hs[0], gs[0], bs, Agreeing(bs), pool, end);
      RelinkedCall(gs[0], bs, pool, end, ops[0]);
      ApplyGood(bs, pool, end, ops[0]);
      RunRefines(hs[1..], gs[1..], Apply(bs, ops[0]), pool, end, ops[1..]);
    }
  }

  /**
   With the assignment added, whatever calls are made on the initialised pool and whatever clients write
   to memory that is not a header of the chain: every call can be made, does what BlockLists says and
   leaves the memory of clients alone. Every run ends in headers that spell out, forwards and backwards,
   blocks that tile the pool with no two free ones adjacent; when none is in use, in the initial header.
   */
  lemma RelinkedRuns(pool: int, end: int, ops: seq<Op>)
    requires InRange(pool, end) && AllAllowed(Whole(pool, end), ops)
    ensures AlwaysRight(Relinked, Fresh(pool, end), Whole(pool, end), ops, pool, end)
    ensures Good(Exec(Whole(pool, end), ops), pool, end)
    ensures forall hs, gs :: InitialRun(Relinked, hs, gs, ops, pool, end) ==>
              var bs, h := Exec(Whole(pool, end), ops), hs[|ops|];
              Repr(h, bs, pool, end) && (Live(bs) == {} ==> InitialHeader(h, pool, end))
  {
    var w := Whole(pool, end);
    FreshRepr(pool, end);
    RelinkedAlways(Fresh(pool, end), w, pool, end, ops);
    RunTheorem(pool, end, ops, ops);
    var bs := Exec(w, ops);
    forall hs, gs | InitialRun(Relinked, hs, gs, ops, pool, end)
      ensures Repr(hs[|ops|], bs, pool, end)
      ensures Live(bs) == {} ==> InitialHeader(hs[|ops|], pool, end)
    {
      RunRefines(hs, gs, w, pool, end, ops);
      if Live(bs) == {} { WholeHeader(hs[|ops|], pool, end); }
    }
  }

  // ---------------------------------------------------------------- freeing everything

  function Frees(addrs: seq<int>): (ops: seq<Op>)
    ensures |ops| == |addrs|
  {
    if addrs == [] then [] else [Op.Free(addrs[0])] + Frees(addrs[1..])
  }

  predicate Distinct(addrs: seq<int>) {
    forall i, j :: 0 <= i < j < |addrs| ==> addrs[i] != addrs[j]
  }

  ghost predicate InUse(bs: seq<Block>, a: int) {
    exists x :: x in Live(bs) && x.0 == a
  }

  /** The addresses of all blocks in use, each once, in any order. */
  ghost predicate AllInUse(bs: seq<Block>, addrs: seq<int>) {
    Distinct(addrs) && forall a :: a in addrs <==> InUse(bs, a)
  }

  lemma InUseFound(bs: seq<Block>, a: int)
    requires InUse(bs, a)
    ensures IndexOf(bs, a) < |bs|
  {
  }

  /** Freeing one block leaves the others in use. */
  lemma OthersInUse(bs: seq<Block>, pool: int, end: int, a: int, b: int)
    requires Tiled(bs, pool, end) && InUse(bs, b) && a != b
    ensures InUse(Apply(bs, Op.Free(a)), b)
  {
    var i := IndexOf(bs, a);
    var x :| x in Live(bs) && x.0 == b;
    if i < |bs| && !bs[i].free { ReleaseLive(bs, pool, end, i); }
    assert x in Live(Apply(bs, Op.Free(a)));
  }

  lemma {:induction false} FreesAllowed(bs: seq<Block>, pool: int, end: int, addrs: seq<int>)
    requires Good(bs, pool, end) && Distinct(addrs)
    requires forall i :: 0 <= i < |addrs| ==> InUse(bs, addrs[i])
    ensures AllAllowed(bs, Frees(addrs)) && Exec(bs, Frees(addrs)) == FreeAll(bs, addrs)
    decreases |addrs|
  {
    if addrs == [] {
    } else {
      var next, rest := Apply(bs, Op.Free(addrs[0])), addrs[1..];
      InUseFound(bs, addrs[0]);
      ApplyGood(bs, pool, end, Op.Free(addrs[0]));
      forall i | 0 <= i < |rest| ensures InUse(next, rest[i]) {
        assert rest[i] == addrs[i + 1];
        OthersInUse(bs, pool, end, addrs[0], rest[i]);
      }
      FreesAllowed(next, pool, end, rest);
      assert Frees(addrs)[1..] == Frees(rest);
    }
  }

  lemma {:induction false} ExecConcat(bs: seq<Block>, ops: seq<Op>, more: seq<Op>)
    ensures Exec(bs, ops + more) == Exec(Exec(bs, ops), more)
    ensures AllAllowed(bs, ops + more) <==> AllAllowed(bs, ops) && AllAllowed(Exec(bs, ops), more)
    decreases |ops|
  {
    if ops == [] {
      assert ops + more == more;
    } else {
      assert (ops + more)[1..] == ops[1..] + more;
      ExecConcat(Apply(bs, ops[0]), ops[1..], more);
    }
  }

  lemma FreeEverythingAllowed(pool: int, end: int, ops: seq<Op>, addrs: seq<int>)
    requires InRange(pool, end) && AllAllowed(Whole(pool, end), ops) && AllInUse(Exec(Whole(pool, end), ops), addrs)
    ensures AllAllowed(Whole(pool, end), ops + Frees(addrs))
    ensures Exec(Whole(pool, end), ops + Frees(addrs)) == Whole(pool, end) && Live(Whole(pool, end)) == {}
  {
    var w := Whole(pool, end);
    var bs := Exec(w, ops);
    RunTheorem(pool, end, ops, ops);
    FreesAllowed(bs, pool, end, addrs);
    ExecConcat(w, ops, Frees(addrs));
    forall i | 0 <= i < |bs| && !bs[i].free ensures bs[i].addr in addrs {
      assert (bs[i].addr, bs[i].size) in Live(bs);
      assert InUse(bs, bs[i].addr);
    }
    FreeEverything(bs, pool, end, addrs);
  }

  /**
   Whatever calls came before and whatever clients write, freeing all blocks in use, each once and in any
   order, can be done and leaves the header of the initial pool.
   */
  lemma FreeEverythingInPool(pool: int, end: int, ops: seq<Op>, addrs: seq<int>)
    requires InRange(pool, end) && AllAllowed(Whole(pool, end), ops) && AllInUse(Exec(Whole(pool, end), ops), addrs)
    ensures AlwaysRight(Relinked, Fresh(pool, end), Whole(pool, end), ops + Frees(addrs), pool, end)
    ensures forall hs, gs :: InitialRun(Relinked, hs, gs, ops + Frees(addrs), pool, end) ==>
              InitialHeader(hs[|ops + Frees(addrs)|], pool, end)
  {
    FreeEverythingAllowed(pool, end, ops, addrs);
    RelinkedRuns(pool, end, ops + Frees(addrs));
  }

  // ---------------------------------------------------------------- as written

  /**
   From any correct chain an allowed call that is safe can be made as written, does what BlockLists says,
   leaves the back links that BackLinks says, and changes nothing off the chain but what it puts on it.
   */
  lemma WrittenCall(h: Heap, bs: seq<Block>, backs: seq<int>, pool: int, end: int, op: Op)
    requires Linked(h, bs, backs, pool, end) && Addressable(pool, end) && Allowed(bs, op) && Safe(bs, backs, op)
    ensures CanCall(h, op, pool, end)
    ensures var h' := After(AsWritten, h, op, pool, end);
            Linked(h', Apply(bs, op), BacksAfter(bs, backs, op), pool, end) &&
            OffChainKept(h, h', bs, Apply(bs, op)) && ClientsKept(h, h', bs)
  {
    match op {
      case Malloc(size) => MallocRefines(h, bs, backs, pool, end, size);
      case Free(a) => FreeDone(h, bs, backs, pool, end, a);
    }
    KeptForClients(h, After(AsWritten, h, op, pool, end), bs, op);
  }

  /** A call that is right whatever clients have written is safe. */
  lemma RightCallIsSafe(h: Heap, bs: seq<Block>, backs: seq<int>, pool: int, end: int, op: Op)
    requires Linked(h, bs, backs, pool, end) && Addressable(pool, end) && Allowed(bs, op)
    requires forall g :: ClientWrite(h, g, bs) ==> CallRight(AsWritten, g, bs, op, pool, end)
    ensures Safe(bs, backs, op)
  {
    if op.Free? {
      var i := IndexOf(bs, op.addr);
      if !bs[i].free {
        forall g | ClientWrite(h, g, bs) ensures FreeRight(g, bs, pool, end, i) {
          assert CallRight(AsWritten, g, bs, op, pool, end);
        }
        FreeSafeIff(h, bs, backs, pool, end, i);
      }
    }
  }

  lemma {:induction false} SafeAlways(h: Heap, bs: seq<Block>, backs: seq<int>, pool: int, end: int, ops: seq<Op>)
    requires Linked(h, bs, backs, pool, end) && Addressable(pool, end) && AllAllowed(bs, ops) && AllSafe(bs, backs, ops)
    ensures AlwaysRight(AsWritten, h, bs, ops, pool, end)
    decreases |ops|
  {
    if ops == [] {
    } else {
      var op := ops[0];
      forall g | ClientWrite(h, g, bs)
        ensures CallRight(AsWritten, g, bs, op, pool, end)
        ensures AlwaysRight(AsWritten, After(AsWritten, g, op, pool, end), Apply(bs, op), ops[1..], pool, end)
      {
        WriteKeepsLinked(h, g, bs, backs, pool, end);
        WrittenCall(g, bs, backs, pool, end, op);
        SafeAlways(After(AsWritten, g, op, pool, end), Apply(bs, op), BacksAfter(bs, backs, op), pool, end, ops[1..]);
      }
    }
  }

  lemma {:induction false} AlwaysSafe(h: Heap, bs: seq<Block>, backs: seq<int>, pool: int, end: int, ops: seq<Op>)
    requires Linked(h, bs, backs, pool, end) && Addressable(pool, end) && AllAllowed(bs, ops)
    requires AlwaysRight(AsWritten, h, bs, ops, pool, end)
    ensures AllSafe(bs, backs, ops)
    decreases |ops|
  {
    if ops == [] {
    } else {
      var op := ops[0];
      RightCallIsSafe(h, bs, backs, pool, end, op);
      NothingWritten(h, bs);
      WrittenCall(h, bs, backs, pool, end, op);
      AlwaysSafe(After(AsWritten, h, op, pool, end), Apply(bs, op), BacksAfter(bs, backs, op), pool, end, ops[1..]);
    }
  }

  /**
   The exact condition for the code as written, on the calls alone: whatever clients write to memory that
   is not a header of the chain, every call can be made, does what BlockLists says and leaves the memory of
   clients alone, if and only if every release is safe when it is made.
   */
  lemma WrittenRunsIff(pool: int, end: int, ops: seq<Op>)
    requires Addressable(pool, end) && AllAllowed(Whole(pool, end), ops)
    ensures AlwaysRight(AsWritten, Fresh(pool, end), Whole(pool, end), ops, pool, end) <==>
            AllSafe(Whole(pool, end), [NULL], ops)
  {
    var h, w := Fresh(pool, end), Whole(pool, end);
    FreshRepr(pool, end);
    if AllSafe(w, [NULL], ops) {
      SafeAlways(h, w, [NULL], pool, end, ops);
    } else if AlwaysRight(AsWritten, h, w, ops, pool, end) {
      AlwaysSafe(h, w, [NULL], pool, end, ops);
    }
  }

  /** All links agree after every call. */
  ghost predicate AllRepr(hs: seq<Heap>, bs: seq<Block>, ops: seq<Op>, pool: int, end: int)
    requires |hs| == |ops| + 1
    decreases |ops|
  {
    Repr(hs[0], bs, pool, end) && (ops != [] ==> AllRepr(hs[1..], Apply(bs, ops[0]), ops[1..], pool, end))
  }

  lemma WrittenCallAgrees(h: Heap, bs: seq<Block>, pool: int, end: int, op: Op)
    requires Repr(h, bs, pool, end) && Good(bs, pool, end) && InRange(pool, end) && Allowed(bs, op)
    ensures CanCall(h, op, pool, end)
    ensures Repr(After(AsWritten, h, op, pool, end), Apply(bs, op), pool, end) <==> !Splitting(bs, op)
  {
    if op.Free? { FreeAgrees(bs, pool, end, op.addr); }
    WrittenCall(h, bs, Agreeing(bs), pool, end, op);
    CallAgrees(bs, op);
    SameBacks(After(AsWritten, h, op, pool, end), Apply(bs, op), BacksAfter(bs, Agreeing(bs), op), pool, end);
  }

  lemma {:induction false} LinksIff(hs: seq<Heap>, gs: seq<Heap>, bs: seq<Block>, pool: int, end: int, ops: seq<Op>)
    requires RunOf(AsWritten, hs, gs, bs, ops, pool, end) && AllAllowed(bs, ops)
    requires Repr(hs[0], bs, pool, end) && Good(bs, pool, end) && InRange(pool, end)
    ensures AllRepr(hs, bs, ops, pool, end) <==> NoneSplitting(bs, ops)
    decreases |ops|
  {
    if ops == [] {
    } else {
      var next := Apply(bs, ops[0]);
      WriteKeepsLinked(hs[0], gs[0], bs, Agreeing(bs), pool, end);
      ApplyGood(bs, pool, end, ops[0]);
      WrittenCallAgrees(gs[0], bs, pool, end, ops[0]);
      if Repr(hs[1], next, pool, end) { LinksIff(hs[1..], gs[1..], next, pool, end, ops[1..]); }
    }
  }

  /** The code as written keeps all links agreeing in a run exactly if no call splits a block with a successor. */
  lemma WrittenRunsAgreeIff(hs: seq<Heap>, gs: seq<Heap>, pool: int, end: int, ops: seq<Op>)
    requires InRange(pool, end) && InitialRun(AsWritten, hs, gs, ops, pool, end)
    requires AllAllowed(Whole(pool, end), ops)
    ensures AllRepr(hs, Whole(pool, end), ops, pool, end) <==> NoneSplitting(Whole(pool, end), ops)
  {
    FreshRepr(pool, end);
    LinksIff(hs, gs, Whole(pool, end), pool, end, ops);
  }

  /** Without such a split the code as written is always right. */
  lemma NoneSplittingAlwaysRight(pool: int, end: int, ops: seq<Op>)
    requires InRange(pool, end) && AllAllowed(Whole(pool, end), ops) && NoneSplitting(Whole(pool, end), ops)
    ensures AlwaysRight(AsWritten, Fresh(pool, end), Whole(pool, end), ops, pool, end)
  {
    FreshRepr(pool, end);
    NoneSplittingIsSafe(Whole(pool, end), pool, end, ops);
    WrittenRunsIff(pool, end, ops);
  }

  // ---------------------------------------------------------------- runs that go wrong

  /** A call on headers and on blocks, in a pool of 400 bytes at address 1000. */
  ghost predicate Does(h: Heap, b: seq<Block>, op: Op, h': Heap, b': seq<Block>) {
    Step(AsWritten, h, op, h', 1000, 1400) && Allowed(b, op) && Apply(b, op) == b'
  }

  ghost predicate Trace(hs: seq<Heap>, bss: seq<seq<Block>>, ops: seq<Op>) {
    |hs| == |bss| == |ops| + 1 &&
    forall k: nat {:trigger ops[k]} :: k < |ops| ==> Does(hs[k], bss[k], ops[k], hs[k + 1], bss[k + 1])
  }

  lemma {:induction false} TraceRun(hs: seq<Heap>, bss: seq<seq<Block>>, ops: seq<Op>)
    requires Trace(hs, bss, ops)
    ensures RunOf(AsWritten, hs, hs[..|ops|], bss[0], ops, 1000, 1400)
    ensures AllAllowed(bss[0], ops) && Exec(bss[0], ops) == bss[|ops|]
    decreases |ops|
  {
    if ops == [] {
    } else {
      assert Does(hs[0], bss[0], ops[0], hs[1], bss[1]);
      NothingWritten(hs[0], bss[0]);
      forall k: nat {:trigger ops[1..][k]} | k < |ops[1..]|
        ensures Does(hs[1..][k], bss[1..][k], ops[1..][k], hs[1..][k + 1], bss[1..][k + 1])
      {
        assert ops[1..][k] == ops[k + 1];
      }
      TraceRun(hs[1..], bss[1..], ops[1..]);
      assert hs[..|ops|][1..] == hs[1..][..|ops[1..]|];
    }
  }

  // The headers and the blocks after k of the ten calls; LOST and BLOST after nine that end in another release.
  ghost const H0: Heap := map[1000 := Header(true, 400, NULL, NULL)]
  ghost const H1: Heap := map[1000 := Header(false, 100, 1100, NULL), 1100 := Header(true, 300, NULL, 1000)]
  ghost const H2: Heap := map[1000 := Header(false, 100, 1100, NULL), 1100 := Header(false, 200, 1300, 1000),
        1300 := Header(true, 100, NULL, 1100)]
  ghost const H3: Heap := map[1000 := Header(false, 100, 1100, NULL), 1100 := Header(false, 200, 1300, 1000),
        1300 := Header(false, 100, NULL, 1100)]
  ghost const H4: Heap := map[1000 := Header(false, 100, 1100, NULL), 1100 := Header(true, 200, 1300, 1000),
        1300 := Header(false, 100, NULL, 1100)]
  ghost const H5: Heap := map[1000 := Header(false, 100, 1100, NULL), 1100 := Header(false, 100, 1200, 1000),
        1200 := Header(true, 100, 1300, 1100), 1300 := Header(false, 100, NULL, 1100)]
  ghost const H6: Heap := map[1000 := Header(false, 100, 1100, NULL), 1100 := Header(false, 100, 1200, 1000),
        1200 := Header(false, 100, 1300, 1100), 1300 := Header(false, 100, NULL, 1100)]
  ghost const H7: Heap := map[1000 := Header(true, 100, 1100, NULL), 1100 := Header(false, 100, 1200, 1000),
        1200 := Header(false, 100, 1300, 1100), 1300 := Header(false, 100, NULL, 1100)]
  ghost const H8: Heap := map[1000 := Header(true, 200, 1200, NULL), 1100 := Header(true, 100, 1200, 1000),
        1200 := Header(false, 100, 1300, 1000), 1300 := Header(false, 100, NULL, 1100)]
  ghost const H9: Heap := map[1000 := Header(false, 200, 1200, NULL), 1100 := Header(true, 100, 1200, 1000),
        1200 := Header(false, 100, 1300, 1000), 1300 := Header(false, 100, NULL, 1100)]
  ghost const H10: Heap := map[1000 := Header(false, 200, 1200, NULL), 1100 := Header(true, 200, NULL, 1000),
        1200 := Header(false, 100, 1300, 1000), 1300 := Header(true, 100, NULL, 1100)]
  ghost const LOST: Heap := map[1000 := Header(true, 400, NULL, NULL), 1100 := Header(true, 100, 1200, 1000),
        1200 := Header(false, 100, 1300, 1000), 1300 := Header(true, 100, NULL, 1100)]

  const B0 := [Block(1000, 400, true)]
  const B1 := [Block(1000, 100, false), Block(1100, 300, true)]
  const B2 := [Block(1000, 100, false), Block(1100, 200, false), Block(1300, 100, true)]
  const B3 := [Block(1000, 100, false), Block(1100, 200, false), Block(1300, 100, false)]
  const B4 := [Block(1000, 100, false), Block(1100, 200, true), Block(1300, 100, false)]
  const B5 := [Block(1000, 100, false), Block(1100, 100, false), Block(1200, 100, true), Block(1300, 100, false)]
  const B6 := [Block(1000, 100, false), Block(1100, 100, false), Block(1200, 100, false), Block(1300, 100, false)]
  const B7 := [Block(1000, 100, true), Block(1100, 100, false), Block(1200, 100, false), Block(1300, 100, false)]
  const B8 := [Block(1000, 200, true), Block(1200, 100, false), Block(1300, 100, false)]
  const B9 := [Block(1000, 200, false), Block(1200, 100, false), Block(1300, 100, false)]
  const B10 := [Block(1000, 200, false), Block(1200, 100, false), Block(1300, 100, true)]
  const BLOST := [Block(1000, 200, true), Block(1200, 100, false), Block(1300, 100, true)]

  lemma Step0()
    ensures Does(H0, B0, Malloc(68), H1, B1)
  {
    assert Searchable(H0, 1400, 1000);
    assert FirstFit(H0, 1400, 1000, 100) == 1000;
    CarveWrites(H0, 1000, 100);
    assert Carve(H0, 1000, 100) == H1;
    assert FitIndex(B0, 100, 0) == 0;
  }

  lemma Step1()
    ensures Does(H1, B1, Malloc(168), H2, B2)
  {
    assert Searchable(H1, 1400, 1100);
    assert Searchable(H1, 1400, 1000);
    assert FirstFit(H1, 1400, 1100, 200) == 1100;
    assert FirstFit(H1, 1400, 1000, 200) == 1100;
    CarveWrites(H1, 1100, 200);
    assert Carve(H1, 1100, 200) == H2;
    assert FitIndex(B1, 200, 1) == 1;
    assert FitIndex(B1, 200, 0) == 1;
  }

  lemma Step2()
    ensures Does(H2, B2, Malloc(68), H3, B3)
  {
    assert Searchable(H2, 1400, 1300);
    assert Searchable(H2, 1400, 1100);
    assert Searchable(H2, 1400, 1000);
    assert FirstFit(H2, 1400, 1300, 100) == 1300;
    assert FirstFit(H2, 1400, 1100, 100) == 1300;
    assert FirstFit(H2, 1400, 1000, 100) == 1300;
    CarveWrites(H2, 1300, 100);
    assert Carve(H2, 1300, 100) == H3;
    assert FitIndex(B2, 100, 2) == 2;
    assert FitIndex(B2, 100, 1) == 2;
    assert FitIndex(B2, 100, 0) == 2;
  }

  lemma Step3()
    ensures Does(H3, B3, Op.Free(1100), H4, B4)
  {
  }

  lemma Step4()
    ensures Does(H4, B4, Malloc(68), H5, B5)
  {
    assert Searchable(H4, 1400, 1300);
    assert Searchable(H4, 1400, 1100);
    assert Searchable(H4, 1400, 1000);
    assert FirstFit(H4, 1400, 1100, 100) == 1100;
    assert FirstFit(H4, 1400, 1000, 100) == 1100;
    CarveWrites(H4, 1100, 100);
    assert Carve(H4, 1100, 100) == H5;
    assert FitIndex(B4, 100, 1) == 1;
    assert FitIndex(B4, 100, 0) == 1;
  }

  lemma Step5()
    ensures Does(H5, B5, Malloc(68), H6, B6)
  {
    assert Searchable(H5, 1400, 1300);
    assert Searchable(H5, 1400, 1200);
    assert Searchable(H5, 1400, 1100);
    assert Searchable(H5, 1400, 1000);
    assert FirstFit(H5, 1400, 1200, 100) == 1200;
    assert FirstFit(H5, 1400, 1100, 100) == 1200;
    assert FirstFit(H5, 1400, 1000, 100) == 1200;
    CarveWrites(H5, 1200, 100);
    assert Carve(H5, 1200, 100) == H6;
    assert FitIndex(B5, 100, 2) == 2;
    assert FitIndex(B5, 100, 1) == 2;
    assert FitIndex(B5, 100, 0) == 2;
  }

  lemma Step6()
    ensures Does(H6, B6, Op.Free(1000), H7, B7)
  {
  }

  lemma Step7()
    ensures Does(H7, B7, Op.Free(1100), H8, B8)
  {
  }

  lemma Step8()
    ensures Does(H8, B8, Malloc(168), H9, B9)
  {
    assert Searchable(H8, 1400, 1300);
    assert Searchable(H8, 1400, 1200);
    assert Searchable(H8, 1400, 1000);
    assert FirstFit(H8, 1400, 1000, 200) == 1000;
    CarveWrites(H8, 1000, 200);
    assert Carve(H8, 1000, 200) == H9;
    assert FitIndex(B8, 200, 0) == 0;
  }

  lemma Step9()
    ensures Does(H9, B9, Op.Free(1300), H10, B10)
  {
  }

  lemma LostStep()
    ensures Does(H8, B8, Op.Free(1300), LOST, BLOST)
  {
  }

  lemma TraceMore(hs: seq<Heap>, bss: seq<seq<Block>>, ops: seq<Op>, op: Op, h': Heap, b': seq<Block>)
    returns (hs1: seq<Heap>, bss1: seq<seq<Block>>, ops1: seq<Op>)
    requires Trace(hs, bss, ops) && Does(hs[|ops|], bss[|ops|], op, h', b')
    ensures Trace(hs1, bss1, ops1) && ops1 == ops + [op] && hs1[0] == hs[0] && bss1[0] == bss[0]
    ensures hs1[|ops|] == hs[|ops|] && bss1[|ops|] == bss[|ops|] && hs1[|ops1|] == h' && bss1[|ops1|] == b'
  {
    hs1, bss1, ops1 := hs + [h'], bss + [b'], ops + [op];
    forall k: nat {:trigger ops1[k]} | k < |ops1| ensures Does(hs1[k], bss1[k], ops1[k], hs1[k + 1], bss1[k + 1]) {
      if k < |ops| { assert ops1[k] == ops[k]; }
    }
  }

  lemma TwoMore(hs: seq<Heap>, bss: seq<seq<Block>>, ops: seq<Op>,
                op: Op, h: Heap, b: seq<Block>, op': Op, h': Heap, b': seq<Block>)
    returns (hs2: seq<Heap>, bss2: seq<seq<Block>>, ops2: seq<Op>)
    requires Trace(hs, bss, ops) && Does(hs[|ops|], bss[|ops|], op, h, b) && Does(h, b, op', h', b')
    ensures Trace(hs2, bss2, ops2) && ops2 == ops + [op, op'] && hs2[0] == hs[0] && bss2[0] == bss[0]
    ensures hs2[|ops2|] == h' && bss2[|ops2|] == b'
  {
    hs2, bss2, ops2 := TraceMore(hs, bss, ops, op, h, b);
    hs2, bss2, ops2 := TraceMore(hs2, bss2, ops2, op', h', b');
  }

  lemma FirstTwo() returns (hs: seq<Heap>, bss: seq<seq<Block>>, ops: seq<Op>)
    ensures ops == [Malloc(68), Malloc(168)]
    ensures Trace(hs, bss, ops) && hs[0] == H0 && bss[0] == B0 && hs[2] == H2 && bss[2] == B2
  {
    hs, bss, ops := [H0], [B0], [];
    Step0();
    Step1();
    hs, bss, ops := TwoMore(hs, bss, ops, Malloc(68), H1, B1, Malloc(168), H2, B2);
  }

  lemma FirstFour() returns (hs: seq<Heap>, bss: seq<seq<Block>>, ops: seq<Op>)
    ensures ops == [Malloc(68), Malloc(168), Malloc(68), Op.Free(1100)]
    ensures Trace(hs, bss, ops) && hs[0] == H0 && bss[0] == B0 && hs[4] == H4 && bss[4] == B4
  {
    hs, bss, ops := FirstTwo();
    Step2();
    Step3();
    hs, bss, ops := TwoMore(hs, bss, ops, Malloc(68), H3, B3, Op.Free(1100), H4, B4);
  }

  lemma FirstSix() returns (hs: seq<Heap>, bss: seq<seq<Block>>, ops: seq<Op>)
    ensures ops == [Malloc(68), Malloc(168), Malloc(68), Op.Free(1100), Malloc(68), Malloc(68)]
    ensures Trace(hs, bss, ops) && hs[0] == H0 && bss[0] == B0 && hs[6] == H6 && bss[6] == B6
  {
    hs, bss, ops := FirstFour();
    Step4();
    Step5();
    hs, bss, ops := TwoMore(hs, bss, ops, Malloc(68), H5, B5, Malloc(68), H6, B6);
  }

  lemma FirstSeven() returns (hs: seq<Heap>, bss: seq<seq<Block>>, ops: seq<Op>)
    ensures ops == [Malloc(68), Malloc(168), Malloc(68), Op.Free(1100), Malloc(68), Malloc(68), Op.Free(1000)]
    ensures Trace(hs, bss, ops) && hs[0] == H0 && bss[0] == B0 && hs[7] == H7 && bss[7] == B7
  {
    hs, bss, ops := FirstSix();
    Step6();
    hs, bss, ops := TraceMore(hs, bss, ops, Op.Free(1000), H7, B7);
  }

  /** The calls that the two runs below have in common. */
  lemma FirstEight() returns (hs: seq<Heap>, bss: seq<seq<Block>>, ops: seq<Op>)
    ensures ops == [Malloc(68), Malloc(168), Malloc(68), Op.Free(1100), Malloc(68), Malloc(68),
                    Op.Free(1000), Op.Free(1100)]
    ensures Trace(hs, bss, ops) && hs[0] == H0 && bss[0] == B0 && hs[8] == H8 && bss[8] == B8
  {
    hs, bss, ops := FirstSeven();
    Step7();
    hs, bss, ops := TraceMore(hs, bss, ops, Op.Free(1100), H8, B8);
  }

  lemma TraceParts(hs: seq<Heap>, bss: seq<seq<Block>>, ops: seq<Op>, n: nat)
    requires Trace(hs, bss, ops) && |ops| == n + 1
    ensures RunOf(AsWritten, hs, hs[..|ops|], bss[0], ops, 1000, 1400) && AllAllowed(bss[0], ops)
    ensures Exec(bss[0], ops) == bss[n + 1] && Exec(bss[0], ops[..n]) == bss[n]
  {
    TraceRun(hs, bss, ops);
    forall k: nat {:trigger ops[..n][k]} | k < n ensures Does(hs[k], bss[k], ops[..n][k], hs[k + 1], bss[k + 1]) {
      assert ops[..n][k] == ops[k];
    }
    TraceRun(hs[..n + 1], bss[..n + 1], ops[..n]);
  }

  /** If the calls are safe, the last one is right. */
  lemma TraceRight(hs: seq<Heap>, bss: seq<seq<Block>>, ops: seq<Op>, n: nat)
    requires Trace(hs, bss, ops) && |ops| == n + 1 && hs[0] == Fresh(1000, 1400) && bss[0] == Whole(1000, 1400)
    requires AllSafe(Whole(1000, 1400), [NULL], ops)
    ensures Forward(hs[n + 1], bss[n + 1], 1000, 1400) && ClientsKept(hs[n], hs[n + 1], bss[n])
  {
    TraceParts(hs, bss, ops, n);
    WrittenRunsIff(1000, 1400, ops);
    assert ops[..n + 1] == ops;
    RightInRun(AsWritten, hs, hs[..|ops|], Whole(1000, 1400), ops, 1000, 1400, n);
    RightInRun(AsWritten, hs, hs[..|ops|], Whole(1000, 1400), ops, 1000, 1400, n + 1);
  }

  /** A trace that ends in a call that is not right is a run of calls that are not all safe. */
  lemma TraceUnsafe(hs: seq<Heap>, bss: seq<seq<Block>>, ops: seq<Op>, n: nat)
    requires Trace(hs, bss, ops) && |ops| == n + 1 && hs[0] == Fresh(1000, 1400) && bss[0] == Whole(1000, 1400)
    requires !Forward(hs[n + 1], bss[n + 1], 1000, 1400) || !ClientsKept(hs[n], hs[n + 1], bss[n])
    ensures InitialRun(AsWritten, hs, hs[..|ops|], ops, 1000, 1400) && AllAllowed(Whole(1000, 1400), ops)
    ensures Exec(Whole(1000, 1400), ops) == bss[n + 1] && Exec(Whole(1000, 1400), ops[..n]) == bss[n]
    ensures !AllSafe(Whole(1000, 1400), [NULL], ops)
  {
    TraceParts(hs, bss, ops, n);
    if AllSafe(Whole(1000, 1400), [NULL], ops) { TraceRight(hs, bss, ops, n); }
  }

  lemma LostChain()
    ensures Forward(LOST, Whole(1000, 1400), 1000, 1400) && !Forward(LOST, BLOST, 1000, 1400)
    ensures (1200, 100) in Live(BLOST)
  {
    assert !Fwd(LOST, BLOST, 0);
    assert !BLOST[1].free && (BLOST[1].addr, BLOST[1].size) == (1200, 100);
  }

  lemma StrayChain()
    ensures Forward(H10, B10, 1000, 1400) && !ClientsKept(H9, H10, B9) && !Same(H9, H10, 1100)
    ensures (1000, 200) in Live(B9)
  {
    assert !B9[0].free && (B9[0].addr, B9[0].size) == (1000, 200);
    PayloadIsPrivate(B9, 1000, 1400, 0, 1100);
  }

  lemma LostTrace() returns (hs: seq<Heap>, bss: seq<seq<Block>>, ops: seq<Op>)
    ensures ops == [Malloc(68), Malloc(168), Malloc(68), Op.Free(1100), Malloc(68), Malloc(68), Op.Free(1000),
                    Op.Free(1100), Op.Free(1300)]
    ensures Trace(hs, bss, ops) && hs[0] == H0 && bss[0] == B0 && hs[9] == LOST && bss[9] == BLOST
  {
    hs, bss, ops := FirstEight();
    LostStep();
    hs, bss, ops := TraceMore(hs, bss, ops, Op.Free(1300), LOST, BLOST);
  }

  lemma FirstNine() returns (hs: seq<Heap>, bss: seq<seq<Block>>, ops: seq<Op>)
    ensures ops == [Malloc(68), Malloc(168), Malloc(68), Op.Free(1100), Malloc(68), Malloc(68), Op.Free(1000),
                    Op.Free(1100), Malloc(168)]
    ensures Trace(hs, bss, ops) && hs[0] == H0 && bss[0] == B0 && hs[9] == H9 && bss[9] == B9
  {
    hs, bss, ops := FirstEight();
    Step8();
    hs, bss, ops := TraceMore(hs, bss, ops, Malloc(168), H9, B9);
  }

  lemma StrayTrace() returns (hs: seq<Heap>, bss: seq<seq<Block>>, ops: seq<Op>)
    ensures ops == [Malloc(68), Malloc(168), Malloc(68), Op.Free(1100), Malloc(68), Malloc(68), Op.Free(1000),
                    Op.Free(1100), Malloc(168), Op.Free(1300)]
    ensures Trace(hs, bss, ops) && hs[0] == H0 && bss[0] == B0
    ensures hs[9] == H9 && bss[9] == B9 && hs[10] == H10 && bss[10] == B10
  {
    hs, bss, ops := FirstNine();
    Step9();
    hs, bss, ops := TraceMore(hs, bss, ops, Op.Free(1300), H10, B10);
  }

  /**
   In a pool of 400 bytes, nine calls on live blocks only lose two blocks: the headers end as those of a
   pool that is one free block, while the block at 1200 is in use.
   */
  lemma LostBlock() returns (hs: seq<Heap>, ops: seq<Op>)
    ensures ops == [Malloc(68), Malloc(168), Malloc(68), Op.Free(1100), Malloc(68), Malloc(68), Op.Free(1000),
                    Op.Free(1100), Op.Free(1300)]
    ensures |hs| == 10 && InitialRun(AsWritten, hs, hs[..|ops|], ops, 1000, 1400)
    ensures AllAllowed(Whole(1000, 1400), ops) && !AllSafe(Whole(1000, 1400), [NULL], ops)
    ensures (1200, 100) in Live(Exec(Whole(1000, 1400), ops))
    ensures InitialHeader(hs[9], 1000, 1400) && Forward(hs[9], Whole(1000, 1400), 1000, 1400)
  {
    var bss;
    hs, bss, ops := LostTrace();
    LostChain();
    TraceUnsafe(hs, bss, ops, 8);
  }

  /**
   With one more request in between, the chain stays right and yet the last release changes the header at
   1100: memory inside the block at 1000, which has been given away.
   */
  lemma StrayWrite() returns (hs: seq<Heap>, ops: seq<Op>)
    ensures ops == [Malloc(68), Malloc(168), Malloc(68), Op.Free(1100), Malloc(68), Malloc(68), Op.Free(1000),
                    Op.Free(1100), Malloc(168), Op.Free(1300)]
    ensures |hs| == 11 && InitialRun(AsWritten, hs, hs[..|ops|], ops, 1000, 1400)
    ensures AllAllowed(Whole(1000, 1400), ops) && !AllSafe(Whole(1000, 1400), [NULL], ops)
    ensures Forward(hs[10], Exec(Whole(1000, 1400), ops), 1000, 1400)
    ensures (1000, 200) in Live(Exec(Whole(1000, 1400), ops[..9])) && !Same(hs[9], hs[10], 1100)
  {
    var bss;
    hs, bss, ops := StrayTrace();
    StrayChain();
    TraceUnsafe(hs, bss, ops, 9);
  }
}
