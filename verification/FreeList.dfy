/**
 The fixed-block allocator: an intrusive, address-ordered list of free blocks inside a
 pool. `Free` and `Malloc` are proved against operations on the plain ascending sequence
 of free addresses, whose whole-run behaviour is then studied.
 */
module FreeList {

  const NULL := 0
  const BLOCK_SIZE := 1024
  const HEADER_SIZE := 8
  const HEADER_BLOCK_SIZE := 1032

  // Stands for the address of the static `header_start`, which is not in the pool.
  const START := -1

  /** b is the header address of one of the blocks 1, 2, ... of the pool. */
  predicate IsBlock(pool: int, size: int, b: int) {
    pool < b < pool + size && (b - pool) % HEADER_BLOCK_SIZE == 0
  }

  function HeaderAt(pool: int, i: int): int {
    pool + HEADER_BLOCK_SIZE * i
  }

  /** The headers of blocks 1 .. n-1, in order. */
  function Blocks(pool: int, n: nat): (s: seq<int>)
    requires n >= 1
    ensures |s| == n - 1 && forall i :: 0 <= i < |s| ==> s[i] == HeaderAt(pool, i + 1)
  {
    seq(n - 1, i => HeaderAt(pool, i + 1))
  }

  /** The next field of block i of n is as the initialisation leaves it. */
  ghost predicate InitLink(pool: int, n: nat, i: int, next: map<int, int>) {
    HeaderAt(pool, i) in next && next[HeaderAt(pool, i)] == if i + 1 < n then HeaderAt(pool, i + 1) else NULL
  }

  /** What the initialisation loop has written before its round k. */
  ghost predicate InitLinks(pool: int, n: nat, k: int, first: int, next: map<int, int>) {
    (k > 0 ==> first == if n > 1 then HeaderAt(pool, 1) else NULL) &&
    forall i :: 1 <= i < k ==> InitLink(pool, n, i, next)
  }

  lemma LinksKept(pool: int, n: nat, k: int, before: map<int, int>, after: map<int, int>)
    requires forall i :: 1 <= i < k ==> InitLink(pool, n, i, before)
    requires forall x :: x in before && x != HeaderAt(pool, k) ==> x in after && after[x] == before[x]
    ensures forall i :: 1 <= i < k ==> InitLink(pool, n, i, after)
  {
    forall i | 1 <= i < k ensures InitLink(pool, n, i, after) {
      assert InitLink(pool, n, i, before);
    }
  }

  lemma InitShape(pool: int, n: nat, first: int, next: map<int, int>)
    requires n >= 1 && pool > 0 && InitLinks(pool, n, n, first, next)
    ensures Shape(pool, n * HEADER_BLOCK_SIZE, first, next, Blocks(pool, n))
  {
    var s := Blocks(pool, n);
    BlocksAscend(pool, n);
    forall i: nat | i < |s| ensures Link(next, s, i) {
      assert InitLink(pool, n, i + 1, next);
    }
  }

  ghost predicate Ascending(s: seq<int>) {
    forall i, j :: 0 <= i < j < |s| ==> s[i] < s[j]
  }

  function ToSet(s: seq<int>): set<int> {
    set x | x in s
  }

  /** Element i of the list, or NULL behind its end. */
  function At(s: seq<int>, i: nat): int {
    if i < |s| then s[i] else NULL
  }

  /** The header of element i points to element i + 1. */
  ghost predicate Link(next: map<int, int>, s: seq<int>, i: nat)
    requires i < |s|
  {
    s[i] in next && next[s[i]] == At(s, i + 1)
  }

  /** `first` and the next fields spell out the list s. */
  ghost predicate Linked(first: int, next: map<int, int>, s: seq<int>) {
    first == At(s, 0) && forall i: nat :: i < |s| ==> Link(next, s, i)
  }

  lemma BlocksAscend(pool: int, n: nat)
    requires n >= 1
    ensures Ascending(Blocks(pool, n))
    ensures forall b :: b in Blocks(pool, n) <==> IsBlock(pool, n * HEADER_BLOCK_SIZE, b)
  {
    forall b | IsBlock(pool, n * HEADER_BLOCK_SIZE, b) ensures b in Blocks(pool, n) {
      var i := (b - pool) / HEADER_BLOCK_SIZE;
      assert Blocks(pool, n)[i - 1] == b;
    }
  }

  /** A pool and the list of its free blocks. */
  ghost predicate Shape(pool: int, size: int, first: int, next: map<int, int>, free: seq<int>) {
    && pool > 0 && size >= HEADER_BLOCK_SIZE && size % HEADER_BLOCK_SIZE == 0
    && Ascending(free)
    && (forall b :: b in ToSet(free) ==> IsBlock(pool, size, b))
    && Linked(first, next, free)
  }

  lemma HeadIsBlock(pool: int, size: int, first: int, next: map<int, int>, s: seq<int>)
    requires Shape(pool, size, first, next, s)
    ensures first == NULL <==> s == []
    ensures forall i :: 0 <= i < |s| ==> s[i] > pool && s[i] in next && next[s[i]] == At(s, i + 1)
    ensures forall i :: 0 <= i < |s| ==> (next[s[i]] == NULL <==> i + 1 == |s|)
  {
    forall i | 0 <= i < |s| ensures s[i] > pool && s[i] in next && next[s[i]] == At(s, i + 1) {
      assert s[i] in ToSet(s) && Link(next, s, i);
    }
  }

  lemma TailShape(pool: int, size: int, first: int, next: map<int, int>, s: seq<int>)
    requires Shape(pool, size, first, next, s) && s != []
    ensures Shape(pool, size, At(s, 1), next, s[1..])
  {
    SetOfTail(s);
    assert Link(next, s, 0);
    forall i: nat | i < |s[1..]| ensures Link(next, s[1..], i) {
      assert Link(next, s, i + 1);
    }
  }

  lemma FrontShape(pool: int, size: int, first: int, next: map<int, int>, s: seq<int>, b: int)
    requires Shape(pool, size, first, next, s) && IsBlock(pool, size, b) && (s == [] || b < s[0])
    ensures Shape(pool, size, b, next[b := first], [b] + s) && Insert(s, b) == [b] + s && b !in s
  {
    InsertKeeps(s, b);
    LinkFront(next, s, b);
  }

  lemma BehindShape(pool: int, size: int, first: int, next: map<int, int>, s: seq<int>, b: int, k: nat)
    requires Shape(pool, size, first, next, s) && IsBlock(pool, size, b)
    requires k < |s| && s[k] < b && (k + 1 < |s| ==> b < s[k + 1])
    ensures Shape(pool, size, first, next[b := At(s, k + 1)][s[k] := b], Insert(s, b)) && b !in s
  {
    InsertKeeps(s, b);
    InsertAt(s, b, k + 1);
    LinkBehind(first, next, s, b, k);
  }

  /** Writing a new first header keeps the rest of the list. */
  lemma LinkFront(next: map<int, int>, s: seq<int>, b: int)
    requires Linked(At(s, 0), next, s) && b !in s
    ensures Linked(b, next[b := At(s, 0)], [b] + s)
  {
    var r, m := [b] + s, next[b := At(s, 0)];
    forall i: nat | i < |r| ensures Link(m, r, i) {
      if i > 0 { assert r[i] == s[i - 1] && Link(next, s, i - 1); }
    }
  }

  /** Writing a header behind element k keeps the rest of the list. */
  lemma LinkBehind(first: int, next: map<int, int>, s: seq<int>, b: int, k: nat)
    requires Linked(first, next, s) && b !in s && k < |s| && Ascending(s)
    ensures Linked(first, next[b := At(s, k + 1)][s[k] := b], s[..k + 1] + [b] + s[k + 1..])
  {
    var r, m := s[..k + 1] + [b] + s[k + 1..], next[b := At(s, k + 1)][s[k] := b];
    assert Link(next, s, k);
    forall i: nat | i < |r| ensures Link(m, r, i) {
      if i <= k {
        assert r[i] == s[i] && Link(next, s, i);
      } else if i > k + 1 {
        assert r[i] == s[i - 1] && Link(next, s, i - 1);
      }
    }
  }

  /** Put b at its place in an ascending list; a list that has it stays as it is. */
  function Insert(s: seq<int>, b: int): seq<int> {
    if s == [] || b < s[0] then [b] + s
    else if b == s[0] then s
    else [s[0]] + Insert(s[1..], b)
  }

  lemma {:induction false} InsertKeeps(s: seq<int>, b: int)
    requires Ascending(s)
    ensures Ascending(Insert(s, b)) && ToSet(Insert(s, b)) == ToSet(s) + {b}
  {
    if s == [] || b < s[0] {
      ConsKeeps(b, s);
    } else if b > s[0] {
      var t := Insert(s[1..], b);
      SetOfTail(s);
      InsertKeeps(s[1..], b);
      assert forall x :: x in ToSet(t) ==> s[0] < x;
      ConsKeeps(s[0], t);
      assert s[0] in ToSet(s);
    } else {
      assert b in ToSet(s);
    }
  }

  lemma ConsKeeps(b: int, s: seq<int>)
    requires Ascending(s) && (s != [] ==> b < s[0] || forall x :: x in ToSet(s) ==> b < x)
    ensures Ascending([b] + s) && ToSet([b] + s) == ToSet(s) + {b}
  {
    if s != [] { assert s[0] in ToSet(s); }
    assert forall x :: x in [b] + s <==> x == b || x in s;
  }

  lemma {:induction false} InsertAt(s: seq<int>, b: int, k: nat)
    requires k <= |s| && (forall i :: 0 <= i < k ==> s[i] < b) && (forall i :: k <= i < |s| ==> b < s[i])
    ensures Insert(s, b) == s[..k] + [b] + s[k..]
  {
    if k == 0 {
    } else {
      InsertAt(s[1..], b, k - 1);
      assert s[1..][..k - 1] == s[1..k] && s[1..][k - 1..] == s[k..];
      assert s[..k] == [s[0]] + s[1..k];
    }
  }

  lemma {:induction false} InsertKnown(s: seq<int>, b: int)
    requires Ascending(s) && b in s
    ensures Insert(s, b) == s
  {
    if b != s[0] {
      assert b in s[1..];
      InsertKnown(s[1..], b);
    }
  }

  lemma NonemptySet(b: seq<int>)
    ensures b != [] <==> ToSet(b) != {}
  {
    if b != [] { assert b[0] in ToSet(b); }
  }

  /** An ascending list is determined by its elements. */
  lemma {:induction false} AscendingUnique(a: seq<int>, b: seq<int>)
    requires Ascending(a) && Ascending(b) && ToSet(a) == ToSet(b)
    ensures a == b
  {
    if a == [] {
      NonemptySet(b);
    } else {
      assert a[0] in ToSet(b);
      assert b != [] && b[0] in ToSet(a);
      assert a[0] == b[0];
      SetOfTail(a);
      SetOfTail(b);
      AscendingUnique(a[1..], b[1..]);
    }
  }

  lemma SetOfTail(a: seq<int>)
    requires a != [] && Ascending(a)
    ensures ToSet(a[1..]) == ToSet(a) - {a[0]} && Ascending(a[1..])
  {
  }

  // ---------------------------------------------------------------- one call

  datatype Op = Malloc(size: nat) | Free(block: int)

  /** The list, and the blocks that clients hold. */
  datatype State = State(free: seq<int>, live: set<int>)

  predicate Allowed(all: seq<int>, op: Op) {
    op.Free? ==> op.block in all
  }

  function Apply(s: State, op: Op): State {
    match op
    case Malloc(size) =>
      if size > BLOCK_SIZE || s.free == [] then s
      else State(s.free[1..], s.live + {s.free[0]})
    case Free(b) => State(Insert(s.free, b), s.live - {b})
  }

  /** A call as a client sees it: what it asked for and what it got, or what it gave back. */
  datatype Call = Allocated(size: nat, ptr: int) | Freed(ptr: int)

  /** The allocator state of one thread. */
  class Allocator {
    var pool: int
    var poolSize: int
    var headerStart: int       // header_start.next
    var next: map<int, int>    // the next field of every header written in the pool
    ghost var free: seq<int>
    ghost var live: set<int>     // blocks handed out and not given back
    ghost var log: seq<Call>     // all calls so far

    ghost function View(): State
      reads this
    {
      State(free, live)
    }

    ghost predicate Valid()
      reads this
    {
      if pool == NULL then headerStart == NULL && free == []
      else Shape(pool, poolSize, headerStart, next, free)
    }

    constructor ()
      ensures Valid() && pool == NULL && live == {} && log == []
    {
      pool, poolSize, headerStart, next, free, live, log := NULL, 0, NULL, map[], [], {}, [];
    }

    method WriteNext(cursor: int, target: int)
      modifies this`headerStart, this`next
      ensures cursor == START ==> headerStart == target && next == old(next)
      ensures cursor != START ==> headerStart == old(headerStart) && next == old(next)[cursor := target]
    {
      if cursor == START {
        headerStart := target;
      } else {
        next := next[cursor := target];
      }
    }

    /** `mapped` is what mmap returned, NULL for a failure; a mapping of no bytes fails. */
    method Init(totalSize: nat, mapped: int)
      requires Valid()
      requires mapped >= 0 && (totalSize < HEADER_BLOCK_SIZE ==> mapped == NULL)
      modifies this
      ensures Valid()
      ensures old(pool) != NULL ==> unchanged(this)
      ensures old(pool) == NULL ==> pool == mapped
      ensures old(pool) == NULL && mapped != NULL ==>
                poolSize == totalSize - totalSize % HEADER_BLOCK_SIZE &&
                free == Blocks(mapped, totalSize / HEADER_BLOCK_SIZE) && live == {}
    {
      var blockCount := 0;
      var trueSize := totalSize - totalSize % HEADER_BLOCK_SIZE;
      var remainingSpace := trueSize;
      if pool != NULL {
        return;
      }
      pool := mapped;
      if pool == NULL {
        return;
      }
      ghost var n := totalSize / HEADER_BLOCK_SIZE;
      headerStart := pool;
      var cursor := START;
      while cursor != NULL
        invariant 0 <= blockCount <= n && trueSize == n * HEADER_BLOCK_SIZE
        invariant remainingSpace == (n - blockCount) * HEADER_BLOCK_SIZE
        invariant pool == mapped
        invariant cursor == if blockCount == 0 then START
                            else if blockCount < n then HeaderAt(pool, blockCount) else NULL
        invariant InitLinks(pool, n, blockCount, headerStart, next)
        decreases n - blockCount
      {
        ghost var before := next;
        WriteNext(cursor, if remainingSpace / HEADER_BLOCK_SIZE > 1
                          then HeaderAt(pool, blockCount + 1) else NULL);
        LinksKept(pool, n, blockCount, before, next);
        cursor := if cursor == START then headerStart else next[cursor];
        blockCount := blockCount + 1;
        remainingSpace := remainingSpace - HEADER_BLOCK_SIZE;
      }
      poolSize := trueSize;
      free, live := Blocks(pool, n), {};
      InitShape(pool, n, headerStart, next);
    }

    method Destroy()
      requires Valid()
      modifies this
      ensures Valid() && pool == NULL
    {
      if pool == NULL {
        return;
      }
      pool, poolSize, headerStart := NULL, 0, NULL;
      free, live := [], {};
    }

    method Malloc(size: nat) returns (ptr: int)
      requires Valid()
      modifies this`headerStart, this`free, this`live, this`log
      ensures Valid()
      ensures View() == Apply(old(View()), Op.Malloc(size)) && log == old(log) + [Allocated(size, ptr)]
      ensures ptr == NULL <==> size > BLOCK_SIZE || old(free) == []
      ensures ptr == NULL ==> free == old(free)
      ensures ptr != NULL ==> pool != NULL && IsBlock(pool, poolSize, ptr - HEADER_SIZE)
      ensures size <= BLOCK_SIZE && old(free) != [] ==>
                ptr == old(free)[0] + HEADER_SIZE && free == old(free)[1..]
    {
      log := log + [Allocated(size, NULL)];
      if pool == NULL {
        return NULL;
      }
      if size > BLOCK_SIZE {
        return NULL;
      }
      HeadIsBlock(pool, poolSize, headerStart, next, free);
      if headerStart == NULL {
        return NULL;
      }
      TailShape(pool, poolSize, headerStart, next, free);
      var block := headerStart;
      headerStart := next[block];
      free, live := free[1..], live + {block};
      log := old(log) + [Allocated(size, block + HEADER_SIZE)];
      return block + HEADER_SIZE;
    }

    /** `repeated` reports the return taken when the block is found to be free already. */
    method Free(ptr: int) returns (repeated: bool)
      requires Valid()
      requires pool != NULL ==> IsBlock(pool, poolSize, ptr - HEADER_SIZE)
      modifies this`headerStart, this`next, this`free, this`live, this`log
      ensures Valid()
      ensures View() == if pool == NULL then old(View()) else Apply(old(View()), Op.Free(ptr - HEADER_SIZE))
      ensures log == old(log) + [Freed(ptr)]
      ensures pool == NULL ==> free == old(free) && !repeated
      ensures pool != NULL ==>
                free == Insert(old(free), ptr - HEADER_SIZE) && (repeated <==> ptr - HEADER_SIZE in old(free))
    {
      log := log + [Freed(ptr)];
      if pool == NULL {
        return false;
      }
      var headerToFree := ptr - HEADER_SIZE;
      live := live - {headerToFree};
      var headerCursor := headerStart;
      ghost var was := free;
      HeadIsBlock(pool, poolSize, headerStart, next, was);
      if headerCursor == NULL || headerStart > headerToFree {
        FrontShape(pool, poolSize, headerStart, next, was, headerToFree);
        next := next[headerToFree := headerStart];
        headerStart := headerToFree;
        free := [headerToFree] + free;
        return false;
      } else {
        ghost var k := 0;
        while next[headerCursor] != NULL && next[headerCursor] <= headerToFree
          invariant 0 <= k < |was| && headerCursor == was[k] <= headerToFree
          decreases |was| - k
        {
          headerCursor := next[headerCursor];
          k := k + 1;
        }
        if headerCursor == headerToFree {
          InsertKnown(was, headerToFree);
          return true;
        }
        BehindShape(pool, poolSize, headerStart, next, was, headerToFree, k);
        next := next[headerToFree := next[headerCursor]];
        next := next[headerCursor := headerToFree];
        free := Insert(was, headerToFree);
        return false;
      }
    }
  }

  /** The same list behind a mutex; `locked` tells whether the last call left it locked. */
  class LockedAllocator {
    const list: Allocator
    var locked: bool

    constructor ()
      ensures fresh(list) && list.Valid() && list.pool == NULL && !locked
    {
      list := new Allocator();
      locked := false;
    }

    method Init(totalSize: nat, mapped: int)
      requires !locked && list.Valid()
      requires mapped >= 0 && (totalSize < HEADER_BLOCK_SIZE ==> mapped == NULL)
      modifies this`locked, list
      ensures list.Valid() && !locked
      ensures old(list.pool) != NULL ==> unchanged(list)
      ensures old(list.pool) == NULL ==> list.pool == mapped
      ensures old(list.pool) == NULL && mapped != NULL ==>
                list.poolSize == totalSize - totalSize % HEADER_BLOCK_SIZE &&
                list.free == Blocks(mapped, totalSize / HEADER_BLOCK_SIZE)
    {
      locked := true;
      list.Init(totalSize, mapped);
      locked := false;
    }

    method Malloc(size: nat) returns (ptr: int)
      requires !locked && list.Valid()
      modifies this`locked, list`headerStart, list`free, list`live, list`log
      ensures list.Valid() && !locked
      ensures ptr == NULL <==> size > BLOCK_SIZE || old(list.free) == []
      ensures ptr == NULL ==> list.free == old(list.free)
      ensures ptr != NULL ==>
                list.pool != NULL && IsBlock(list.pool, list.poolSize, ptr - HEADER_SIZE) &&
                ptr == old(list.free)[0] + HEADER_SIZE && list.free == old(list.free)[1..]
    {
      locked := true;
      ptr := list.Malloc(size);
      locked := false;
    }

    /** Freeing a block that is free already is the one case that keeps the mutex. */
    method Free(ptr: int)
      requires !locked && list.Valid()
      requires list.pool != NULL ==> IsBlock(list.pool, list.poolSize, ptr - HEADER_SIZE)
      modifies this`locked, list`headerStart, list`next, list`free, list`live, list`log
      ensures list.Valid()
      ensures locked <==> list.pool != NULL && ptr - HEADER_SIZE in old(list.free)
      ensures list.free == if list.pool == NULL then old(list.free) else Insert(old(list.free), ptr - HEADER_SIZE)
    {
      locked := true;
      var repeated := list.Free(ptr);
      if repeated {
        return;
      }
      locked := false;
    }
  }

  /** Four calls from a new allocator that leave the mutex locked. */
  method FreeTwice() returns (a: LockedAllocator)
    ensures a.locked
  {
    a := new LockedAllocator();
    a.Init(4096, 4096);
    var ptr := a.Malloc(1);
    InsertKeeps(a.list.free, ptr - HEADER_SIZE);
    a.Free(ptr);
    assert ptr - HEADER_SIZE in ToSet(a.list.free);
    a.Free(ptr);
  }

  // ---------------------------------------------------------------- whole runs

  function Exec(s: State, ops: seq<Op>): State
    decreases |ops|
  {
    if ops == [] then s else Exec(Apply(s, ops[0]), ops[1..])
  }

  /** The list is the ascending sequence of the blocks nobody holds. */
  ghost predicate Inv(all: seq<int>, s: State) {
    Ascending(s.free) && s.live <= ToSet(all) && ToSet(s.free) == ToSet(all) - s.live
  }

  lemma ApplyInv(all: seq<int>, s: State, op: Op)
    requires Inv(all, s) && Allowed(all, op)
    ensures Inv(all, Apply(s, op))
  {
    match op
    case Malloc(size) =>
      if s.free != [] {
        SetOfTail(s.free);
        assert s.free[0] in ToSet(s.free);
      }
    case Free(b) =>
      InsertKeeps(s.free, b);
  }

  lemma {:induction false} ExecInv(all: seq<int>, s: State, ops: seq<Op>)
    requires Inv(all, s) && forall i :: 0 <= i < |ops| ==> Allowed(all, ops[i])
    ensures Inv(all, Exec(s, ops))
    decreases |ops|
  {
    if ops == [] {
    } else {
      ApplyInv(all, s, ops[0]);
      ExecInv(all, Apply(s, ops[0]), ops[1..]);
    }
  }

  /**
   History independence: after any calls, repeated frees included, the list is the ascending
   sequence of the blocks not held, so it depends on the set of held blocks alone; and the
   next block handed out is the lowest of those not held.
   */
  lemma {:induction false} HistoryIndependence(pool: int, n: nat, ops: seq<Op>, others: seq<Op>)
    requires n >= 1
    requires forall i :: 0 <= i < |ops| ==> Allowed(Blocks(pool, n), ops[i])
    requires forall i :: 0 <= i < |others| ==> Allowed(Blocks(pool, n), others[i])
    ensures var all := Blocks(pool, n);
            var s, t := Exec(State(all, {}), ops), Exec(State(all, {}), others);
            Ascending(s.free) && ToSet(s.free) == ToSet(all) - s.live &&
            (s.live == t.live ==> s.free == t.free) &&
            (s.free != [] ==> forall b :: b in ToSet(all) - s.live ==> s.free[0] <= b)
  {
    var all := Blocks(pool, n);
    BlocksAscend(pool, n);
    ExecInv(all, State(all, {}), ops);
    ExecInv(all, State(all, {}), others);
    var s, t := Exec(State(all, {}), ops), Exec(State(all, {}), others);
    if s.live == t.live {
      AscendingUnique(s.free, t.free);
    }
    forall b | b in ToSet(all) - s.live && s.free != [] ensures s.free[0] <= b {
      assert b in ToSet(s.free);
    }
  }

  lemma {:induction false} ExecSnoc(s: State, ops: seq<Op>, op: Op)
    ensures Exec(s, ops + [op]) == Apply(Exec(s, ops), op)
    decreases |ops|
  {
    if ops == [] {
      assert [op][1..] == [];
    } else {
      assert (ops + [op])[1..] == ops[1..] + [op];
      ExecSnoc(Apply(s, ops[0]), ops[1..], op);
    }
  }

  predicate IsLeast(b: int, s: set<int>) {
    b in s && forall c :: c in s ==> b <= c
  }

  /** The blocks held before and after a call, while the others of the pool are `rest`. */
  ghost predicate HeldAfter(op: Op, rest: set<int>, live: set<int>, live': set<int>) {
    (op.Malloc? && op.size <= BLOCK_SIZE && rest != {} ==> exists b :: IsLeast(b, rest) && live' == live + {b}) &&
    (op.Malloc? && (op.size > BLOCK_SIZE || rest == {}) ==> live' == live) &&
    (op.Free? ==> live' == live - {op.block})
  }

  /**
   What each call of a run does to the blocks held, in terms of these blocks alone: a request that
   is small enough takes the lowest block not held, if there is one, and anything else takes
   none; a release gives its block back.
   */
  lemma NextCall(pool: int, n: nat, ops: seq<Op>, op: Op)
    requires n >= 1 && Allowed(Blocks(pool, n), op)
    requires forall i :: 0 <= i < |ops| ==> Allowed(Blocks(pool, n), ops[i])
    ensures var all := Blocks(pool, n);
            var live, live' := Exec(State(all, {}), ops).live, Exec(State(all, {}), ops + [op]).live;
            live <= ToSet(all) && HeldAfter(op, ToSet(all) - live, live, live')
  {
    var all := Blocks(pool, n);
    var s := Exec(State(all, {}), ops);
    BlocksAscend(pool, n);
    ExecInv(all, State(all, {}), ops);
    ExecSnoc(State(all, {}), ops, op);
    NonemptySet(s.free);
    if op.Malloc? && op.size <= BLOCK_SIZE && s.free != [] {
      assert s.free[0] in ToSet(s.free);
      assert IsLeast(s.free[0], ToSet(all) - s.live);
    }
  }

  function FreeAll(s: seq<int>, bs: seq<int>): seq<int>
    decreases |bs|
  {
    if bs == [] then s else FreeAll(Insert(s, bs[0]), bs[1..])
  }

  lemma {:induction false} FreeAllSet(s: seq<int>, bs: seq<int>)
    requires Ascending(s)
    ensures Ascending(FreeAll(s, bs)) && ToSet(FreeAll(s, bs)) == ToSet(s) + ToSet(bs)
    decreases |bs|
  {
    if bs == [] {
    } else {
      InsertKeeps(s, bs[0]);
      FreeAllSet(Insert(s, bs[0]), bs[1..]);
      assert ToSet(bs) == {bs[0]} + ToSet(bs[1..]) by {
        assert forall x :: x in bs <==> x == bs[0] || x in bs[1..];
      }
    }
  }

  /** The order in which blocks are freed, and freeing one twice, leaves no trace. */
  lemma FreesCommute(s: seq<int>, bs: seq<int>, cs: seq<int>)
    requires Ascending(s) && ToSet(bs) == ToSet(cs)
    ensures FreeAll(s, bs) == FreeAll(s, cs)
  {
    FreeAllSet(s, bs);
    FreeAllSet(s, cs);
    AscendingUnique(FreeAll(s, bs), FreeAll(s, cs));
  }

  /** Bytes a client may write through the pointer to block b. */
  predicate InPayload(b: int, address: int) {
    b + HEADER_SIZE <= address < b + HEADER_SIZE + BLOCK_SIZE
  }

  predicate InHeader(b: int, address: int) {
    b <= address < b + HEADER_SIZE
  }

  /** Payloads are inside the pool, disjoint from each other and from every header. */
  lemma PayloadsDisjoint(pool: int, n: nat, b: int, c: int, address: int)
    requires IsBlock(pool, n * HEADER_BLOCK_SIZE, b) && IsBlock(pool, n * HEADER_BLOCK_SIZE, c)
    requires InPayload(b, address)
    ensures pool <= address < pool + n * HEADER_BLOCK_SIZE
    ensures !InHeader(c, address)
    ensures InPayload(c, address) ==> b == c
  {
  }
}
