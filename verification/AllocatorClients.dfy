/**
 Two clients of the fixed-block allocator: the binary search for the largest block that can
 be had, and the loop of a benchmark thread.
 */
module AllocatorClients {
  import opened Arithmetic
  import opened FreeList

  const SIZE_MAX := 0xFFFF_FFFF_FFFF_FFFF

  /** Taking the lowest block and giving it back leaves the list as it was. */
  lemma TakeAndGiveBack(s: seq<int>)
    requires s != [] && Ascending(s)
    ensures Insert(s[1..], s[0]) == s
  {
  }

  /** Starting from the full range of `size_t`, no bound ever leaves it. */
  method FindMaximumBlockSize(a: Allocator) returns (found: int)
    requires a.Valid()
    modifies a
    ensures a.Valid() && a.free == old(a.free) && a.pool == old(a.pool)
    ensures found == if a.free == [] then 0 else BLOCK_SIZE
  {
    var lowerBound, upperBound := 0, SIZE_MAX;
    while lowerBound < upperBound
      invariant 0 <= lowerBound <= upperBound <= SIZE_MAX
      invariant a.Valid() && a.free == old(a.free) && a.pool == old(a.pool) && a.poolSize == old(a.poolSize)
      invariant if a.free == [] then lowerBound == 0 else lowerBound <= BLOCK_SIZE <= upperBound
    {
      var midpoint := lowerBound + (upperBound - lowerBound) / 2 + 1;
      assert lowerBound < midpoint <= upperBound;
      var ptr := a.Malloc(midpoint);
      if ptr == NULL {
        upperBound := midpoint - 1;
      } else {
        lowerBound := midpoint;
        TakeAndGiveBack(old(a.free));
        var _ := a.Free(ptr);
      }
    }
    found := lowerBound;
  }

  // ---------------------------------------------------------------- a benchmark thread

  const ALLOCATION_BUFFER_SIZE := 1024
  const MAX_ALLOC_MULTIPLIER := 4

  /** The random numbers of one slot visit: whether to free, and the size factor. */
  datatype Draw = Draw(free: bool, factor: nat)

  function Slot(ps: seq<int>, i: nat): int
    requires i < |ps|
  {
    ps[i]
  }

  /** The blocks behind the pointers in the buffer. */
  function Held(ps: seq<int>): set<int> {
    set i: nat | i < |ps| && Slot(ps, i) != NULL :: Slot(ps, i) - HEADER_SIZE
  }

  ghost predicate Distinct(ps: seq<int>) {
    forall i: nat, j: nat :: i < j < |ps| && Slot(ps, i) != NULL ==> Slot(ps, i) != Slot(ps, j)
  }

  /** All pointers in the buffer point to blocks of the pool. */
  ghost predicate InPool(pool: int, size: int, ps: seq<int>) {
    forall i: nat :: i < |ps| && Slot(ps, i) != NULL ==> IsBlock(pool, size, Slot(ps, i) - HEADER_SIZE)
  }

  /** x is in exactly one of two parts of `all`, or nowhere. */
  ghost predicate OnOneSide(x: int, part: set<int>, rest: set<int>, all: set<int>) {
    (x in all <==> x in part || x in rest) && !(x in part && x in rest)
  }

  /** The set `all` is the disjoint union of two parts. */
  ghost predicate Split(part: set<int>, rest: set<int>, all: set<int>) {
    forall x :: OnOneSide(x, part, rest, all)
  }

  lemma SplitSets(part: set<int>, rest: set<int>, all: set<int>)
    ensures Split(part, rest, all) <==> part !! rest && part + rest == all
  {
    if Split(part, rest, all) {
      forall x ensures (x in all <==> x in part || x in rest) && !(x in part && x in rest) {
        assert OnOneSide(x, part, rest, all);
      }
    }
  }

  /** Every block is either on the list or behind exactly one pointer. */
  ghost predicate Accounted(free: seq<int>, ps: seq<int>, start: seq<int>) {
    Ascending(free) && Distinct(ps) && Split(ToSet(free), Held(ps), ToSet(start))
  }

  lemma EmptySlot(ps: seq<int>, i: nat)
    requires i < |ps| && Distinct(ps) && ps[i] != NULL
    ensures Distinct(ps[i := NULL])
    ensures Held(ps) == Held(ps[i := NULL]) + {ps[i] - HEADER_SIZE}
    ensures ps[i] - HEADER_SIZE !in Held(ps[i := NULL])
  {
    var r := ps[i := NULL];
    forall j: nat | j < |ps| && j != i ensures Slot(r, j) == Slot(ps, j) && Slot(r, i) == NULL {}
    forall b | b in Held(ps) ensures b in Held(r) + {ps[i] - HEADER_SIZE} {
      var j: nat :| j < |ps| && Slot(ps, j) != NULL && Slot(ps, j) - HEADER_SIZE == b;
      if j != i { assert Slot(r, j) == Slot(ps, j); }
    }
    assert Slot(ps, i) - HEADER_SIZE in Held(ps);
    forall b | b in Held(r) ensures b in Held(ps) && b != ps[i] - HEADER_SIZE {
      var j: nat :| j < |r| && Slot(r, j) != NULL && Slot(r, j) - HEADER_SIZE == b;
      assert Slot(ps, j) == Slot(r, j) && j != i;
    }
    forall j: nat, k: nat | j < k < |r| && Slot(r, j) != NULL ensures Slot(r, j) != Slot(r, k) {
      assert Slot(ps, j) == Slot(r, j);
      if k != i { assert Slot(ps, k) == Slot(r, k); }
    }
  }

  lemma FillSlot(ps: seq<int>, i: nat, ptr: int)
    requires i < |ps| && Distinct(ps) && ps[i] == NULL && ptr != NULL && ptr - HEADER_SIZE !in Held(ps)
    ensures Distinct(ps[i := ptr]) && Held(ps[i := ptr]) == Held(ps) + {ptr - HEADER_SIZE}
  {
    var r := ps[i := ptr];
    forall j: nat, k: nat | j < k < |r| && Slot(r, j) != NULL ensures Slot(r, j) != Slot(r, k) {
      if j != i {
        assert Slot(ps, j) == Slot(r, j) && Slot(ps, j) - HEADER_SIZE in Held(ps);
      }
      if k != i {
        assert Slot(ps, k) == Slot(r, k);
        if Slot(ps, k) != NULL { assert Slot(ps, k) - HEADER_SIZE in Held(ps); }
      }
    }
    EmptySlot(r, i);
    assert r[i := NULL] == ps;
  }

  lemma UpdateInPool(pool: int, size: int, ps: seq<int>, i: nat, ptr: int)
    requires i < |ps| && InPool(pool, size, ps)
    requires ptr != NULL ==> IsBlock(pool, size, ptr - HEADER_SIZE)
    ensures InPool(pool, size, ps[i := ptr])
    ensures ps[i] != NULL ==> IsBlock(pool, size, ps[i] - HEADER_SIZE)
  {
    assert Slot(ps, i) == ps[i];
    var r := ps[i := ptr];
    forall j: nat | j < |r| && Slot(r, j) != NULL ensures IsBlock(pool, size, Slot(r, j) - HEADER_SIZE) {
      if j != i { assert Slot(r, j) == Slot(ps, j); }
    }
  }

  /** An empty buffer holds no block. */
  lemma EmptyBuffer(ps: seq<int>)
    requires forall i :: 0 <= i < |ps| ==> ps[i] == NULL
    ensures Held(ps) == {} && Distinct(ps) && forall pool, size :: InPool(pool, size, ps)
  {
  }

  lemma GiveBack(free: seq<int>, ps: seq<int>, start: seq<int>, i: nat)
    requires Accounted(free, ps, start) && i < |ps| && ps[i] != NULL
    ensures Accounted(Insert(free, ps[i] - HEADER_SIZE), ps[i := NULL], start)
    ensures |Held(ps)| == |Held(ps[i := NULL])| + 1
  {
    EmptySlot(ps, i);
    InsertKeeps(free, ps[i] - HEADER_SIZE);
    SplitSets(ToSet(free), Held(ps), ToSet(start));
    SplitSets(ToSet(Insert(free, ps[i] - HEADER_SIZE)), Held(ps[i := NULL]), ToSet(start));
  }

  lemma TakeLowest(free: seq<int>, ps: seq<int>, start: seq<int>, i: nat)
    requires Accounted(free, ps, start) && i < |ps| && ps[i] == NULL && free != [] && free[0] > 0
    ensures Accounted(free[1..], ps[i := free[0] + HEADER_SIZE], start)
    ensures |Held(ps[i := free[0] + HEADER_SIZE])| == |Held(ps)| + 1
  {
    SetOfTail(free);
    SplitSets(ToSet(free), Held(ps), ToSet(start));
    assert free[0] in ToSet(free);
    FillSlot(ps, i, free[0] + HEADER_SIZE);
    SplitSets(ToSet(free[1..]), Held(ps[i := free[0] + HEADER_SIZE]), ToSet(start));
  }

  // ---------------------------------------------------------------- what a thread does, call by call

  /** The free list, the buffer, the slot to visit next, the allocations still to do, and the calls made. */
  datatype Bench = Bench(free: seq<int>, ptrs: seq<int>, slot: nat, left: nat, log: seq<Call>)

  predicate InBuffer(b: Bench) {
    b.slot < |b.ptrs| == ALLOCATION_BUFFER_SIZE
  }

  /** Free the pointer in the slot, if there is one. */
  function GiveSlot(b: Bench): (r: Bench)
    requires InBuffer(b)
    ensures InBuffer(r)
  {
    var ptr := b.ptrs[b.slot];
    if ptr == NULL then b
    else
      b.(free := Insert(b.free, ptr - HEADER_SIZE), ptrs := b.ptrs[b.slot := NULL], log := b.log + [Freed(ptr)])
  }

  /** What a request gets from the list. */
  function Got(free: seq<int>, size: nat): int {
    if size > BLOCK_SIZE || free == [] then NULL else free[0] + HEADER_SIZE
  }

  /** Ask for a block and put what comes into the slot. */
  function TakeSlot(b: Bench, size: nat): (r: Bench)
    requires InBuffer(b) && b.left > 0
    ensures InBuffer(r)
  {
    var ptr := Got(b.free, size);
    Bench(if ptr == NULL then b.free else b.free[1..], b.ptrs[b.slot := ptr], b.slot,
          if ptr == NULL then b.left else b.left - 1, b.log + [Allocated(size, ptr)])
  }

  function NextSlot(b: Bench): (r: Bench)
    requires InBuffer(b)
    ensures InBuffer(r)
  {
    b.(slot := if b.slot + 1 == ALLOCATION_BUFFER_SIZE then 0 else b.slot + 1)
  }

  /** The size asked for with this draw. */
  function SizeOf(allocSize: nat, draw: Draw): nat {
    allocSize * (1 + draw.factor % MAX_ALLOC_MULTIPLIER)
  }

  /** One round of the inner loop. */
  function Visit(b: Bench, draw: Draw, allocSize: nat): (r: Bench)
    requires InBuffer(b) && b.left > 0
    ensures InBuffer(r)
  {
    if b.ptrs[b.slot] != NULL && !draw.free then NextSlot(b)
    else NextSlot(TakeSlot(GiveSlot(b), SizeOf(allocSize, draw)))
  }

  /** The allocation loop after k draws; it stops once no allocation is left to do. */
  function Visits(b: Bench, draws: seq<Draw>, k: nat, allocSize: nat): (r: Bench)
    requires InBuffer(b) && k <= |draws|
    ensures InBuffer(r)
  {
    if k == 0 then b
    else
      var r := Visits(b, draws, k - 1, allocSize);
      if r.left == 0 then r else Visit(r, draws[k - 1], allocSize)
  }

  lemma {:induction false} NothingLeft(b: Bench, draws: seq<Draw>, d: nat, k: nat, allocSize: nat)
    requires InBuffer(b) && d <= k <= |draws| && Visits(b, draws, d, allocSize).left == 0
    ensures Visits(b, draws, k, allocSize) == Visits(b, draws, d, allocSize)
  {
    if d < k { NothingLeft(b, draws, d, k - 1, allocSize); }
  }

  /** The last loop: free what is left in the slots from i on. */
  function Drain(b: Bench, i: nat): (r: Bench)
    requires |b.ptrs| == ALLOCATION_BUFFER_SIZE && i <= ALLOCATION_BUFFER_SIZE
    decreases ALLOCATION_BUFFER_SIZE - i
  {
    if i == ALLOCATION_BUFFER_SIZE then b else Drain(GiveSlot(b.(slot := i)), i + 1)
  }

  function EmptyPointers(): (ps: seq<int>)
    ensures |ps| == ALLOCATION_BUFFER_SIZE && forall i :: 0 <= i < |ps| ==> ps[i] == NULL
  {
    seq(ALLOCATION_BUFFER_SIZE, _ => NULL)
  }

  function Opening(free: seq<int>, n: nat): Bench {
    Bench(free, EmptyPointers(), 0, n, [])
  }

  // ---------------------------------------------------------------- what a log says

  /** Requests that were granted. */
  function Grants(log: seq<Call>): nat {
    if log == [] then 0
    else Grants(log[..|log| - 1]) +
         (if log[|log| - 1].Allocated? && log[|log| - 1].ptr != NULL then 1 else 0)
  }

  function Releases(log: seq<Call>): nat {
    if log == [] then 0 else Releases(log[..|log| - 1]) + (if log[|log| - 1].Freed? then 1 else 0)
  }

  /** The blocks granted and not released yet. */
  function Holding(log: seq<Call>): set<int> {
    if log == [] then {}
    else
      var c, h := log[|log| - 1], Holding(log[..|log| - 1]);
      if c.Freed? then h - {c.ptr - HEADER_SIZE}
      else if c.ptr != NULL then h + {c.ptr - HEADER_SIZE}
      else h
  }

  /** No block is granted while it is held, and none is released that is not held. */
  predicate Proper(log: seq<Call>) {
    log == [] ||
    var c, h := log[|log| - 1], Holding(log[..|log| - 1]);
    Proper(log[..|log| - 1]) &&
    (c.Freed? ==> c.ptr != NULL && c.ptr - HEADER_SIZE in h) &&
    (c.Allocated? && c.ptr != NULL ==> c.ptr - HEADER_SIZE !in h)
  }

  lemma FreedAdded(log: seq<Call>, ptr: int)
    requires Proper(log) && ptr != NULL && ptr - HEADER_SIZE in Holding(log)
    ensures var r := log + [Freed(ptr)];
            Proper(r) && Holding(r) == Holding(log) - {ptr - HEADER_SIZE} &&
            Grants(r) == Grants(log) && Releases(r) == Releases(log) + 1
  {
    assert (log + [Freed(ptr)])[..|log|] == log;
  }

  lemma AllocatedAdded(log: seq<Call>, size: nat, ptr: int)
    requires Proper(log) && (ptr == NULL || ptr - HEADER_SIZE !in Holding(log))
    ensures var r := log + [Allocated(size, ptr)];
            Proper(r) && Holding(r) == Holding(log) + (if ptr == NULL then {} else {ptr - HEADER_SIZE}) &&
            Grants(r) == Grants(log) + (if ptr == NULL then 0 else 1) && Releases(r) == Releases(log)
  {
    assert (log + [Allocated(size, ptr)])[..|log|] == log;
  }

  /** Call j is the release of the pointer that call i was granted, and the first call about it since. */
  predicate ReleasedAt(log: seq<Call>, i: nat, j: nat) {
    i < j < |log| && log[j] == Freed(log[i].ptr) && forall k :: i < k < j ==> log[k].ptr != log[i].ptr
  }

  lemma {:induction false} StillHeld(log: seq<Call>, i: nat)
    requires Proper(log) && i < |log| && log[i].Allocated? && log[i].ptr != NULL
    ensures (exists j :: ReleasedAt(log, i, j)) ||
            (log[i].ptr - HEADER_SIZE in Holding(log) && forall k :: i < k < |log| ==> log[k].ptr != log[i].ptr)
    decreases |log|
  {
    var n := |log| - 1;
    var u := log[..n];
    if i == n {
    } else {
      StillHeld(u, i);
      if j :| ReleasedAt(u, i, j) {
        assert ReleasedAt(log, i, j);
      } else if log[n].ptr == log[i].ptr {
        assert ReleasedAt(log, i, n);
      }
    }
  }

  /** In a proper log at whose end nothing is held, every grant is followed by exactly one release of its pointer. */
  lemma EachReleasedOnce(log: seq<Call>, i: nat)
    requires Proper(log) && Holding(log) == {} && i < |log| && log[i].Allocated? && log[i].ptr != NULL
    ensures exists j :: ReleasedAt(log, i, j)
  {
    StillHeld(log, i);
  }

  // ---------------------------------------------------------------- what a thread's log says

  /** Buffer, list and log agree: every block is on the list or behind one pointer, and the log is proper. */
  ghost predicate BooksOk(b: Bench, start: seq<int>, n: nat) {
    InBuffer(b) && Accounted(b.free, b.ptrs, start) && (forall x :: x in start ==> x > 0) &&
    LogOk(b.log, Held(b.ptrs), n - b.left)
  }

  /** The log is proper, and after `granted` grants these blocks are held. */
  ghost predicate LogOk(log: seq<Call>, held: set<int>, granted: int) {
    Proper(log) && Holding(log) == held && Grants(log) == granted && Releases(log) + |held| == granted
  }

  lemma OpeningOk(start: seq<int>, n: nat)
    requires Ascending(start) && forall x :: x in start ==> x > 0
    ensures BooksOk(Opening(start, n), start, n)
  {
    EmptyBuffer(EmptyPointers());
    SplitSets(ToSet(start), {}, ToSet(start));
  }

  lemma GiveOk(b: Bench, start: seq<int>, n: nat)
    requires BooksOk(b, start, n)
    ensures BooksOk(GiveSlot(b), start, n) && GiveSlot(b).ptrs[b.slot] == NULL && GiveSlot(b).left == b.left
  {
    if b.ptrs[b.slot] != NULL {
      GiveBack(b.free, b.ptrs, start, b.slot);
      GiveLogOk(b, start, n);
    }
  }

  lemma GiveLogOk(b: Bench, start: seq<int>, n: nat)
    requires BooksOk(b, start, n) && b.ptrs[b.slot] != NULL
    ensures LogOk(GiveSlot(b).log, Held(GiveSlot(b).ptrs), n - b.left)
  {
    GiveBack(b.free, b.ptrs, start, b.slot);
    GiveLog(b.ptrs, b.slot, b.log, n - b.left);
  }

  lemma GiveLog(ps: seq<int>, i: nat, log: seq<Call>, granted: int)
    requires Distinct(ps) && i < |ps| && ps[i] != NULL && LogOk(log, Held(ps), granted)
    ensures LogOk(log + [Freed(ps[i])], Held(ps[i := NULL]), granted)
  {
    EmptySlot(ps, i);
    FreedAdded(log, ps[i]);
    assert Held(ps) - {ps[i] - HEADER_SIZE} == Held(ps[i := NULL]);
  }

  lemma FreeIsPositive(b: Bench, start: seq<int>, n: nat)
    requires BooksOk(b, start, n) && b.free != []
    ensures b.free[0] > 0
  {
    SplitSets(ToSet(b.free), Held(b.ptrs), ToSet(start));
    assert b.free[0] in ToSet(b.free);
    assert b.free[0] in ToSet(start);
  }

  lemma TakeOk(b: Bench, start: seq<int>, n: nat, size: nat)
    requires BooksOk(b, start, n) && b.left > 0 && b.ptrs[b.slot] == NULL
    ensures BooksOk(TakeSlot(b, size), start, n)
  {
    if Got(b.free, size) != NULL {
      FreeIsPositive(b, start, n);
      TakeLowest(b.free, b.ptrs, start, b.slot);
      SplitSets(ToSet(b.free), Held(b.ptrs), ToSet(start));
      assert b.free[0] in ToSet(b.free);
      FillSlot(b.ptrs, b.slot, b.free[0] + HEADER_SIZE);
      AllocatedAdded(b.log, size, b.free[0] + HEADER_SIZE);
    } else {
      AllocatedAdded(b.log, size, NULL);
      assert b.ptrs[b.slot := NULL] == b.ptrs;
    }
  }

  lemma VisitOk(b: Bench, draw: Draw, allocSize: nat, start: seq<int>, n: nat)
    requires BooksOk(b, start, n) && b.left > 0
    ensures BooksOk(Visit(b, draw, allocSize), start, n)
  {
    GiveOk(b, start, n);
    if b.ptrs[b.slot] == NULL || draw.free { TakeOk(GiveSlot(b), start, n, SizeOf(allocSize, draw)); }
  }

  lemma {:induction false} VisitsOk(b: Bench, draws: seq<Draw>, k: nat, allocSize: nat, start: seq<int>, n: nat)
    requires BooksOk(b, start, n) && k <= |draws|
    ensures BooksOk(Visits(b, draws, k, allocSize), start, n)
  {
    if k == 0 {
    } else {
      VisitsOk(b, draws, k - 1, allocSize, start, n);
      var r := Visits(b, draws, k - 1, allocSize);
      if r.left > 0 { VisitOk(r, draws[k - 1], allocSize, start, n); }
    }
  }

  lemma {:induction false} DrainOk(b: Bench, i: nat, start: seq<int>, n: nat)
    requires BooksOk(b, start, n) && i <= ALLOCATION_BUFFER_SIZE
    requires forall j :: 0 <= j < i ==> b.ptrs[j] == NULL
    ensures Drained(Drain(b, i), start, n - b.left)
    decreases ALLOCATION_BUFFER_SIZE - i
  {
    if i == ALLOCATION_BUFFER_SIZE {
      EmptyBuffer(b.ptrs);
    } else {
      var c := b.(slot := i);
      GiveOk(c, start, n);
      GiveKeepsEmpty(c, i);
      DrainOk(GiveSlot(c), i + 1, start, n);
    }
  }

  lemma GiveKeepsEmpty(c: Bench, i: nat)
    requires InBuffer(c) && c.slot == i && forall j :: 0 <= j < i ==> c.ptrs[j] == NULL
    ensures forall j :: 0 <= j < i + 1 ==> GiveSlot(c).ptrs[j] == NULL
  {
  }

  /** All blocks are back on the list, and the log says so. */
  ghost predicate Drained(e: Bench, start: seq<int>, granted: int) {
    Accounted(e.free, e.ptrs, start) && Held(e.ptrs) == {} && LogOk(e.log, {}, granted)
  }

  /** n requests were granted, each is followed by exactly one release of its pointer, and no other is released. */
  ghost predicate Balanced(log: seq<Call>, n: nat) {
    Proper(log) && Holding(log) == {} && Grants(log) == Releases(log) == n &&
    forall i: nat :: i < |log| && log[i].Allocated? && log[i].ptr != NULL ==> exists j :: ReleasedAt(log, i, j)
  }

  /**
   The calls of a thread whose draws suffice: exactly n requests are granted, each is followed by
   exactly one release of its pointer, nothing else is released, and the list is back where it was.
   */
  lemma ThreadCalls(start: seq<int>, n: nat, allocSize: nat, draws: seq<Draw>)
    requires Ascending(start) && forall x :: x in start ==> x > 0
    requires Visits(Opening(start, n), draws, |draws|, allocSize).left == 0
    ensures var e := Drain(Visits(Opening(start, n), draws, |draws|, allocSize), 0);
            e.free == start && Balanced(e.log, n)
  {
    OpeningOk(start, n);
    VisitsOk(Opening(start, n), draws, |draws|, allocSize, start, n);
    DrainOk(Visits(Opening(start, n), draws, |draws|, allocSize), 0, start, n);
    var e := Drain(Visits(Opening(start, n), draws, |draws|, allocSize), 0);
    SplitSets(ToSet(e.free), Held(e.ptrs), ToSet(start));
    AscendingUnique(e.free, start);
    forall i: nat | i < |e.log| && e.log[i].Allocated? && e.log[i].ptr != NULL
      ensures exists j :: ReleasedAt(e.log, i, j)
    {
      EachReleasedOnce(e.log, i);
    }
  }

  // ---------------------------------------------------------------- draws that suffice

  /** The first k visits find empty slots. */
  function FirstVisits(free: seq<int>, draws: seq<Draw>, allocSize: nat, n: nat, k: nat): (b: Bench)
    requires k <= n <= |free| && n <= |draws| && k <= ALLOCATION_BUFFER_SIZE
    ensures InBuffer(b)
  {
    Bench(free[k..], seq(ALLOCATION_BUFFER_SIZE, (i: nat) requires i < ALLOCATION_BUFFER_SIZE =>
                       if i < k then free[i] + HEADER_SIZE else NULL),
          if k == ALLOCATION_BUFFER_SIZE then 0 else k, n - k,
          seq(k, (i: nat) requires i < k => Allocated(SizeOf(allocSize, draws[i]), free[i] + HEADER_SIZE)))
  }

  lemma NextGrant(free: seq<int>, draws: seq<Draw>, allocSize: nat, n: nat, k: nat)
    requires k < n <= |free| && n <= |draws| && n <= ALLOCATION_BUFFER_SIZE
    requires allocSize * MAX_ALLOC_MULTIPLIER <= BLOCK_SIZE && free[k] > 0
    ensures Visit(FirstVisits(free, draws, allocSize, n, k), draws[k], allocSize) ==
            FirstVisits(free, draws, allocSize, n, k + 1)
  {
    var b, r := FirstVisits(free, draws, allocSize, n, k), FirstVisits(free, draws, allocSize, n, k + 1);
    SizeFits(allocSize, draws[k]);
    assert free[k..][1..] == free[k + 1..];
    var t := TakeSlot(b, SizeOf(allocSize, draws[k]));
    assert t.log == r.log && t.free == r.free && t.ptrs == r.ptrs;
  }

  /** Visit i leads from state i to the next. */
  predicate Leads(bs: seq<Bench>, draws: seq<Draw>, allocSize: nat, i: nat) {
    i + 1 < |bs| && i < |draws| && InBuffer(bs[i]) && bs[i].left > 0 && Visit(bs[i], draws[i], allocSize) == bs[i + 1]
  }

  lemma {:induction false} VisitsAre(bs: seq<Bench>, draws: seq<Draw>, k: nat, allocSize: nat)
    requires k < |bs| && k <= |draws| && InBuffer(bs[0])
    requires forall i: nat :: i < k ==> Leads(bs, draws, allocSize, i)
    ensures Visits(bs[0], draws, k, allocSize) == bs[k]
  {
    if k > 0 {
      VisitsAre(bs, draws, k - 1, allocSize);
      assert Leads(bs, draws, allocSize, k - 1);
    }
  }

  lemma FirstVisit(free: seq<int>, draws: seq<Draw>, allocSize: nat, n: nat)
    requires n <= |free| && n <= |draws| && n <= ALLOCATION_BUFFER_SIZE
    ensures Opening(free, n) == FirstVisits(free, draws, allocSize, n, 0)
  {
    assert FirstVisits(free, draws, allocSize, n, 0).ptrs == EmptyPointers();
  }

  lemma FirstVisitsGo(free: seq<int>, draws: seq<Draw>, allocSize: nat, n: nat)
    requires n <= |free| && n <= |draws| && n <= ALLOCATION_BUFFER_SIZE
    requires allocSize * MAX_ALLOC_MULTIPLIER <= BLOCK_SIZE && forall x :: x in free ==> x > 0
    ensures Visits(Opening(free, n), draws, n, allocSize) == FirstVisits(free, draws, allocSize, n, n)
  {
    var bs := seq(n + 1, (k: nat) requires k < n + 1 => FirstVisits(free, draws, allocSize, n, k));
    forall k: nat | k < n ensures Leads(bs, draws, allocSize, k) {
      assert free[k] in free;
      NextGrant(free, draws, allocSize, n, k);
    }
    FirstVisit(free, draws, allocSize, n);
    VisitsAre(bs, draws, n, allocSize);
  }

  lemma SizeFits(allocSize: nat, draw: Draw)
    requires allocSize * MAX_ALLOC_MULTIPLIER <= BLOCK_SIZE
    ensures SizeOf(allocSize, draw) <= BLOCK_SIZE
  {
    Monotone(1 + draw.factor % MAX_ALLOC_MULTIPLIER, MAX_ALLOC_MULTIPLIER, allocSize);
  }

  /**
   While the buffer has empty slots and the list has blocks, every visit is a grant: n draws suffice
   for n allocations, which take the first n blocks of the list with the sizes drawn.
   */
  lemma FirstPass(free: seq<int>, draws: seq<Draw>, allocSize: nat, n: nat)
    requires n <= |free| && n <= |draws| && n <= ALLOCATION_BUFFER_SIZE
    requires allocSize * MAX_ALLOC_MULTIPLIER <= BLOCK_SIZE && forall x :: x in free ==> x > 0
    ensures var e := Visits(Opening(free, n), draws, |draws|, allocSize);
            e.left == 0 && GrantedInOrder(e.log, free, draws, allocSize, n)
  {
    FirstVisitsGo(free, draws, allocSize, n);
    FirstVisitsLog(free, draws, allocSize, n);
    NothingLeft(Opening(free, n), draws, n, |draws|, allocSize);
  }

  /** The log is n grants: of the first n blocks of the list, for the sizes drawn. */
  predicate GrantedInOrder(log: seq<Call>, free: seq<int>, draws: seq<Draw>, allocSize: nat, n: nat)
    requires n <= |free| && n <= |draws|
  {
    |log| == n &&
    forall i: nat :: i < n ==>
      log[i] == Allocated(allocSize * (1 + draws[i].factor % 4), free[i] + HEADER_SIZE)
  }

  lemma FirstVisitsLog(free: seq<int>, draws: seq<Draw>, allocSize: nat, n: nat)
    requires n <= |free| && n <= |draws| && n <= ALLOCATION_BUFFER_SIZE
    ensures var b := FirstVisits(free, draws, allocSize, n, n);
            b.left == 0 && GrantedInOrder(b.log, free, draws, allocSize, n)
  {
  }

  /** A visit whose draw says to free, for a size that fits, fails only for an empty slot and an empty list. */
  lemma FreeingVisit(b: Bench, draw: Draw, allocSize: nat, start: seq<int>, n: nat)
    requires BooksOk(b, start, n) && b.left > 0 && draw.free && allocSize * MAX_ALLOC_MULTIPLIER <= BLOCK_SIZE
    ensures var r := Visit(b, draw, allocSize);
            r.left == b.left - 1 || (r == NextSlot(TakeSlot(b, SizeOf(allocSize, draw))) && r.left == b.left &&
                                     b.ptrs[b.slot] == NULL && r.ptrs == b.ptrs && r.free == b.free == [])
  {
    SizeFits(allocSize, draw);
    GiveOk(b, start, n);
    var g := GiveSlot(b);
    if b.ptrs[b.slot] != NULL { InsertKeeps(b.free, b.ptrs[b.slot] - HEADER_SIZE); }
    if g.free != [] { FreeIsPositive(g, start, n); }
  }

  predicate AllFree(draws: seq<Draw>) {
    forall i: nat :: i < |draws| ==> draws[i].free
  }

  /** A block is on the list, or behind the pointer d slots ahead. */
  predicate BlockAhead(b: Bench, d: nat)
    requires InBuffer(b) && d < ALLOCATION_BUFFER_SIZE
  {
    b.free != [] ||
    b.ptrs[if b.slot + d < ALLOCATION_BUFFER_SIZE then b.slot + d else b.slot + d - ALLOCATION_BUFFER_SIZE] != NULL
  }

  lemma SlotNearer(b: Bench, r: Bench, d: nat)
    requires InBuffer(b) && InBuffer(r) && d < ALLOCATION_BUFFER_SIZE && BlockAhead(b, d)
    requires b.ptrs[b.slot] == NULL && r.ptrs == b.ptrs && r.free == b.free == []
    requires r.slot == NextSlot(b).slot
    ensures d > 0 && BlockAhead(r, d - 1)
  {
  }

  lemma NoGrantNearer(b: Bench, draw: Draw, allocSize: nat, start: seq<int>, n: nat, d: nat)
    requires BooksOk(b, start, n) && b.left > 0 && draw.free && allocSize * MAX_ALLOC_MULTIPLIER <= BLOCK_SIZE
    requires d < ALLOCATION_BUFFER_SIZE && BlockAhead(b, d)
    ensures var r := Visit(b, draw, allocSize);
            r.left == b.left - 1 || (r.left == b.left && d > 0 && BlockAhead(r, d - 1))
  {
    FreeingVisit(b, draw, allocSize, start, n);
    var r := Visit(b, draw, allocSize);
    if r.left != b.left - 1 { SlotNearer(b, r, d); }
  }

  /** A visit does not undo grants, and without a grant the next block is one slot nearer. */
  ghost predicate GoesOn(b: Bench, r: Bench) {
    InBuffer(b) && InBuffer(r) && r.left <= b.left &&
    (b.left > 0 ==>
      forall d: nat :: d < ALLOCATION_BUFFER_SIZE && BlockAhead(b, d) ==>
        r.left < b.left || (d > 0 && BlockAhead(r, d - 1)))
  }

  /** Some block is ahead. */
  ghost predicate Stocked(b: Bench) {
    InBuffer(b) && exists d: nat :: d < ALLOCATION_BUFFER_SIZE && BlockAhead(b, d)
  }

  /** The states between the visits. */
  ghost predicate Chain(bs: seq<Bench>) {
    (forall k: nat {:trigger bs[k]} :: k < |bs| ==> Stocked(bs[k])) &&
    forall k: nat, m: nat {:trigger bs[k], bs[m]} :: m == k + 1 && m < |bs| ==> GoesOn(bs[k], bs[m])
  }

  /** A grant is at most d visits away. */
  lemma {:induction false} GrantWithin(bs: seq<Bench>, k: nat, d: nat)
    requires Chain(bs) && k + d + 1 < |bs| && d < ALLOCATION_BUFFER_SIZE
    requires bs[k].left > 0 && BlockAhead(bs[k], d)
    ensures bs[k + d + 1].left < bs[k].left
    decreases d
  {
    assert GoesOn(bs[k], bs[k + 1]);
    if bs[k + 1].left < bs[k].left {
      LeftFalls(bs, k + 1, k + d + 1);
    } else {
      GrantWithin(bs, k + 1, d - 1);
    }
  }

  lemma {:induction false} LeftFalls(bs: seq<Bench>, k: nat, m: nat)
    requires Chain(bs) && k <= m < |bs|
    ensures bs[m].left <= bs[k].left
  {
    if k < m {
      assert GoesOn(bs[m - 1], bs[m]);
      LeftFalls(bs, k, m - 1);
    }
  }

  /** Every pass over the buffer brings a grant. */
  lemma {:induction false} PassesGrant(bs: seq<Bench>, p: nat)
    requires Chain(bs) && ALLOCATION_BUFFER_SIZE * p < |bs|
    ensures bs[ALLOCATION_BUFFER_SIZE * p].left <= if p < bs[0].left then bs[0].left - p else 0
    decreases p
  {
    if p > 0 {
      var k := ALLOCATION_BUFFER_SIZE * (p - 1);
      PassesGrant(bs, p - 1);
      if bs[k].left > 0 {
        assert Stocked(bs[k]);
        var d: nat :| d < ALLOCATION_BUFFER_SIZE && BlockAhead(bs[k], d);
        GrantWithin(bs, k, d);
        LeftFalls(bs, k + d + 1, k + ALLOCATION_BUFFER_SIZE);
      } else {
        LeftFalls(bs, k, k + ALLOCATION_BUFFER_SIZE);
      }
    }
  }

  lemma SlotAhead(b: Bench, start: seq<int>, n: nat) returns (d: nat)
    requires BooksOk(b, start, n) && start != []
    ensures d < ALLOCATION_BUFFER_SIZE && BlockAhead(b, d)
  {
    d := 0;
    if b.free == [] {
      var i := SomePointer(b.free, b.ptrs, start);
      d := if b.slot <= i then i - b.slot else i + ALLOCATION_BUFFER_SIZE - b.slot;
    }
  }

  lemma SomePointer(free: seq<int>, ps: seq<int>, start: seq<int>) returns (i: nat)
    requires Accounted(free, ps, start) && start != [] && free == []
    ensures i < |ps| && ps[i] != NULL
  {
    SplitSets(ToSet(free), Held(ps), ToSet(start));
    assert start[0] in ToSet(start);
    i :| i < |ps| && Slot(ps, i) != NULL && Slot(ps, i) - HEADER_SIZE == start[0];
  }

  lemma VisitGoesOn(b: Bench, draw: Draw, allocSize: nat, start: seq<int>, n: nat)
    requires BooksOk(b, start, n) && draw.free && allocSize * MAX_ALLOC_MULTIPLIER <= BLOCK_SIZE
    ensures b.left > 0 ==> GoesOn(b, Visit(b, draw, allocSize))
    ensures b.left == 0 ==> GoesOn(b, b)
  {
    if b.left > 0 {
      var r := Visit(b, draw, allocSize);
      FreeingVisit(b, draw, allocSize, start, n);
      forall d: nat | d < ALLOCATION_BUFFER_SIZE && BlockAhead(b, d)
        ensures r.left < b.left || (d > 0 && BlockAhead(r, d - 1))
      {
        NoGrantNearer(b, draw, allocSize, start, n, d);
      }
    }
  }

  /** The states of the allocation loop after 0, 1, ... draws. */
  function States(b: Bench, draws: seq<Draw>, allocSize: nat): (bs: seq<Bench>)
    requires InBuffer(b)
    ensures |bs| == |draws| + 1
  {
    seq(|draws| + 1, (k: nat) requires k <= |draws| => Visits(b, draws, k, allocSize))
  }

  lemma StatesChain(start: seq<int>, draws: seq<Draw>, allocSize: nat, n: nat)
    requires Ascending(start) && start != [] && forall x :: x in start ==> x > 0
    requires AllFree(draws) && allocSize * MAX_ALLOC_MULTIPLIER <= BLOCK_SIZE
    ensures Chain(States(Opening(start, n), draws, allocSize))
  {
    var b := Opening(start, n);
    var bs := States(b, draws, allocSize);
    OpeningOk(start, n);
    forall k: nat {:trigger bs[k]} | k < |bs| ensures Stocked(bs[k]) {
      VisitsOk(b, draws, k, allocSize, start, n);
      var d := SlotAhead(bs[k], start, n);
    }
    forall k: nat, m: nat {:trigger bs[k], bs[m]} | m == k + 1 && m < |bs| ensures GoesOn(bs[k], bs[m]) {
      NextState(b, draws, k, allocSize, start, n);
    }
  }

  lemma NextState(b: Bench, draws: seq<Draw>, k: nat, allocSize: nat, start: seq<int>, n: nat)
    requires BooksOk(b, start, n) && AllFree(draws) && allocSize * MAX_ALLOC_MULTIPLIER <= BLOCK_SIZE
    requires k < |draws|
    ensures GoesOn(Visits(b, draws, k, allocSize), Visits(b, draws, k + 1, allocSize))
  {
    VisitsOk(b, draws, k, allocSize, start, n);
    VisitGoesOn(Visits(b, draws, k, allocSize), draws[k], allocSize, start, n);
  }

  /**
   If all draws say to free, the allocation loop ends: every pass over the buffer brings a grant, so
   n passes suffice, however few blocks there are.
   */
  lemma FreeingSuffices(start: seq<int>, draws: seq<Draw>, allocSize: nat, n: nat)
    requires Ascending(start) && start != [] && forall x :: x in start ==> x > 0
    requires AllFree(draws) && allocSize * MAX_ALLOC_MULTIPLIER <= BLOCK_SIZE
    requires ALLOCATION_BUFFER_SIZE * n <= |draws|
    ensures Visits(Opening(start, n), draws, |draws|, allocSize).left == 0
  {
    var bs := States(Opening(start, n), draws, allocSize);
    StatesChain(start, draws, allocSize, n);
    PassesGrant(bs, n);
    LeftFalls(bs, ALLOCATION_BUFFER_SIZE * n, |draws|);
  }

  // ---------------------------------------------------------------- the code

  /** Allocator and buffer are as b says, and b's calls have been made since `before`. */
  ghost predicate Books(a: Allocator, ptrs: array<int>, b: Bench, before: seq<Call>)
    reads a, ptrs
  {
    && a.Valid() && a.pool != NULL && InBuffer(b)
    && InPool(a.pool, a.poolSize, b.ptrs)
    && b.free == a.free && b.ptrs == ptrs[..] && a.log == before + b.log
  }

  lemma OpeningBooks(a: Allocator, ptrs: array<int>, n: nat)
    requires a.Valid() && a.pool != NULL && ptrs.Length == ALLOCATION_BUFFER_SIZE
    requires forall i :: 0 <= i < ptrs.Length ==> ptrs[i] == NULL
    ensures Books(a, ptrs, Opening(a.free, n), a.log)
    ensures Ascending(a.free) && forall x :: x in a.free ==> x > 0
  {
    forall x | x in a.free ensures x > 0 {
      assert x in ToSet(a.free);
    }
    assert ptrs[..] == EmptyPointers();
    EmptyBuffer(ptrs[..]);
  }

  /** Free the pointer in a slot and clear the slot. */
  method Release(a: Allocator, ptrs: array<int>, slot: nat, ghost b: Bench, ghost before: seq<Call>)
    requires Books(a, ptrs, b, before) && b.slot == slot && ptrs[slot] != NULL
    modifies a, ptrs
    ensures Books(a, ptrs, GiveSlot(b), before)
  {
    UpdateInPool(a.pool, a.poolSize, b.ptrs, slot, NULL);
    var _ := a.Free(ptrs[slot]);
    ptrs[slot] := NULL;
    assert ptrs[..] == b.ptrs[slot := NULL];
  }

  /** Try to allocate into an empty slot. */
  method Fill(a: Allocator, ptrs: array<int>, slot: nat, size: nat, ghost b: Bench, ghost before: seq<Call>)
    returns (ok: bool)
    requires Books(a, ptrs, b, before) && b.slot == slot && ptrs[slot] == NULL && b.left > 0
    modifies a, ptrs
    ensures Books(a, ptrs, TakeSlot(b, size), before)
    ensures ok <==> Got(b.free, size) != NULL
  {
    var ptr := a.Malloc(size);
    ok := ptr != NULL;
    UpdateInPool(a.pool, a.poolSize, b.ptrs, slot, ptr);
    if ok {
      ptrs[slot] := ptr;
    }
    assert ptrs[..] == b.ptrs[slot := ptr];
  }

  /** One round of the inner loop. */
  method VisitSlot(a: Allocator, ptrs: array<int>, slot: nat, draw: Draw, allocSize: nat,
                   ghost b: Bench, ghost before: seq<Call>) returns (granted: bool)
    requires Books(a, ptrs, b, before) && b.slot == slot && b.left > 0
    modifies a, ptrs
    ensures Books(a, ptrs, Visit(b, draw, allocSize), before)
    ensures Visit(b, draw, allocSize).left == b.left - if granted then 1 else 0
  {
    if ptrs[slot] != NULL {
      if draw.free {
        Release(a, ptrs, slot, b, before);
      } else {
        return false;
      }
    }
    var size := allocSize * (1 + draw.factor % MAX_ALLOC_MULTIPLIER);
    granted := Fill(a, ptrs, slot, size, GiveSlot(b), before);
  }

  /** The last loop. */
  method DrainBuffer(a: Allocator, ptrs: array<int>, ghost b: Bench, ghost before: seq<Call>)
    requires Books(a, ptrs, b, before)
    modifies a, ptrs
    ensures a.Valid() && a.free == Drain(b, 0).free && a.log == before + Drain(b, 0).log
  {
    ghost var c := b;
    for i := 0 to ALLOCATION_BUFFER_SIZE
      invariant Books(a, ptrs, c, before) && Drain(c, i) == Drain(b, 0)
    {
      c := c.(slot := i);
      if ptrs[i] != NULL {
        Release(a, ptrs, i, c, before);
      }
      c := GiveSlot(c);
    }
  }

  /** The inner loop, as far as the draws from number d0 on last; d is the next draw. */
  method Pass(a: Allocator, ptrs: array<int>, left: nat, draws: seq<Draw>, d0: nat, allocSize: nat,
              ghost start: Bench, ghost before: seq<Call>)
    returns (d: nat, allocationsLeft: nat)
    requires InBuffer(start) && d0 <= |draws|
    requires var b := Visits(start, draws, d0, allocSize);
             Books(a, ptrs, b, before) && b.slot == 0 && b.left == left > 0
    modifies a, ptrs
    ensures d0 <= d <= |draws| && (d0 < |draws| ==> d0 < d)
    ensures var b := Visits(start, draws, d, allocSize);
            Books(a, ptrs, b, before) && b.left == allocationsLeft && (d < |draws| && b.left > 0 ==> b.slot == 0)
  {
    d, allocationsLeft := d0, left;
    ghost var b := Visits(start, draws, d0, allocSize);
    var i := 0;
    while i < ALLOCATION_BUFFER_SIZE && allocationsLeft > 0
      invariant 0 <= i <= ALLOCATION_BUFFER_SIZE && d == d0 + i <= |draws| && b.left == allocationsLeft
      invariant b.slot == if i == ALLOCATION_BUFFER_SIZE then 0 else i
      invariant Books(a, ptrs, b, before) && b == Visits(start, draws, d, allocSize)
      invariant i == 0 ==> allocationsLeft > 0
    {
      if d == |draws| {
        return;
      }
      var granted := VisitSlot(a, ptrs, i, draws[d], allocSize, b, before);
      b := Visits(start, draws, d + 1, allocSize);
      if granted {
        allocationsLeft := allocationsLeft - 1;
      }
      d := d + 1;
      i := i + 1;
    }
  }

  /**
   The loops of `thread_fn` on an initialised allocator. `finished` tells whether the random draws
   sufficed for the allocation loop to end. The calls made are those of `Visits` and, if it has ended,
   those of `Drain`; `ThreadCalls` says what these are.
   */
  method ThreadFn(a: Allocator, numAllocations: nat, allocSize: nat, draws: seq<Draw>) returns (finished: bool)
    requires a.Valid() && a.pool != NULL
    modifies a
    ensures a.Valid()
    ensures var e := Visits(Opening(old(a.free), numAllocations), draws, |draws|, allocSize);
            var end := if finished then Drain(e, 0) else e;
            (finished <==> e.left == 0) && a.log == old(a.log) + end.log && a.free == end.free
    ensures finished ==> a.free == old(a.free) && Balanced(a.log[|old(a.log)|..], numAllocations)
  {
    var ptrs := new int[ALLOCATION_BUFFER_SIZE](_ => NULL);
    var allocationsLeft := numAllocations;
    var d := 0;
    ghost var before, start := a.log, Opening(a.free, numAllocations);
    OpeningBooks(a, ptrs, numAllocations);
    while allocationsLeft > 0
      invariant d <= |draws|
      invariant var b := Visits(start, draws, d, allocSize);
                Books(a, ptrs, b, before) && b.left == allocationsLeft && (allocationsLeft > 0 ==> b.slot == 0)
      decreases |draws| - d
    {
      d, allocationsLeft := Pass(a, ptrs, allocationsLeft, draws, d, allocSize, start, before);
      if allocationsLeft > 0 && d == |draws| {
        return false;
      }
    }
    NothingLeft(start, draws, d, |draws|, allocSize);
    ThreadCalls(old(a.free), numAllocations, allocSize, draws);
    DrainBuffer(a, ptrs, Visits(start, draws, d, allocSize), before);
    assert a.log[|old(a.log)|..] == Drain(Visits(start, draws, |draws|, allocSize), 0).log;
    finished := true;
  }
}
