/**
 The hand-written reusable barrier: the fields guarded by `barrier_mutex`, the two
 lock-to-lock sections of a wait, and the step system of N threads that wait in a
 loop under every interleaving and every spurious wake-up.
 */
module Barrier {
  import opened Arithmetic
  import opened Sums

  // MY_PTHREAD_BARRIER_SERIAL_THREAD
  const SERIAL := -1

  // Number of values of the C `int` that holds the generation.
  const INT_PATTERNS: nat := 0x1_0000_0000

  datatype Fields = Fields(waiting: int, generation: int)

  /** How a locked section of a wait ends: asleep on the condition, or returned. */
  datatype Outcome = Sleep(captured: int) | Return(value: int)

  /** The generation counter: unbounded for m == 0, else one that wraps after m values. */
  function NextGeneration(m: nat, g: int): int {
    if m == 0 then g + 1 else (g + 1) % m
  }

  /** The condition of the waiting loop. */
  predicate MustWait(f: Fields, captured: int, max: int) {
    captured == f.generation && f.waiting < max
  }

  /** From `lock` to the first `cond_wait` or to the serial return. */
  function Enter(m: nat, f: Fields, max: int): (Fields, Outcome) {
    if f.waiting + 1 < max then
      (f.(waiting := f.waiting + 1), Sleep(f.generation))
    else
      (Fields(0, NextGeneration(m, f.generation)), Return(SERIAL))
  }

  /** From a wake-up to the next `cond_wait` or to the plain return. */
  function Recheck(f: Fields, captured: int, max: int): Outcome {
    if MustWait(f, captured, max) then Sleep(captured) else Return(0)
  }

  /** The barrier object. `generation` is the bit pattern of the C field. */
  class BarrierObject {
    var maxThreads: int
    var waitingThreads: int
    var generation: int

    ghost predicate Valid()
      reads this
    {
      0 <= waitingThreads < maxThreads && 0 <= generation < INT_PATTERNS
    }

    ghost function View(): Fields
      reads this
    {
      Fields(waitingThreads, generation)
    }

    constructor () {
      maxThreads, waitingThreads, generation := 0, 0, 0;
    }

    method Init(count: int) returns (status: int)
      modifies this
      ensures count < 1 ==> status == -4 && unchanged(this)
      ensures count >= 1 ==> status == 0 && Valid() && maxThreads == count && View() == Fields(0, 0)
    {
      if count < 1 {
        return -4;
      }
      waitingThreads := 0;
      maxThreads := count;
      generation := 0;
      return 0;
    }

    /** First section of a wait. */
    method WaitEnter() returns (outcome: Outcome)
      requires Valid()
      modifies this`waitingThreads, this`generation
      ensures Valid()
      ensures (View(), outcome) == Enter(INT_PATTERNS, old(View()), maxThreads)
    {
      var captured := generation;
      waitingThreads := waitingThreads + 1;
      if waitingThreads < maxThreads {
        if captured == generation && waitingThreads < maxThreads {
          return Sleep(captured);
        }
      } else {
        waitingThreads := 0;
        generation := (generation + 1) % INT_PATTERNS;
        return Return(SERIAL);
      }
      return Return(0);
    }

    /** What a woken waiter does before it sleeps again or returns. */
    method WaitWoken(captured: int) returns (outcome: Outcome)
      requires Valid()
      ensures outcome == Recheck(View(), captured, maxThreads)
    {
      if captured == generation && waitingThreads < maxThreads {
        return Sleep(captured);
      }
      return Return(0);
    }

    method Destroy() returns (status: int)
      requires Valid()
      ensures status == if waitingThreads > 0 then -2 else 0
    {
      if waitingThreads > 0 {
        return -2;
      }
      return 0;
    }
  }

  // ---------------------------------------------------------------- the step system

  datatype Place = Outside | Asleep(captured: int) | Awake(captured: int)

  /** `entered` and `results` record how often the thread called and what it got back. */
  datatype Thread = Thread(place: Place, entered: nat, results: seq<int>)

  /** `leaders[k]` records who completed generation k. */
  datatype State = State(max: int, fields: Fields, threads: seq<Thread>, leaders: seq<nat>)

  datatype Action = Call(t: nat) | Wake(t: nat) | Retry(t: nat)

  function Init(n: nat): State {
    State(n, Fields(0, 0), seq(n, _ => Thread(Outside, 0, [])), [])
  }

  predicate Enabled(s: State, a: Action) {
    a.t < |s.threads| &&
    match a
    case Call(t) => s.threads[t].place.Outside?
    case Wake(t) => s.threads[t].place.Asleep?
    case Retry(t) => s.threads[t].place.Awake?
  }

  function Woken(th: Thread): Thread {
    if th.place.Asleep? then th.(place := Awake(th.place.captured)) else th
  }

  function Broadcast(ts: seq<Thread>): (r: seq<Thread>)
    ensures |r| == |ts| && forall i :: 0 <= i < |ts| ==> r[i] == Woken(ts[i])
  {
    seq(|ts|, i requires 0 <= i < |ts| => Woken(ts[i]))
  }

  function Settle(th: Thread, o: Outcome): Thread {
    match o
    case Sleep(c) => th.(place := Asleep(c))
    case Return(v) => th.(place := Outside, results := th.results + [v])
  }

  /** One step; `m` says where the generation counter wraps (0: never). */
  function Step(m: nat, s: State, a: Action): State
    requires Enabled(s, a)
  {
    var th := s.threads[a.t];
    match a
    case Call(t) =>
      var (f, o) := Enter(m, s.fields, s.max);
      var mine := Settle(th.(entered := th.entered + 1), o);
      if o.Return? then
        State(s.max, f, Broadcast(s.threads)[t := mine], s.leaders + [t])
      else
        State(s.max, f, s.threads[t := mine], s.leaders)
    case Wake(t) =>
      s.(threads := s.threads[t := Woken(th)])
    case Retry(t) =>
      s.(threads := s.threads[t := Settle(th, Recheck(s.fields, th.place.captured, s.max))])
  }

  predicate Legal(m: nat, s: State, actions: seq<Action>)
    decreases |actions|
  {
    actions == [] || (Enabled(s, actions[0]) && Legal(m, Step(m, s, actions[0]), actions[1..]))
  }

  function Run(m: nat, s: State, actions: seq<Action>): State
    requires Legal(m, s, actions)
    decreases |actions|
  {
    if actions == [] then s else Run(m, Step(m, s, actions[0]), actions[1..])
  }

  // ---------------------------------------------------------------- the invariant

  /** 1 for a thread that has entered the generation in progress. */
  function Arrived(ts: seq<Thread>, g: int): (r: seq<int>)
    ensures |r| == |ts|
  {
    seq(|ts|, i requires 0 <= i < |ts| => if ts[i].entered == g + 1 then 1 else 0)
  }

  ghost predicate ThreadOk(th: Thread, g: int) {
    th.entered == |th.results| + (if th.place.Outside? then 0 else 1) &&
    match th.place
    case Outside => th.entered == g
    case Asleep(c) => c == g && th.entered == g + 1
    case Awake(c) => c == th.entered - 1 && g <= th.entered <= g + 1
  }

  /** The thread that completed generation k, and nobody else, got the serial value from it. */
  ghost predicate ResultOk(s: State, t: nat, k: nat)
    requires t < |s.threads| && k < |s.threads[t].results|
  {
    k < |s.leaders| && s.threads[t].results[k] == if s.leaders[k] == t then SERIAL else 0
  }

  ghost predicate ResultsOk(s: State) {
    (forall k :: 0 <= k < |s.leaders| ==>
        s.leaders[k] < |s.threads| && k < |s.threads[s.leaders[k]].results|) &&
    forall t: nat, k: nat :: t < |s.threads| && k < |s.threads[t].results| ==> ResultOk(s, t, k)
  }

  ghost predicate Inv(s: State) {
    var g := s.fields.generation;
    && s.max == |s.threads| && s.max >= 1
    && g == |s.leaders|
    && 0 <= s.fields.waiting < s.max
    && s.fields.waiting == Sum(Arrived(s.threads, g))
    && (forall t :: 0 <= t < |s.threads| ==> ThreadOk(s.threads[t], g))
    && ResultsOk(s)
  }

  lemma InitInv(n: nat)
    requires n >= 1
    ensures Inv(Init(n))
  {
    SumBounds(Arrived(Init(n).threads, 0), 0, 0);
  }

  /** A first arrival of a thread in this generation raises the count by one. */
  lemma ArrivedUpdate(ts: seq<Thread>, g: int, t: nat, th: Thread)
    requires t < |ts|
    ensures Sum(Arrived(ts[t := th], g)) ==
            Sum(Arrived(ts, g)) - Arrived(ts, g)[t] + (if th.entered == g + 1 then 1 else 0)
  {
    var x := if th.entered == g + 1 then 1 else 0;
    SumUpdate(Arrived(ts, g), t, x);
    assert Arrived(ts[t := th], g) == Arrived(ts, g)[t := x];
  }

  /** The last arrival finds every other thread in the barrier. */
  lemma LastArrival(ts: seq<Thread>, g: int, t: nat)
    requires t < |ts| && ts[t].entered == g && Sum(Arrived(ts, g)) == |ts| - 1
    ensures forall u :: 0 <= u < |ts| && u != t ==> ts[u].entered == g + 1
  {
    var full := Arrived(ts, g)[t := 1];
    SumUpdate(Arrived(ts, g), t, 1);
    SumAtMost(full, 1);
    forall u | 0 <= u < |ts| && u != t ensures ts[u].entered == g + 1 {
      assert full[u] == 1;
    }
  }

  /** One thread's record grows by at most one correct entry; the leaders only grow. */
  lemma ResultsGrow(s: State, s': State, t: nat)
    requires ResultsOk(s) && t < |s.threads| == |s'.threads|
    requires s.leaders <= s'.leaders
    requires forall k :: |s.leaders| <= k < |s'.leaders| ==> s'.leaders[k] == t && k < |s'.threads[t].results|
    requires s.threads[t].results <= s'.threads[t].results
    requires forall k: nat :: |s.threads[t].results| <= k < |s'.threads[t].results| ==> ResultOk(s', t, k)
    requires forall u :: 0 <= u < |s.threads| && u != t ==> s'.threads[u].results == s.threads[u].results
    ensures ResultsOk(s')
  {
    forall u: nat, k: nat | u < |s'.threads| && k < |s'.threads[u].results| ensures ResultOk(s', u, k) {
      if k < |s.threads[u].results| {
        assert ResultOk(s, u, k);
      }
    }
  }

  lemma WaitingCallInv(s: State, t: nat)
    requires Inv(s) && Enabled(s, Call(t)) && s.fields.waiting + 1 < s.max
    ensures Inv(Step(0, s, Call(t)))
  {
    var s' := Step(0, s, Call(t));
    ArrivedUpdate(s.threads, s.fields.generation, t, s'.threads[t]);
    ResultsGrow(s, s', t);
  }

  lemma LastCallInv(s: State, t: nat)
    requires Inv(s) && Enabled(s, Call(t)) && s.fields.waiting + 1 >= s.max
    ensures Inv(Step(0, s, Call(t)))
  {
    var s' := Step(0, s, Call(t));
    var g := s.fields.generation;
    LastArrival(s.threads, g, t);
    assert s'.threads[t] == Thread(Outside, g + 1, s.threads[t].results + [SERIAL]);
    forall u | 0 <= u < |s.threads| && u != t
      ensures s'.threads[u] == Woken(s.threads[u]) && s'.threads[u].entered == g + 1
    {
    }
    SumBounds(Arrived(s'.threads, g + 1), 0, 0);
    ResultsGrow(s, s', t);
  }

  lemma StepInv(s: State, a: Action)
    requires Inv(s) && Enabled(s, a)
    ensures Inv(Step(0, s, a))
  {
    var s' := Step(0, s, a);
    var g := s.fields.generation;
    match a
    case Call(t) => if s.fields.waiting + 1 < s.max { WaitingCallInv(s, t); } else { LastCallInv(s, t); }
    case Wake(t) =>
      ArrivedUpdate(s.threads, g, t, s'.threads[t]);
      ResultsGrow(s, s', t);
    case Retry(t) =>
      ArrivedUpdate(s.threads, g, t, s'.threads[t]);
      ResultsGrow(s, s', t);
  }

  lemma {:induction false} RunInv(s: State, actions: seq<Action>)
    requires Inv(s) && Legal(0, s, actions)
    ensures Inv(Run(0, s, actions))
    decreases |actions|
  {
    if actions == [] {
    } else {
      StepInv(s, actions[0]);
      RunInv(Step(0, s, actions[0]), actions[1..]);
    }
  }

  // ---------------------------------------------------------------- a wrapping counter

  function WrapPlace(m: nat, p: Place): Place
    requires m > 0
  {
    match p
    case Outside => Outside
    case Asleep(c) => Asleep(c % m)
    case Awake(c) => Awake(c % m)
  }

  function WrapThreads(m: nat, ts: seq<Thread>): (r: seq<Thread>)
    requires m > 0
    ensures |r| == |ts|
    ensures forall i :: 0 <= i < |ts| ==> r[i] == ts[i].(place := WrapPlace(m, ts[i].place))
  {
    seq(|ts|, i requires 0 <= i < |ts| => ts[i].(place := WrapPlace(m, ts[i].place)))
  }

  /** The same state seen through a counter that wraps after m values. */
  function Wrap(m: nat, s: State): State
    requires m > 0
  {
    State(s.max, Fields(s.fields.waiting, s.fields.generation % m), WrapThreads(m, s.threads), s.leaders)
  }

  lemma {:induction false} AddMod(m: nat, g: int)
    requires m >= 2
    ensures (g % m + 1) % m == (g + 1) % m
    ensures g % m != (g + 1) % m
  {
    var q, r := Divide(g, m);
    if r + 1 < m {
      DivModUnique(g + 1, m, q, r + 1);
      DivModUnique(r + 1, m, 0, r + 1);
    } else {
      assert (q + 1) * m == q * m + m;
      DivModUnique(g + 1, m, q + 1, 0);
      DivModUnique(r + 1, m, 1, 0);
    }
  }

  /** A captured generation is current or one old, so a wrapped comparison decides the same. */
  lemma WrappedComparison(m: nat, s: State, t: nat)
    requires m >= 2 && Inv(s) && t < |s.threads| && s.threads[t].place.Awake?
    ensures var c := s.threads[t].place.captured;
            var g := s.fields.generation;
            (c == g || c == g - 1) && (c % m == g % m <==> c == g)
  {
    AddMod(m, s.fields.generation - 1);
  }

  lemma StepWraps(m: nat, s: State, a: Action)
    requires m >= 2 && Inv(s)
    ensures Enabled(Wrap(m, s), a) <==> Enabled(s, a)
    ensures Enabled(s, a) ==> Step(m, Wrap(m, s), a) == Wrap(m, Step(0, s, a))
  {
    if Enabled(s, a) {
      var w := Step(m, Wrap(m, s), a);
      var s' := Wrap(m, Step(0, s, a));
      AddMod(m, s.fields.generation);
      if a.Retry? { WrappedComparison(m, s, a.t); }
      assert w.threads == s'.threads;
    }
  }

  /** Every run with a wrapping counter is the image of the run with an unbounded one. */
  lemma {:induction false} RunWraps(m: nat, s: State, actions: seq<Action>)
    requires m >= 2 && Inv(s)
    ensures Legal(m, Wrap(m, s), actions) <==> Legal(0, s, actions)
    ensures Legal(0, s, actions) ==> Run(m, Wrap(m, s), actions) == Wrap(m, Run(0, s, actions))
    decreases |actions|
  {
    if actions == [] {
    } else {
      StepWraps(m, s, actions[0]);
      if Enabled(s, actions[0]) {
        StepInv(s, actions[0]);
        RunWraps(m, Step(0, s, actions[0]), actions[1..]);
      }
    }
  }

  // ---------------------------------------------------------------- main theorems

  /** The thread has returned from its wait number k (counted from 0). */
  predicate Returned(th: Thread, k: nat) {
    k < |th.results|
  }

  /** Nobody has returned from wait number k while somebody has not yet entered it. */
  ghost predicate NoEarlyReturn(s: State) {
    forall t, u, k: nat :: 0 <= t < |s.threads| && 0 <= u < |s.threads| && Returned(s.threads[t], k) ==>
      k < s.threads[u].entered
  }

  /** Wait number k gave the serial value to thread l and 0 to all others that have returned from it. */
  ghost predicate ServedBy(s: State, k: nat, l: nat) {
    l < |s.threads| && Returned(s.threads[l], k) &&
    forall t :: 0 <= t < |s.threads| && Returned(s.threads[t], k) ==>
      s.threads[t].results[k] == if t == l then SERIAL else 0
  }

  /** As soon as anybody has returned from wait number k, exactly one thread holds its serial value. */
  ghost predicate OneSerial(s: State) {
    forall t, k: nat :: 0 <= t < |s.threads| && Returned(s.threads[t], k) ==> exists l :: ServedBy(s, k, l)
  }

  ghost predicate Meets(s: State) {
    NoEarlyReturn(s) && OneSerial(s) && 0 <= s.fields.waiting < s.max
  }

  lemma InvMeets(s: State)
    requires Inv(s)
    ensures Meets(s)
  {
    forall t, k: nat | 0 <= t < |s.threads| && Returned(s.threads[t], k) ensures exists l :: ServedBy(s, k, l) {
      assert ResultOk(s, t, k);
      forall u | 0 <= u < |s.threads| && Returned(s.threads[u], k)
        ensures s.threads[u].results[k] == if u == s.leaders[k] then SERIAL else 0
      {
        assert ResultOk(s, u, k);
      }
      assert ServedBy(s, k, s.leaders[k]);
    }
  }

  /** The barrier keeps its promise in every run, whether or not the counter wraps. */
  lemma {:induction false} BarrierSafety(n: nat, m: nat, actions: seq<Action>)
    requires n >= 1 && m != 1 && Legal(m, Init(n), actions)
    ensures Meets(Run(m, Init(n), actions))
  {
    InitInv(n);
    if m == 0 {
      RunInv(Init(n), actions);
      InvMeets(Run(0, Init(n), actions));
    } else {
      assert Wrap(m, Init(n)) == Init(n);
      RunWraps(m, Init(n), actions);
      RunInv(Init(n), actions);
      InvMeets(Run(0, Init(n), actions));
      WrapMeets(m, Run(0, Init(n), actions));
    }
  }

  lemma WrapMeets(m: nat, s: State)
    requires m >= 2 && Meets(s)
    ensures Meets(Wrap(m, s))
  {
    var w := Wrap(m, s);
    forall t, k: nat | 0 <= t < |w.threads| && Returned(w.threads[t], k) ensures exists l :: ServedBy(w, k, l) {
      assert Returned(s.threads[t], k);
      var l :| ServedBy(s, k, l);
      assert forall u :: 0 <= u < |w.threads| ==> w.threads[u].results == s.threads[u].results;
      assert ServedBy(w, k, l);
    }
    forall t, u, k: nat | 0 <= t < |w.threads| && 0 <= u < |w.threads| && Returned(w.threads[t], k)
      ensures k < w.threads[u].entered
    {
      assert Returned(s.threads[t], k);
    }
  }

  /** A thread that is outside, or awake with an old generation, leaves its place at its next step. */
  predicate CanMove(s: State, t: nat) {
    t < |s.threads| &&
    (s.threads[t].place.Outside? ||
     (s.threads[t].place.Awake? && !MustWait(s.fields, s.threads[t].place.captured, s.max)))
  }

  /**
   Whoever sleeps does so for the generation in progress, everyone held by an older
   generation is awake and free to go, and somebody can move.
   */
  ghost predicate NobodyMissed(s: State) {
    (forall t: nat :: t < |s.threads| && s.threads[t].place.Asleep? ==>
      MustWait(s.fields, s.threads[t].place.captured, s.max)) &&
    (forall t: nat :: t < |s.threads| && s.threads[t].entered == |s.leaders| ==> CanMove(s, t)) &&
    exists t: nat :: CanMove(s, t)
  }

  /** No lost wake-up. */
  lemma NoLostWakeup(s: State)
    requires Inv(s)
    ensures NobodyMissed(s)
  {
    if forall t :: 0 <= t < |s.threads| ==> s.threads[t].entered == s.fields.generation + 1 {
      SumBounds(Arrived(s.threads, s.fields.generation), 1, 1);
      assert false;
    }
    var t: nat :| t < |s.threads| && s.threads[t].entered != s.fields.generation + 1;
    assert CanMove(s, t);
  }

  lemma WrapCanMove(m: nat, s: State, t: nat)
    requires m >= 2 && Inv(s)
    ensures CanMove(Wrap(m, s), t) <==> CanMove(s, t)
  {
    if t < |s.threads| && s.threads[t].place.Awake? { WrappedComparison(m, s, t); }
  }

  /** No lost wake-up in any run, whether or not the counter wraps. */
  lemma {:induction false} NoLostWakeupRun(n: nat, m: nat, actions: seq<Action>)
    requires n >= 1 && m != 1 && Legal(m, Init(n), actions)
    ensures NobodyMissed(Run(m, Init(n), actions))
  {
    InitInv(n);
    if m == 0 {
      RunInv(Init(n), actions);
      NoLostWakeup(Run(0, Init(n), actions));
    } else {
      assert Wrap(m, Init(n)) == Init(n);
      RunWraps(m, Init(n), actions);
      RunInv(Init(n), actions);
      var s := Run(0, Init(n), actions);
      NoLostWakeup(s);
      forall t: nat ensures CanMove(Wrap(m, s), t) <==> CanMove(s, t) {
        WrapCanMove(m, s, t);
      }
      var t: nat :| CanMove(s, t);
      assert CanMove(Wrap(m, s), t);
    }
  }

  // ---------------------------------------------------------------- the calls of a run

  /** Who has called, cut into rounds of n calls, and the round that is open. */
  datatype Calls = Calls(rounds: seq<seq<nat>>, current: seq<nat>)

  function Called(n: nat, c: Calls, t: nat): Calls {
    if |c.current| + 1 < n then Calls(c.rounds, c.current + [t])
    else Calls(c.rounds + [c.current + [t]], [])
  }

  /** The calls among these actions. */
  function CallsIn(n: nat, actions: seq<Action>): Calls
    decreases |actions|
  {
    if actions == [] then Calls([], [])
    else
      var before, a := CallsIn(n, actions[..|actions| - 1]), actions[|actions| - 1];
      if a.Call? then Called(n, before, a.t) else before
  }

  predicate Distinct(callers: seq<nat>) {
    forall i, j :: 0 <= i < j < |callers| ==> callers[i] != callers[j]
  }

  /** A round of one call by each of n threads, the leader calling last. */
  predicate LedBy(n: nat, round: seq<nat>, leader: nat) {
    n >= 1 && |round| == n && Distinct(round) && round[n - 1] == leader
  }

  ghost predicate CallsOk(s: State, c: Calls) {
    && |c.rounds| == s.fields.generation == |s.leaders| && |c.current| == s.fields.waiting
    && Distinct(c.current)
    && (forall k :: 0 <= k < |c.rounds| ==> LedBy(|s.threads|, c.rounds[k], s.leaders[k]))
    && forall t: nat :: t < |s.threads| ==> s.threads[t].entered == |c.rounds| + if t in c.current then 1 else 0
  }

  lemma WaitingCall(s: State, c: Calls, t: nat)
    requires Inv(s) && CallsOk(s, c) && Enabled(s, Call(t)) && s.fields.waiting + 1 < s.max
    ensures CallsOk(Step(0, s, Call(t)), Called(|s.threads|, c, t))
  {
    assert t !in c.current;
  }

  lemma LastCall(s: State, c: Calls, t: nat)
    requires Inv(s) && CallsOk(s, c) && Enabled(s, Call(t)) && s.fields.waiting + 1 >= s.max
    ensures CallsOk(Step(0, s, Call(t)), Called(|s.threads|, c, t))
  {
    assert t !in c.current;
    LastArrival(s.threads, s.fields.generation, t);
  }

  lemma StepCalls(s: State, c: Calls, a: Action)
    requires Inv(s) && CallsOk(s, c) && Enabled(s, a)
    ensures CallsOk(Step(0, s, a), if a.Call? then Called(|s.threads|, c, a.t) else c)
  {
    if a.Call? {
      if s.fields.waiting + 1 < s.max { WaitingCall(s, c, a.t); } else { LastCall(s, c, a.t); }
    }
  }

  lemma {:induction false} RunSnoc(m: nat, s: State, actions: seq<Action>, a: Action)
    requires Legal(m, s, actions + [a])
    ensures Legal(m, s, actions) && Enabled(Run(m, s, actions), a)
    ensures Run(m, s, actions + [a]) == Step(m, Run(m, s, actions), a)
    decreases |actions|
  {
    if actions == [] {
    } else {
      assert (actions + [a])[1..] == actions[1..] + [a];
      RunSnoc(m, Step(m, s, actions[0]), actions[1..], a);
    }
  }

  lemma {:induction false} RunCalls(n: nat, actions: seq<Action>)
    requires n >= 1 && Legal(0, Init(n), actions)
    ensures var s := Run(0, Init(n), actions);
            |s.threads| == n && CallsOk(s, CallsIn(n, actions))
    decreases |actions|
  {
    if actions == [] {
    } else {
      var before, a := actions[..|actions| - 1], actions[|actions| - 1];
      assert before + [a] == actions;
      RunSnoc(0, Init(n), before, a);
      RunCalls(n, before);
      InitInv(n);
      RunInv(Init(n), before);
      StepCalls(Run(0, Init(n), before), CallsIn(n, before), a);
    }
  }

  /** What thread t has got back from its wait number k. */
  predicate GotBack(s: State, t: nat, k: nat, value: int) {
    t < |s.threads| && k < |s.threads[t].results| && s.threads[t].results[k] == value
  }

  /** Round k of the calls is complete, and its last caller gets the serial value, the others 0. */
  predicate Due(n: nat, c: Calls, t: nat, k: nat, value: int) {
    n >= 1 && k < |c.rounds| && |c.rounds[k]| == n && Distinct(c.rounds[k]) &&
    value == if c.rounds[k][n - 1] == t then SERIAL else 0
  }

  /**
   In every run, whether or not the counter wraps: when a wait number k has returned, round k of the
   calls is complete, with n different threads in it, and the wait has returned the serial value to the
   last caller of that round and 0 to the others.
   */
  lemma {:induction false} SerialIsLastCaller(n: nat, m: nat, actions: seq<Action>)
    requires n >= 1 && m != 1 && Legal(m, Init(n), actions)
    ensures forall t: nat, k: nat, v :: GotBack(Run(m, Init(n), actions), t, k, v) ==>
              Due(n, CallsIn(n, actions), t, k, v)
  {
    InitInv(n);
    if m > 0 {
      assert Wrap(m, Init(n)) == Init(n);
      RunWraps(m, Init(n), actions);
    }
    RunInv(Init(n), actions);
    RunCalls(n, actions);
    var s, c := Run(0, Init(n), actions), CallsIn(n, actions);
    forall t: nat, k: nat, v | GotBack(Run(m, Init(n), actions), t, k, v) ensures Due(n, c, t, k, v) {
      assert ResultOk(s, t, k);
      assert LedBy(n, c.rounds[k], s.leaders[k]);
    }
  }

  /** A sleeper that is woken for nothing tests again and sleeps on: the state is as before. */
  lemma SpuriousWakeup(m: nat, s: State, t: nat)
    requires Inv(s) && t < |s.threads| && s.threads[t].place.Asleep?
    ensures Legal(m, s, [Wake(t), Retry(t)]) && Run(m, s, [Wake(t), Retry(t)]) == s
  {
    var s' := Step(m, s, Wake(t));
    assert Step(m, s', Retry(t)).threads == s.threads;
    assert [Wake(t), Retry(t)][1..] == [Retry(t)];
    assert Legal(m, s', [Retry(t)]) && Run(m, s', [Retry(t)]) == s;
  }
}
