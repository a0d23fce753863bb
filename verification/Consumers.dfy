/**
 One producer and c consumers around a locked queue with a condition variable: the locked
 sections as methods, and the step system over every interleaving, every choice of whom a
 signal wakes, and every spurious wake-up. The variant that spins instead of sleeping is
 shown to be a special case.
 */
module Consumers {
  import opened Sums

  const INT_MAX := 0x7FFF_FFFF
  const MODULUS := 0x1_0000_0000

  /** The value of a C `int` after wrap-around. */
  function Wrap(x: int): int {
    var r := x % MODULUS;
    if r > INT_MAX then r - MODULUS else r
  }

  /** The i-th value pushed, counted from 0: 1, -2, 3, ... up to n values, then sentinels. */
  function Item(n: nat, i: nat): int {
    if i >= n then INT_MAX else if (i + 1) % 2 != 0 then i + 1 else -(i + 1)
  }

  datatype Place = AtLock | Asleep | Holding(value: int) | Finished

  datatype Consumer = Consumer(place: Place, sum: int)

  /** Locked section of a consumer that is awake: sleep on an empty queue, else pop. */
  function Take(queue: seq<int>): (seq<int>, Place) {
    if queue == [] then (queue, Asleep) else (queue[1..], Holding(queue[0]))
  }

  /** What a consumer does with the value it popped. */
  function Use(c: Consumer, value: int): Consumer {
    if value == INT_MAX then c.(place := Finished) else Consumer(AtLock, Wrap(c.sum + value))
  }

  /** The queue behind `queue_mutex`, used in its locked sections. */
  class SharedQueue {
    var queue: seq<int>

    constructor ()
      ensures queue == []
    {
      queue := [];
    }

    /** Locked section of the producer: round k of its two loops, counted through. */
    method Produce(n: nat, k: nat)
      modifies this
      ensures queue == old(queue) + [Item(n, k)]
    {
      if k < n {
        var i := k + 1;
        queue := queue + [if i % 2 != 0 then i else -i];
      } else {
        queue := queue + [INT_MAX];
      }
    }

    method TakeOrSleep() returns (place: Place)
      modifies this
      ensures (queue, place) == Take(old(queue))
    {
      if |queue| == 0 {
        return Asleep;
      }
      var value := queue[0];
      queue := queue[1..];
      return Holding(value);
    }
  }

  /** `consumer_t`, changed by its own thread outside the lock. */
  class ConsumerObject {
    var sum: int

    constructor ()
      ensures sum == 0
    {
      sum := 0;
    }

    method Handle(value: int) returns (place: Place)
      modifies this
      ensures Consumer(place, sum) == Use(Consumer(Holding(value), old(sum)), value)
    {
      if value == INT_MAX {
        return Finished;
      }
      sum := Wrap(sum + value);
      return AtLock;
    }
  }

  /** The join loop of main: the consumers' sums, added up in C `int` arithmetic. */
  method JoinAll(sums: array<int>) returns (finalSum: int)
    ensures finalSum == Wrap(Sum(sums[..]))
  {
    finalSum := 0;
    for i := 0 to sums.Length
      invariant finalSum == Wrap(Sum(sums[..i]))
    {
      finalSum := Wrap(finalSum + sums[i]);
      assert sums[..i + 1] == sums[..i] + [sums[i]];
      SumConcat(sums[..i], [sums[i]]);
      assert Sum([sums[i]]) == sums[i];
    }
    assert sums[..sums.Length] == sums[..];
  }

  // ---------------------------------------------------------------- the step system

  /** `popped` counts the values taken from the queue so far. */
  datatype State = State(n: nat, pushed: nat, queue: seq<int>, popped: nat, consumers: seq<Consumer>)

  /** `Push` carries the sleepers that its signal wakes. */
  datatype Action = Push(woken: set<nat>) | Lock(t: nat) | Spurious(t: nat) | Handle(t: nat)

  function Init(n: nat, c: nat): State {
    State(n, 0, [], 0, seq(c, _ => Consumer(AtLock, 0)))
  }

  predicate IsAsleep(s: State, t: nat) {
    t < |s.consumers| && s.consumers[t].place.Asleep?
  }

  ghost predicate Enabled(s: State, a: Action) {
    match a
    case Push(woken) =>
      s.pushed < s.n + |s.consumers| &&
      (forall t :: t in woken ==> IsAsleep(s, t)) &&
      ((exists t :: IsAsleep(s, t)) ==> woken != {})
    case Lock(t) => t < |s.consumers| && s.consumers[t].place.AtLock?
    case Spurious(t) => IsAsleep(s, t)
    case Handle(t) => t < |s.consumers| && s.consumers[t].place.Holding?
  }

  function Signal(cs: seq<Consumer>, woken: set<nat>): (r: seq<Consumer>)
    ensures |r| == |cs|
    ensures forall t :: 0 <= t < |cs| ==> r[t] == if t in woken then cs[t].(place := AtLock) else cs[t]
  {
    seq(|cs|, t requires 0 <= t < |cs| => if t in woken then cs[t].(place := AtLock) else cs[t])
  }

  ghost function Step(s: State, a: Action): State
    requires Enabled(s, a)
  {
    match a
    case Push(woken) =>
      s.(pushed := s.pushed + 1, queue := s.queue + [Item(s.n, s.pushed)], consumers := Signal(s.consumers, woken))
    case Lock(t) =>
      var (q, p) := Take(s.queue);
      s.(queue := q, popped := s.popped + |s.queue| - |q|, consumers := s.consumers[t := s.consumers[t].(place := p)])
    case Spurious(t) =>
      s.(consumers := s.consumers[t := s.consumers[t].(place := AtLock)])
    case Handle(t) =>
      s.(consumers := s.consumers[t := Use(s.consumers[t], s.consumers[t].place.value)])
  }

  ghost predicate Legal(s: State, actions: seq<Action>)
    decreases |actions|
  {
    actions == [] || (Enabled(s, actions[0]) && Legal(Step(s, actions[0]), actions[1..]))
  }

  ghost function Run(s: State, actions: seq<Action>): State
    requires Legal(s, actions)
    decreases |actions|
  {
    if actions == [] then s else Run(Step(s, actions[0]), actions[1..])
  }

  // ---------------------------------------------------------------- the invariant

  predicate Cong(a: int, b: int) {
    (a - b) % MODULUS == 0
  }

  /** What a consumer has added up, plus the data it holds but has not added yet. */
  function Share(c: Consumer): int {
    c.sum + if c.place.Holding? && c.place.value != INT_MAX then c.place.value else 0
  }

  /** 1 for a consumer that has taken its sentinel. */
  function HasSentinel(c: Consumer): int {
    if c.place.Finished? || c.place == Holding(INT_MAX) then 1 else 0
  }

  /** 1 for a consumer that is awake and has not taken its sentinel. */
  function IsAwake(c: Consumer): int {
    if c.place.Asleep? || HasSentinel(c) == 1 then 0 else 1
  }

  function IsHolding(c: Consumer): int {
    if c.place.Holding? then 1 else 0
  }

  /** Sum of the first k data values. */
  function DataSum(n: nat, k: nat): int
    requires k <= n
  {
    if k == 0 then 0 else DataSum(n, k - 1) + Item(n, k - 1)
  }

  function DataPopped(s: State): (k: nat)
    ensures k <= s.n
  {
    if s.popped < s.n then s.popped else s.n
  }

  ghost predicate QueueOk(s: State) {
    s.popped + |s.queue| == s.pushed &&
    forall k :: 0 <= k < |s.queue| ==> s.queue[k] == Item(s.n, s.popped + k)
  }

  ghost predicate Inv(s: State) {
    && 0 < s.n < INT_MAX && |s.consumers| >= 1
    && s.pushed <= s.n + |s.consumers|
    && QueueOk(s)
    && Total(s.consumers, HasSentinel) == s.popped - DataPopped(s)
    && Cong(Total(s.consumers, Share), DataSum(s.n, DataPopped(s)))
    && (forall t :: IsAsleep(s, t) ==> |s.queue| <= Total(s.consumers, IsAwake))
  }

  lemma InitInv(n: nat, c: nat)
    requires 0 < n < INT_MAX && c >= 1
    ensures Inv(Init(n, c))
  {
    var cs := Init(n, c).consumers;
    TotalBounds(cs, HasSentinel, 0, 0);
    TotalBounds(cs, Share, 0, 0);
  }

  /** A signal moves no data. */
  lemma SignalKeeps(cs: seq<Consumer>, woken: set<nat>)
    requires forall t :: t in woken ==> t < |cs| && cs[t].place.Asleep?
    ensures Total(Signal(cs, woken), HasSentinel) == Total(cs, HasSentinel)
    ensures Total(Signal(cs, woken), Share) == Total(cs, Share)
    ensures Total(Signal(cs, woken), IsHolding) == Total(cs, IsHolding)
  {
    assert Map(Signal(cs, woken), HasSentinel) == Map(cs, HasSentinel);
    assert Map(Signal(cs, woken), Share) == Map(cs, Share);
    assert Map(Signal(cs, woken), IsHolding) == Map(cs, IsHolding);
  }

  /** A signal that wakes anybody raises the number of consumers that are awake. */
  lemma {:induction false} SignalWakes(cs: seq<Consumer>, woken: set<nat>)
    requires forall t :: t in woken ==> t < |cs| && cs[t].place.Asleep?
    ensures Total(Signal(cs, woken), IsAwake) >= Total(cs, IsAwake) + if woken == {} then 0 else 1
    decreases woken
  {
    if woken == {} {
      assert Signal(cs, woken) == cs;
    } else {
      var t :| t in woken;
      var c := cs[t].(place := AtLock);
      SignalWakes(cs[t := c], woken - {t});
      assert Signal(cs[t := c], woken - {t}) == Signal(cs, woken);
      TotalUpdate(cs, IsAwake, t, c);
    }
  }

  lemma WrapCong(x: int)
    ensures Cong(Wrap(x), x) && -INT_MAX - 1 <= Wrap(x) <= INT_MAX
  {
  }

  lemma CongShift(a: int, b: int, a': int, b': int)
    requires Cong(a, b) && Cong(a' - a, b' - b)
    ensures Cong(a', b')
  {
  }

  lemma PushQueue(s: State, woken: set<nat>)
    requires QueueOk(s) && Enabled(s, Push(woken))
    ensures QueueOk(Step(s, Push(woken)))
  {
  }

  lemma PushWakes(s: State, woken: set<nat>, t: nat)
    requires Inv(s) && Enabled(s, Push(woken)) && IsAsleep(Step(s, Push(woken)), t)
    ensures |s.queue| + 1 <= Total(Signal(s.consumers, woken), IsAwake)
  {
    assert IsAsleep(s, t);
    SignalWakes(s.consumers, woken);
  }

  lemma PushInv(s: State, woken: set<nat>)
    requires Inv(s) && Enabled(s, Push(woken))
    ensures Inv(Step(s, Push(woken)))
  {
    SignalKeeps(s.consumers, woken);
    PushQueue(s, woken);
    var s' := Step(s, Push(woken));
    forall t | IsAsleep(s', t) ensures |s'.queue| <= Total(s'.consumers, IsAwake) {
      PushWakes(s, woken, t);
    }
  }

  lemma LockInv(s: State, t: nat)
    requires Inv(s) && Enabled(s, Lock(t))
    ensures Inv(Step(s, Lock(t)))
  {
    var s' := Step(s, Lock(t));
    TotalUpdate(s.consumers, HasSentinel, t, s'.consumers[t]);
    TotalUpdate(s.consumers, Share, t, s'.consumers[t]);
    TotalUpdate(s.consumers, IsAwake, t, s'.consumers[t]);
    if s.queue == [] {
      TotalBounds(s'.consumers, IsAwake, 0, 1);
    } else {
      assert s.queue[0] == Item(s.n, s.popped);
      assert forall k :: 0 <= k < |s'.queue| ==> s'.queue[k] == s.queue[k + 1];
      forall u | IsAsleep(s', u) ensures |s'.queue| <= Total(s'.consumers, IsAwake) {
        assert IsAsleep(s, u);
      }
      CongShift(Total(s.consumers, Share), DataSum(s.n, DataPopped(s)),
                Total(s'.consumers, Share), DataSum(s.n, DataPopped(s')));
    }
  }

  lemma HandleInv(s: State, t: nat)
    requires Inv(s) && Enabled(s, Handle(t))
    ensures Inv(Step(s, Handle(t)))
  {
    var s' := Step(s, Handle(t));
    TotalUpdate(s.consumers, HasSentinel, t, s'.consumers[t]);
    TotalUpdate(s.consumers, Share, t, s'.consumers[t]);
    TotalUpdate(s.consumers, IsAwake, t, s'.consumers[t]);
    WrapCong(s.consumers[t].sum + s.consumers[t].place.value);
    CongShift(Total(s.consumers, Share), DataSum(s.n, DataPopped(s)),
              Total(s'.consumers, Share), DataSum(s.n, DataPopped(s)));
    forall u | IsAsleep(s', u) ensures |s'.queue| <= Total(s'.consumers, IsAwake) {
      assert IsAsleep(s, u);
    }
  }

  lemma SpuriousInv(s: State, t: nat)
    requires Inv(s) && Enabled(s, Spurious(t))
    ensures Inv(Step(s, Spurious(t)))
  {
    var s' := Step(s, Spurious(t));
    TotalUpdate(s.consumers, HasSentinel, t, s'.consumers[t]);
    TotalUpdate(s.consumers, Share, t, s'.consumers[t]);
    TotalUpdate(s.consumers, IsAwake, t, s'.consumers[t]);
    forall u | IsAsleep(s', u) ensures |s'.queue| <= Total(s'.consumers, IsAwake) {
      assert IsAsleep(s, u);
    }
  }

  lemma StepInv(s: State, a: Action)
    requires Inv(s) && Enabled(s, a)
    ensures Inv(Step(s, a))
  {
    match a
    case Push(woken) => PushInv(s, woken);
    case Lock(t) => LockInv(s, t);
    case Spurious(t) => SpuriousInv(s, t);
    case Handle(t) => HandleInv(s, t);
  }

  lemma {:induction false} RunInv(s: State, actions: seq<Action>)
    requires Inv(s) && Legal(s, actions)
    ensures Inv(Run(s, actions))
    decreases |actions|
  {
    if actions == [] {
    } else {
      StepInv(s, actions[0]);
      RunInv(Step(s, actions[0]), actions[1..]);
    }
  }

  // ---------------------------------------------------------------- main theorems

  ghost predicate AllFinished(s: State) {
    forall t :: 0 <= t < |s.consumers| ==> s.consumers[t].place.Finished?
  }

  /** A step other than going to sleep and waking up for nothing. */
  ghost predicate Progress(s: State, a: Action) {
    Enabled(s, a) && !a.Spurious? && (a.Lock? ==> s.queue != [])
  }

  /** No lost wake-up: until all consumers have finished, some step makes progress. */
  lemma NoLostWakeup(s: State)
    requires Inv(s) && !AllFinished(s)
    ensures exists a :: Progress(s, a)
  {
    if s.pushed < s.n + |s.consumers| {
      var woken := set t: nat | t < |s.consumers| && IsAsleep(s, t);
      assert forall t :: IsAsleep(s, t) ==> t in woken;
      assert Progress(s, Push(woken));
    } else if t: nat :| t < |s.consumers| && s.consumers[t].place.Holding? {
      assert Progress(s, Handle(t));
    } else {
      var u :| 0 <= u < |s.consumers| && !s.consumers[u].place.Finished?;
      SentinelsLeft(s, u);
      if s.consumers[u].place.Asleep? {
        assert IsAsleep(s, u);
        u := SomebodyAwake(s);
      }
      assert Progress(s, Lock(u));
    }
  }

  /** An unfinished consumer that holds nothing still has its sentinel ahead of it. */
  lemma SentinelsLeft(s: State, u: nat)
    requires Inv(s) && s.pushed == s.n + |s.consumers|
    requires u < |s.consumers| && HasSentinel(s.consumers[u]) == 0
    ensures s.queue != []
  {
    SumAtMost(Map(s.consumers, HasSentinel), 1);
    assert Map(s.consumers, HasSentinel)[u] == 0;
  }

  lemma SomebodyAwake(s: State) returns (t: nat)
    requires Inv(s) && Total(s.consumers, IsAwake) >= 1
    ensures t < |s.consumers| && IsAwake(s.consumers[t]) == 1
  {
    if forall t :: 0 <= t < |s.consumers| ==> IsAwake(s.consumers[t]) == 0 {
      TotalBounds(s.consumers, IsAwake, 0, 0);
      assert false;
    }
    t :| t < |s.consumers| && IsAwake(s.consumers[t]) != 0;
  }

  /** Work still to be done. */
  function Measure(s: State): int {
    3 * (s.n + |s.consumers| - s.pushed) + 2 * |s.queue| + Total(s.consumers, IsHolding)
  }

  /** Every progress step does one unit of work; sleeping and waking undo none. */
  lemma WorkShrinks(s: State, a: Action)
    requires Inv(s) && Enabled(s, a)
    ensures Measure(Step(s, a)) == Measure(s) - if Progress(s, a) then 1 else 0
    ensures Measure(s) >= 0
  {
    var s' := Step(s, a);
    TotalBounds(s.consumers, IsHolding, 0, 1);
    match a
    case Push(woken) => SignalKeeps(s.consumers, woken);
    case Lock(t) => TotalUpdate(s.consumers, IsHolding, t, s'.consumers[t]);
    case Spurious(t) => TotalUpdate(s.consumers, IsHolding, t, s'.consumers[t]);
    case Handle(t) => TotalUpdate(s.consumers, IsHolding, t, s'.consumers[t]);
  }

  /** Progress steps in a run. */
  ghost function Work(s: State, actions: seq<Action>): nat
    requires Legal(s, actions)
    decreases |actions|
  {
    if actions == [] then 0
    else (if Progress(s, actions[0]) then 1 else 0) + Work(Step(s, actions[0]), actions[1..])
  }

  lemma {:induction false} WorkAddsUp(s: State, actions: seq<Action>)
    requires Inv(s) && Legal(s, actions)
    ensures Work(s, actions) + Measure(Run(s, actions)) == Measure(s)
    decreases |actions|
  {
    if actions == [] {
    } else {
      WorkShrinks(s, actions[0]);
      StepInv(s, actions[0]);
      WorkAddsUp(Step(s, actions[0]), actions[1..]);
    }
  }

  /** With no work left all consumers have finished and the queue is empty. */
  lemma {:induction false} NoWorkMeansFinished(s: State)
    requires Inv(s)
    ensures Measure(s) == 0 <==> AllFinished(s)
    ensures AllFinished(s) ==> s.queue == [] && s.popped == s.pushed == s.n + |s.consumers|
  {
    if AllFinished(s) {
      TotalBounds(s.consumers, HasSentinel, 1, 1);
      TotalBounds(s.consumers, IsHolding, 0, 0);
    } else {
      NoLostWakeup(s);
      var a :| Progress(s, a);
      WorkShrinks(s, a);
      StepInv(s, a);
      TotalBounds(Step(s, a).consumers, IsHolding, 0, 1);
    }
  }

  /**
   Every run does at most 3 * (n + c) progress steps, can always make one more until all
   consumers have finished, and has finished exactly when it has done them all.
   */
  lemma {:induction false} EveryRunFinishes(n: nat, c: nat, actions: seq<Action>)
    requires 0 < n < INT_MAX && c >= 1 && Legal(Init(n, c), actions)
    ensures var s := Run(Init(n, c), actions);
            Work(Init(n, c), actions) <= 3 * (n + c) &&
            (AllFinished(s) <==> Work(Init(n, c), actions) == 3 * (n + c)) &&
            (!AllFinished(s) ==> exists a :: Progress(s, a))
  {
    InitInv(n, c);
    TotalBounds(Init(n, c).consumers, IsHolding, 0, 0);
    RunInv(Init(n, c), actions);
    WorkAddsUp(Init(n, c), actions);
    var s := Run(Init(n, c), actions);
    TotalBounds(s.consumers, IsHolding, 0, 1);
    NoWorkMeansFinished(s);
    if !AllFinished(s) { NoLostWakeup(s); }
  }

  lemma {:induction false} DataSumClosed(n: nat, k: nat)
    requires k <= n
    ensures DataSum(n, k) == if k % 2 == 0 then -(k / 2) else (k + 1) / 2
  {
    if k > 0 {
      DataSumClosed(n, k - 1);
    }
  }

  function LocalSums(cs: seq<Consumer>): seq<int> {
    Map(cs, (c: Consumer) => c.sum)
  }

  /**
   Conservation and result: in every reachable state the consumers' shares make up the data
   taken so far, as many sentinels have been taken as consumers have (or hold) one, nothing
   but sentinels is queued behind a sentinel, and at the end the sum is -n/2 for even n and
   (n+1)/2 for odd n, although every intermediate sum may have wrapped around.
   */
  lemma {:induction false} FinalSum(n: nat, c: nat, actions: seq<Action>)
    requires 0 < n < INT_MAX && c >= 1 && Legal(Init(n, c), actions)
    ensures var s := Run(Init(n, c), actions);
            s.n == n && Cong(Total(s.consumers, Share), DataSum(n, DataPopped(s))) &&
            Total(s.consumers, HasSentinel) == s.popped - DataPopped(s) &&
            (forall i, j :: 0 <= i < j < |s.queue| && s.queue[i] == INT_MAX ==> s.queue[j] == INT_MAX) &&
            (AllFinished(s) ==>
              Wrap(Sum(LocalSums(s.consumers))) == if n % 2 == 0 then -(n / 2) else (n + 1) / 2)
  {
    InitInv(n, c);
    RunInv(Init(n, c), actions);
    RunKeeps(Init(n, c), actions);
    var s := Run(Init(n, c), actions);
    if AllFinished(s) {
      NoWorkMeansFinished(s);
      assert LocalSums(s.consumers) == Map(s.consumers, Share);
      DataSumClosed(n, n);
      WrapUnique(Sum(LocalSums(s.consumers)), DataSum(n, n));
    }
  }

  lemma WrapUnique(x: int, y: int)
    requires Cong(x, y) && -INT_MAX - 1 <= y <= INT_MAX
    ensures Wrap(x) == y
  {
  }

  lemma {:induction false} RunKeeps(s: State, actions: seq<Action>)
    requires Legal(s, actions)
    ensures Run(s, actions).n == s.n && |Run(s, actions).consumers| == |s.consumers|
    decreases |actions|
  {
    if actions == [] {
    } else {
      RunKeeps(Step(s, actions[0]), actions[1..]);
    }
  }

  // ---------------------------------------------------------------- what each consumer adds up

  /** Values pushed and popped by these actions. */
  function Pushes(actions: seq<Action>): nat
    decreases |actions|
  {
    if actions == [] then 0
    else
      var a := actions[|actions| - 1];
      Pushes(actions[..|actions| - 1]) + if a.Push? then 1 else 0
  }

  function Pops(actions: seq<Action>): nat
    decreases |actions|
  {
    if actions == [] then 0
    else
      var before := actions[..|actions| - 1];
      Pops(before) + if actions[|actions| - 1].Lock? && Pops(before) < Pushes(before) then 1 else 0
  }

  /** The values that consumer t takes: whoever locks next while values are left gets the next one. */
  function TakenBy(n: nat, actions: seq<Action>, t: nat): seq<int>
    decreases |actions|
  {
    if actions == [] then []
    else
      var before := actions[..|actions| - 1];
      TakenBy(n, before, t) +
      if actions[|actions| - 1] == Lock(t) && Pops(before) < Pushes(before) then [Item(n, Pops(before))] else []
  }

  /** The values taken that are in the sum already. */
  function Settled(c: Consumer, taken: seq<int>): seq<int> {
    if (c.place.Holding? || c.place.Finished?) && taken != [] then taken[..|taken| - 1] else taken
  }

  /** The consumer has added what it took, up to the value it holds or the sentinel it has met. */
  ghost predicate AddsUp(c: Consumer, taken: seq<int>) {
    && (c.place.Holding? ==> taken != [] && taken[|taken| - 1] == c.place.value)
    && (c.place.Finished? ==> taken != [] && taken[|taken| - 1] == INT_MAX)
    && INT_MAX !in Settled(c, taken)
    && c.sum == Wrap(Sum(Settled(c, taken)))
  }

  lemma WrapAdds(x: int, v: int)
    ensures Wrap(Wrap(x) + v) == Wrap(x + v)
  {
  }

  lemma TakesOne(c: Consumer, taken: seq<int>, v: int)
    requires AddsUp(c, taken) && c.place.AtLock?
    ensures AddsUp(c.(place := Holding(v)), taken + [v])
  {
    assert (taken + [v])[..|taken|] == taken;
  }

  lemma UsesOne(c: Consumer, taken: seq<int>)
    requires AddsUp(c, taken) && c.place.Holding?
    ensures AddsUp(Use(c, c.place.value), taken)
  {
    var v := c.place.value;
    if v != INT_MAX {
      var before := taken[..|taken| - 1];
      assert taken == before + [v];
      SumConcat(before, [v]);
      assert Sum([v]) == v;
      WrapAdds(Sum(before), v);
    }
  }

  /** The state agrees with what the actions say. */
  ghost predicate Agrees(n: nat, s: State, actions: seq<Action>) {
    && s.n == n && s.pushed == Pushes(actions) && s.popped == Pops(actions)
    && forall t: nat :: t < |s.consumers| ==> AddsUp(s.consumers[t], TakenBy(n, actions, t))
  }

  lemma ActionAdded(n: nat, actions: seq<Action>, a: Action, t: nat)
    ensures Pushes(actions + [a]) == Pushes(actions) + if a.Push? then 1 else 0
    ensures Pops(actions + [a]) == Pops(actions) + if a.Lock? && Pops(actions) < Pushes(actions) then 1 else 0
    ensures TakenBy(n, actions + [a], t) == TakenBy(n, actions, t) +
              if a == Lock(t) && Pops(actions) < Pushes(actions) then [Item(n, Pops(actions))] else []
  {
    assert (actions + [a])[..|actions|] == actions;
  }

  lemma ConsumerStep(s: State, a: Action, t: nat, taken: seq<int>)
    requires Enabled(s, a) && t < |s.consumers| && AddsUp(s.consumers[t], taken)
    ensures AddsUp(Step(s, a).consumers[t], taken + if a == Lock(t) && s.queue != [] then [s.queue[0]] else [])
  {
    var c := s.consumers[t];
    if a == Lock(t) && s.queue != [] {
      TakesOne(c, taken, s.queue[0]);
    } else {
      assert taken + [] == taken;
      if a == Handle(t) { UsesOne(c, taken); }
    }
  }

  lemma ConsumerAgrees(n: nat, s: State, actions: seq<Action>, a: Action, t: nat)
    requires Inv(s) && Agrees(n, s, actions) && Enabled(s, a) && t < |s.consumers|
    ensures AddsUp(Step(s, a).consumers[t], TakenBy(n, actions + [a], t))
  {
    ActionAdded(n, actions, a, t);
    ConsumerStep(s, a, t, TakenBy(n, actions, t));
    assert s.queue != [] ==> s.queue[0] == Item(n, s.popped);
  }

  lemma StepAgrees(n: nat, s: State, actions: seq<Action>, a: Action)
    requires Inv(s) && Agrees(n, s, actions) && Enabled(s, a)
    ensures Agrees(n, Step(s, a), actions + [a])
  {
    ActionAdded(n, actions, a, 0);
    forall t: nat | t < |s.consumers| ensures AddsUp(Step(s, a).consumers[t], TakenBy(n, actions + [a], t)) {
      ConsumerAgrees(n, s, actions, a, t);
    }
  }

  lemma {:induction false} RunSnoc(s: State, actions: seq<Action>, a: Action)
    requires Legal(s, actions + [a])
    ensures Legal(s, actions) && Enabled(Run(s, actions), a)
    ensures Run(s, actions + [a]) == Step(Run(s, actions), a)
    decreases |actions|
  {
    if actions == [] {
    } else {
      assert (actions + [a])[1..] == actions[1..] + [a];
      RunSnoc(Step(s, actions[0]), actions[1..], a);
    }
  }

  lemma {:induction false} RunAgrees(n: nat, c: nat, actions: seq<Action>)
    requires 0 < n < INT_MAX && c >= 1 && Legal(Init(n, c), actions)
    ensures Agrees(n, Run(Init(n, c), actions), actions)
    decreases |actions|
  {
    if actions == [] {
    } else {
      var before, a := actions[..|actions| - 1], actions[|actions| - 1];
      assert before + [a] == actions;
      RunSnoc(Init(n, c), before, a);
      RunAgrees(n, c, before);
      InitInv(n, c);
      RunInv(Init(n, c), before);
      StepAgrees(n, Run(Init(n, c), before), before, a);
    }
  }

  /**
   In every run each consumer's own sum is the wrapped sum of the values it has taken, which are
   those that its turns at the lock give it; it is finished exactly when it has met a sentinel.
   */
  lemma EachConsumer(n: nat, c: nat, actions: seq<Action>, t: nat)
    requires 0 < n < INT_MAX && t < c && Legal(Init(n, c), actions)
    ensures var s, taken := Run(Init(n, c), actions), TakenBy(n, actions, t);
            t < |s.consumers| && AddsUp(s.consumers[t], taken) &&
            -INT_MAX - 1 <= s.consumers[t].sum <= INT_MAX &&
            (INT_MAX in taken ==> s.consumers[t].place == Holding(INT_MAX) || s.consumers[t].place.Finished?)
  {
    RunAgrees(n, c, actions);
    RunKeeps(Init(n, c), actions);
    var me, taken := Run(Init(n, c), actions).consumers[t], TakenBy(n, actions, t);
    assert AddsUp(me, taken);
    WrapCong(Sum(Settled(me, taken)));
  }

  // ---------------------------------------------------------------- the spinning variant

  /** Locked section of a spinning consumer: try again on an empty queue. */
  datatype SpinAction = Produce | Poll(t: nat) | Add(t: nat)

  ghost predicate SpinEnabled(s: State, a: SpinAction) {
    match a
    case Produce => s.pushed < s.n + |s.consumers|
    case Poll(t) => t < |s.consumers| && s.consumers[t].place.AtLock?
    case Add(t) => t < |s.consumers| && s.consumers[t].place.Holding?
  }

  ghost function SpinStep(s: State, a: SpinAction): State
    requires SpinEnabled(s, a)
  {
    match a
    case Produce =>
      s.(pushed := s.pushed + 1, queue := s.queue + [Item(s.n, s.pushed)])
    case Poll(t) =>
      if s.queue == [] then s
      else s.(queue := s.queue[1..], popped := s.popped + 1,
              consumers := s.consumers[t := s.consumers[t].(place := Holding(s.queue[0]))])
    case Add(t) =>
      s.(consumers := s.consumers[t := Use(s.consumers[t], s.consumers[t].place.value)])
  }

  ghost predicate SpinLegal(s: State, actions: seq<SpinAction>)
    decreases |actions|
  {
    actions == [] || (SpinEnabled(s, actions[0]) && SpinLegal(SpinStep(s, actions[0]), actions[1..]))
  }

  ghost function SpinRun(s: State, actions: seq<SpinAction>): State
    requires SpinLegal(s, actions)
    decreases |actions|
  {
    if actions == [] then s else SpinRun(SpinStep(s, actions[0]), actions[1..])
  }

  ghost predicate NoSleepers(s: State) {
    forall t :: !IsAsleep(s, t)
  }

  lemma SpinStepSimulated(s: State, a: SpinAction) returns (same: seq<Action>)
    requires NoSleepers(s) && SpinEnabled(s, a)
    ensures Legal(s, same) && Run(s, same) == SpinStep(s, a) && NoSleepers(SpinStep(s, a))
  {
    var s' := SpinStep(s, a);
    match a
    case Produce =>
      same := [Push({})];
      assert Signal(s.consumers, {}) == s.consumers;
      forall t ensures !IsAsleep(s', t) { assert !IsAsleep(s, t); }
    case Poll(t) =>
      if s.queue == [] {
        same := [Lock(t), Spurious(t)];
        var m := Step(s, Lock(t));
        var rest := [Spurious(t)];
        assert same[1..] == rest && rest[1..] == [];
        assert Step(m, Spurious(t)).consumers == s.consumers;
        assert Legal(s, []) && Run(s, []) == s;
        assert Legal(m, rest) && Run(m, rest) == s;
      } else {
        same := [Lock(t)];
        forall u ensures !IsAsleep(s', u) { assert !IsAsleep(s, u); }
      }
    case Add(t) =>
      same := [Handle(t)];
      forall u ensures !IsAsleep(s', u) { assert !IsAsleep(s, u); }
  }

  lemma {:induction false} RunConcat(s: State, a: seq<Action>, b: seq<Action>)
    requires Legal(s, a) && Legal(Run(s, a), b)
    ensures Legal(s, a + b) && Run(s, a + b) == Run(Run(s, a), b)
    decreases |a|
  {
    if a == [] {
      assert a + b == b;
    } else {
      assert (a + b)[1..] == a[1..] + b;
      RunConcat(Step(s, a[0]), a[1..], b);
    }
  }

  /** Whatever the spinning program can reach, the program with the condition variable can too. */
  lemma {:induction false} SpinSimulated(s: State, actions: seq<SpinAction>) returns (same: seq<Action>)
    requires NoSleepers(s) && SpinLegal(s, actions)
    ensures Legal(s, same) && Run(s, same) == SpinRun(s, actions)
    decreases |actions|
  {
    if actions == [] {
      same := [];
    } else {
      var first := SpinStepSimulated(s, actions[0]);
      var rest := SpinSimulated(SpinStep(s, actions[0]), actions[1..]);
      RunConcat(s, first, rest);
      same := first + rest;
    }
  }

  /** A step that does something: not a look at an empty queue. */
  ghost predicate SpinProgress(s: State, a: SpinAction) {
    SpinEnabled(s, a) && (a.Poll? ==> s.queue != [])
  }

  ghost function SpinWork(s: State, actions: seq<SpinAction>): nat
    requires SpinLegal(s, actions)
    decreases |actions|
  {
    if actions == [] then 0
    else (if SpinProgress(s, actions[0]) then 1 else 0) + SpinWork(SpinStep(s, actions[0]), actions[1..])
  }

  /** A step does one unit of work or leaves everything as it is. */
  lemma SpinShrinks(s: State, a: SpinAction)
    requires SpinEnabled(s, a)
    ensures if SpinProgress(s, a) then Measure(SpinStep(s, a)) == Measure(s) - 1 else SpinStep(s, a) == s
  {
    if SpinProgress(s, a) && !a.Produce? {
      TotalUpdate(s.consumers, IsHolding, a.t, SpinStep(s, a).consumers[a.t]);
    }
  }

  lemma {:induction false} SpinWorkAddsUp(s: State, actions: seq<SpinAction>)
    requires SpinLegal(s, actions)
    ensures SpinWork(s, actions) + Measure(SpinRun(s, actions)) == Measure(s)
    decreases |actions|
  {
    if actions == [] {
    } else {
      SpinShrinks(s, actions[0]);
      SpinWorkAddsUp(SpinStep(s, actions[0]), actions[1..]);
    }
  }

  lemma {:induction false} NobodySleeps(s: State, actions: seq<SpinAction>)
    requires NoSleepers(s) && SpinLegal(s, actions)
    ensures NoSleepers(SpinRun(s, actions))
    decreases |actions|
  {
    if actions == [] {
    } else {
      var _ := SpinStepSimulated(s, actions[0]);
      NobodySleeps(SpinStep(s, actions[0]), actions[1..]);
    }
  }

  /** Until all have finished, a spinning step other than a look at an empty queue is possible. */
  lemma SpinGetsOn(s: State)
    requires Inv(s) && NoSleepers(s) && !AllFinished(s)
    ensures exists a :: SpinProgress(s, a)
  {
    NoLostWakeup(s);
    var a :| Progress(s, a);
    match a
    case Push(_) => assert SpinProgress(s, Produce);
    case Lock(t) => assert SpinProgress(s, Poll(t));
    case Spurious(t) =>
    case Handle(t) => assert SpinProgress(s, Add(t));
  }

  /**
   A spinning run does 3 * (n + c) steps besides looking at an empty queue, no more and no fewer
   until all have finished; it can always do the next; and its final sum is the same.
   */
  lemma {:induction false} SpinRunFinishes(n: nat, c: nat, actions: seq<SpinAction>)
    requires 0 < n < INT_MAX && c >= 1 && SpinLegal(Init(n, c), actions)
    ensures var s, work := SpinRun(Init(n, c), actions), SpinWork(Init(n, c), actions);
            work <= 3 * (n + c) && (AllFinished(s) <==> work == 3 * (n + c)) &&
            (!AllFinished(s) ==> exists a :: SpinProgress(s, a)) &&
            (AllFinished(s) ==>
              Wrap(Sum(LocalSums(s.consumers))) == if n % 2 == 0 then -(n / 2) else (n + 1) / 2)
  {
    InitInv(n, c);
    TotalBounds(Init(n, c).consumers, IsHolding, 0, 0);
    var same := SpinSimulated(Init(n, c), actions);
    RunInv(Init(n, c), same);
    FinalSum(n, c, same);
    NobodySleeps(Init(n, c), actions);
    SpinWorkAddsUp(Init(n, c), actions);
    var s := SpinRun(Init(n, c), actions);
    TotalBounds(s.consumers, IsHolding, 0, 1);
    NoWorkMeansFinished(s);
    if !AllFinished(s) { SpinGetsOn(s); }
  }
}
