/**
 The dice game played by N threads over the hand-written barrier. The methods are the
 code one thread runs between waits; the step system interleaves them with the
 barrier's own steps and with the clean-up loop of the main thread.
 */
module DiceGame {
  import opened Sums
  import B = Barrier

  const INT_MAX := 0x7FFF_FFFF
  const INT_MIN := -0x8000_0000

  datatype Player = Player(result: int, playing: bool)

  type Table = seq<Player>

  // ---------------------------------------------------------------- one round, sequentially

  function Playing(t: Table): (r: seq<int>)
    ensures |r| == |t|
  {
    seq(|t|, i requires 0 <= i < |t| => if t[i].playing then 1 else 0)
  }

  function CountPlaying(t: Table): int {
    Sum(Playing(t))
  }

  function LeastResult(t: Table): int {
    if t == [] then INT_MAX
    else
      var n, m := |t| - 1, LeastResult(t[..|t| - 1]);
      if t[n].playing && t[n].result < m then t[n].result else m
  }

  function GreatestResult(t: Table): int {
    if t == [] then INT_MIN
    else
      var n, m := |t| - 1, GreatestResult(t[..|t| - 1]);
      if t[n].playing && t[n].result > m then t[n].result else m
  }

  function EliminateOne(p: Player, max: int): Player {
    if p.playing && p.result == max then p.(playing := false) else p
  }

  function EliminateAt(t: Table, max: int): (r: Table)
    ensures |r| == |t| && forall i :: 0 <= i < |t| ==> r[i] == EliminateOne(t[i], max)
  {
    seq(|t|, i requires 0 <= i < |t| => EliminateOne(t[i], max))
  }

  function Eliminate(t: Table): (r: Table)
    ensures |r| == |t|
  {
    if LeastResult(t) == GreatestResult(t) then t else EliminateAt(t, GreatestResult(t))
  }

  predicate InRange(t: Table) {
    forall i :: 0 <= i < |t| ==> 0 <= t[i].result <= 12
  }

  predicate Bounds(t: Table, lo: int, hi: int) {
    forall i :: 0 <= i < |t| && t[i].playing ==> lo <= t[i].result <= hi
  }

  predicate Attained(t: Table, v: int) {
    exists i :: 0 <= i < |t| && t[i].playing && t[i].result == v
  }

  /** The two scans find a smallest and a largest result among the players still in. */
  lemma {:induction false} Extremes(t: Table)
    requires InRange(t)
    ensures Bounds(t, LeastResult(t), GreatestResult(t))
    ensures CountPlaying(t) == 0 ==> LeastResult(t) == INT_MAX && GreatestResult(t) == INT_MIN
    ensures CountPlaying(t) != 0 ==> Attained(t, LeastResult(t)) && Attained(t, GreatestResult(t))
    ensures CountPlaying(t) >= 0
  {
    if t != [] {
      var n := |t| - 1;
      var u := t[..n];
      Extremes(u);
      assert Playing(t) == Playing(u) + [if t[n].playing then 1 else 0];
      SumConcat(Playing(u), [if t[n].playing then 1 else 0]);
      assert forall i :: 0 <= i < n ==> t[i] == u[i];
      if t[n].playing {
        assert t[n].result <= GreatestResult(t) && LeastResult(t) <= t[n].result;
      }
    }
  }

  /** All players still in have rolled the same. */
  predicate AllEqual(t: Table) {
    forall i, j :: 0 <= i < |t| && 0 <= j < |t| && t[i].playing && t[j].playing ==> t[i].result == t[j].result
  }

  /** Somebody still in rolled more than player i. */
  predicate Beaten(t: Table, i: nat)
    requires i < |t|
  {
    exists j :: 0 <= j < |t| && t[j].playing && t[j].result > t[i].result
  }

  /**
   What the rules say of a round: a player stays in exactly if somebody still in rolled
   more, or if all rolled the same. Results are kept, somebody always stays in, and the
   number of players drops unless the round is repeated.
   */
  lemma EliminateMeaning(t: Table)
    requires InRange(t) && CountPlaying(t) >= 1
    ensures forall i :: 0 <= i < |t| ==> Eliminate(t)[i].result == t[i].result
    ensures forall i :: 0 <= i < |t| ==>
              (Eliminate(t)[i].playing <==> t[i].playing && (Beaten(t, i) || AllEqual(t)))
    ensures 1 <= CountPlaying(Eliminate(t)) <= CountPlaying(t)
    ensures CountPlaying(Eliminate(t)) == CountPlaying(t) <==> AllEqual(t)
  {
    Extremes(t);
    var max := GreatestResult(t);
    var g :| 0 <= g < |t| && t[g].playing && t[g].result == max;
    var l :| 0 <= l < |t| && t[l].playing && t[l].result == LeastResult(t);
    var e := Eliminate(t);
    if LeastResult(t) != max {
      assert t[l].result != t[g].result;
      CountKeeps(t, e, l);
      CountDrops(t, e, g);
    } else {
      assert AllEqual(t);
    }
  }

  lemma CountKeeps(t: Table, e: Table, l: nat)
    requires l < |e| == |t| && e[l].playing
    ensures CountPlaying(e) >= 1
  {
    SumAtLeastEach(Playing(e), l);
  }

  lemma {:induction false} CountMonotone(t: Table, e: Table)
    requires |e| == |t| && forall i :: 0 <= i < |t| && e[i].playing ==> t[i].playing
    ensures CountPlaying(e) <= CountPlaying(t)
  {
    if t == [] {
    } else {
      CountMonotone(t[1..], e[1..]);
      assert Playing(t)[1..] == Playing(t[1..]) && Playing(e)[1..] == Playing(e[1..]);
    }
  }

  lemma CountDrops(t: Table, e: Table, g: nat)
    requires g < |e| == |t| && t[g].playing && !e[g].playing
    requires forall i :: 0 <= i < |t| && e[i].playing ==> t[i].playing
    ensures CountPlaying(e) < CountPlaying(t)
  {
    var u := t[g := t[g].(playing := false)];
    CountMonotone(u, e);
    SumUpdate(Playing(t), g, 0);
    assert Playing(u) == Playing(t)[g := 0];
  }

  // ---------------------------------------------------------------- the code between the waits

  method MinResult(players: array<Player>) returns (res: int)
    ensures res == LeastResult(players[..])
  {
    res := INT_MAX;
    for i := 0 to players.Length
      invariant res == LeastResult(players[..i])
    {
      if players[i].playing && players[i].result < res {
        res := players[i].result;
      }
      assert players[..i + 1][..i] == players[..i];
    }
    assert players[..players.Length] == players[..];
  }

  method MaxResult(players: array<Player>) returns (res: int)
    ensures res == GreatestResult(players[..])
  {
    res := INT_MIN;
    for i := 0 to players.Length
      invariant res == GreatestResult(players[..i])
    {
      if players[i].playing && players[i].result > res {
        res := players[i].result;
      }
      assert players[..i + 1][..i] == players[..i];
    }
    assert players[..players.Length] == players[..];
  }

  method GetWinnerId(players: array<Player>) returns (id: int)
    ensures id == -1 <==> forall i :: 0 <= i < players.Length ==> !players[i].playing
    ensures id != -1 ==> 0 <= id < players.Length && players[id].playing &&
                         forall i :: 0 <= i < id ==> !players[i].playing
    ensures id == WinnerId(players[..])
  {
    for i := 0 to players.Length
      invariant forall j :: 0 <= j < i ==> !players[j].playing
      invariant WinnerId(players[..]) == WinnerFrom(players[..], i)
    {
      if players[i].playing {
        return i;
      }
    }
    return -1;
  }

  function WinnerFrom(t: Table, i: nat): int
    requires i <= |t|
    decreases |t| - i
  {
    if i == |t| then -1 else if t[i].playing then i else WinnerFrom(t, i + 1)
  }

  function WinnerId(t: Table): int {
    WinnerFrom(t, 0)
  }

  lemma {:induction false} WinnerIsFirst(t: Table, i: nat)
    requires i <= |t|
    ensures var w := WinnerFrom(t, i);
            if w == -1 then forall j :: i <= j < |t| ==> !t[j].playing
            else i <= w < |t| && t[w].playing
    decreases |t| - i
  {
    if i == |t| {
    } else {
      WinnerIsFirst(t, i + 1);
    }
  }

  method EliminatePlayers(players: array<Player>, activePlayers: int) returns (active: int)
    modifies players
    ensures players[..] == Eliminate(old(players[..]))
    ensures active == activePlayers - (CountPlaying(old(players[..])) - CountPlaying(players[..]))
  {
    active := activePlayers;
    var min := MinResult(players);
    var max := MaxResult(players);
    ghost var before := players[..];
    if min != max {
      for i := 0 to players.Length
        invariant forall j :: 0 <= j < i ==> players[j] == EliminateOne(before[j], max)
        invariant forall j :: i <= j < players.Length ==> players[j] == before[j]
        invariant active == activePlayers - (CountPlaying(before) - CountPlaying(players[..]))
      {
        ghost var now := players[..];
        if players[i].playing && players[i].result == max {
          players[i] := players[i].(playing := false);
          active := active - 1;
          SumUpdate(Playing(now), i, 0);
          assert Playing(players[..]) == Playing(now)[i := 0];
        }
      }
      assert players[..] == Eliminate(before);
    }
  }

  // ---------------------------------------------------------------- the step system

  datatype PC =
    | Top           // about to call the first wait of a round
    | InFirst       // inside it
    | Check         // about to read active_players
    | ToRoll
    | ToSecond      // about to call the second wait
    | InSecond
    | Eliminating   // serial thread, about to eliminate
    | Leaving       // out of the loop, about to test `res`
    | Scanning(next: nat)   // serial thread looking for the winner, about to read record `next`
    | Done

  /** What the scan for the winner comes to: a number to announce, or a read of a record already freed. */
  datatype Announcement = Names(thread: nat, winner: int) | ReadsFreed(thread: nat)

  /** `base` records the table after the last elimination, `freed` how many records main has freed. */
  datatype State = State(
    bar: B.State, table: Table, active: int, pcs: seq<PC>, res: seq<int>,
    base: Table, announced: seq<Announcement>, freed: nat)

  datatype Action =
    | Call(t: nat) | Wake(t: nat) | Retry(t: nat)
    | Look(t: nat) | Roll(t: nat, value: int) | Judge(t: nat) | Leave(t: nat) | Read(t: nat)
    | JoinAndFree

  function Start(n: nat): Table {
    seq(n, _ => Player(0, true))
  }

  /** `garbage` is what the uninitialised locals `res` happen to hold. */
  function Init(n: nat, garbage: seq<int>): State {
    State(B.Init(n), Start(n), n, seq(n, _ => Top), garbage, Start(n), [], 0)
  }

  predicate Shaped(s: State) {
    |s.bar.threads| == |s.table| == |s.base| == |s.pcs| == |s.res|
  }

  predicate Enabled(s: State, a: Action) {
    Shaped(s) &&
    match a
    case Call(t) => t < |s.pcs| && (s.pcs[t].Top? || s.pcs[t].ToSecond?) && B.Enabled(s.bar, B.Call(t))
    case Wake(t) => B.Enabled(s.bar, B.Wake(t))
    case Retry(t) => B.Enabled(s.bar, B.Retry(t))
    case Look(t) => t < |s.pcs| && s.pcs[t].Check?
    case Roll(t, v) => t < |s.pcs| && s.pcs[t].ToRoll? && 2 <= v <= 12
    case Judge(t) => t < |s.pcs| && s.pcs[t].Eliminating?
    case Leave(t) => t < |s.pcs| && s.pcs[t].Leaving?
    case Read(t) => t < |s.pcs| && s.pcs[t].Scanning?
    case JoinAndFree => s.freed < |s.pcs| && s.pcs[s.freed].Done?
  }

  /** The thread goes on after its barrier step: still waiting, or back with a value. */
  function AfterBarrier(s: State, bar: B.State, t: nat): State
    requires Shaped(s) && t < |s.pcs| == |bar.threads|
  {
    var first := s.pcs[t].Top? || s.pcs[t].InFirst?;
    var th := bar.threads[t];
    if !th.place.Outside? || th.results == [] then
      s.(bar := bar, pcs := s.pcs[t := if first then InFirst else InSecond])
    else if first then
      s.(bar := bar, pcs := s.pcs[t := Check])
    else
      var v := th.results[|th.results| - 1];
      s.(bar := bar, res := s.res[t := v],
         pcs := s.pcs[t := if v == B.SERIAL then Eliminating else Top])
  }

  function Step(s: State, a: Action): State
    requires Enabled(s, a)
  {
    match a
    case Call(t) => AfterBarrier(s, B.Step(0, s.bar, B.Call(t)), t)
    case Wake(t) => s.(bar := B.Step(0, s.bar, B.Wake(t)))
    case Retry(t) => AfterBarrier(s, B.Step(0, s.bar, B.Retry(t)), t)
    case Look(t) => s.(pcs := s.pcs[t := if s.active == 1 then Leaving else ToRoll])
    case Roll(t, v) =>
      s.(pcs := s.pcs[t := ToSecond],
         table := if s.table[t].playing then s.table[t := s.table[t].(result := v)] else s.table)
    case Judge(t) =>
      var e := Eliminate(s.table);
      s.(pcs := s.pcs[t := Top], table := e, base := e,
         active := s.active - (CountPlaying(s.table) - CountPlaying(e)))
    case Leave(t) => s.(pcs := s.pcs[t := if s.res[t] == B.SERIAL then Scanning(0) else Done])
    case Read(t) =>
      var i := s.pcs[t].next;
      if i < s.freed then s.(pcs := s.pcs[t := Done], announced := s.announced + [ReadsFreed(t)])
      else if i >= |s.table| then s.(pcs := s.pcs[t := Done], announced := s.announced + [Names(t, -1)])
      else if s.table[i].playing then s.(pcs := s.pcs[t := Done], announced := s.announced + [Names(t, i)])
      else s.(pcs := s.pcs[t := Scanning(i + 1)])
    case JoinAndFree => s.(freed := s.freed + 1)
  }

  predicate Legal(s: State, actions: seq<Action>)
    decreases |actions|
  {
    actions == [] || (Enabled(s, actions[0]) && Legal(Step(s, actions[0]), actions[1..]))
  }

  function Run(s: State, actions: seq<Action>): State
    requires Legal(s, actions)
    decreases |actions|
  {
    if actions == [] then s else Run(Step(s, actions[0]), actions[1..])
  }

  // ---------------------------------------------------------------- the invariant

  function Gen(s: State): int {
    s.bar.fields.generation
  }

  predicate Pending(s: State) {
    exists t :: 0 <= t < |s.pcs| && s.pcs[t].Eliminating?
  }

  /** Thread t has rolled in the round that is being played. */
  predicate Rolled(s: State, t: nat)
    requires Shaped(s) && t < |s.pcs|
  {
    s.pcs[t].ToSecond? || Pending(s) ||
    (s.pcs[t].InSecond? && |s.bar.threads[t].results| == Gen(s))
  }

  /** Thread t was the serial thread of the last second wait. */
  predicate IsAnnouncer(s: State, t: nat) {
    2 <= Gen(s) == |s.bar.leaders| && s.bar.leaders[Gen(s) - 2] == t
  }

  ghost predicate PcOk(s: State, t: nat)
    requires Shaped(s) && t < |s.pcs|
  {
    var th := s.bar.threads[t];
    var odd := Gen(s) % 2 == 1;
    match s.pcs[t]
    case Top => th.place.Outside? && !odd
    case Eliminating =>
      th.place.Outside? && !odd && s.active != 1 && 0 < Gen(s) == |s.bar.leaders| && s.bar.leaders[Gen(s) - 1] == t
    case Check => th.place.Outside? && odd
    case ToRoll => th.place.Outside? && odd && s.active != 1
    case ToSecond => th.place.Outside? && odd && s.active != 1
    case Leaving => th.place.Outside? && odd && s.active == 1
    case Scanning(i) =>
      th.place.Outside? && odd && s.active == 1 && IsAnnouncer(s, t) &&
      i <= |s.base| && WinnerId(s.base) == WinnerFrom(s.base, i)
    case Done => th.place.Outside? && odd && s.active == 1
    case InFirst => !th.place.Outside? && |th.results| % 2 == 0
    case InSecond => !th.place.Outside? && |th.results| % 2 == 1 && (odd ==> s.active != 1)
  }

  /** `res` holds the value of the thread's last second wait. */
  ghost predicate ResOk(s: State, t: nat)
    requires Shaped(s) && t < |s.pcs|
  {
    var r := s.bar.threads[t].results;
    |r| >= 2 ==> s.res[t] == r[if |r| % 2 == 0 then |r| - 1 else |r| - 2]
  }

  ghost predicate EntryOk(s: State, t: nat)
    requires Shaped(s) && t < |s.pcs|
  {
    var b := s.base[t];
    0 <= b.result <= 12 &&
    if b.playing && Rolled(s, t) then s.table[t].playing && 2 <= s.table[t].result <= 12
    else s.table[t] == b
  }

  ghost predicate AnnouncedOk(s: State)
    requires Shaped(s)
  {
    if 2 <= Gen(s) == |s.bar.leaders| && s.bar.leaders[Gen(s) - 2] < |s.pcs|
      && s.pcs[s.bar.leaders[Gen(s) - 2]].Done?
    then
      var l := s.bar.leaders[Gen(s) - 2];
      |s.announced| == 1 && s.announced[0].thread == l &&
      (s.announced[0].ReadsFreed? ==> l != 0) &&
      (s.announced[0].Names? ==> s.announced[0].winner == WinnerId(s.base))
    else
      s.announced == []
  }

  ghost predicate Inv(s: State) {
    && Shaped(s) && |s.pcs| >= 2
    && B.Inv(s.bar)
    && (forall t :: 0 <= t < |s.pcs| ==> PcOk(s, t))
    && (forall t :: 0 <= t < |s.pcs| ==> ResOk(s, t))
    && (forall t :: 0 <= t < |s.pcs| ==> EntryOk(s, t))
    && s.active == CountPlaying(s.base) >= 1
    && (Gen(s) < 2 ==> s.active == |s.pcs|)
    && s.freed <= |s.pcs|
    && (forall t :: 0 <= t < s.freed ==> s.pcs[t].Done?)
    && AnnouncedOk(s)
  }

  lemma InitInv(n: nat, garbage: seq<int>)
    requires n >= 2 && |garbage| == n
    ensures Inv(Init(n, garbage))
  {
    B.InitInv(n);
    SumBounds(Playing(Start(n)), 1, 1);
  }

  /** A step of thread t inside one generation leaves what is known of the others. */
  lemma OthersKept(s: State, s': State, t: nat)
    requires Inv(s) && Shaped(s') && t < |s.pcs| == |s'.pcs|
    requires Gen(s') == Gen(s) && s'.bar.leaders == s.bar.leaders
    requires s'.active == s.active && s'.base == s.base && s'.freed == s.freed
    requires !s.pcs[t].Eliminating? && !s'.pcs[t].Eliminating?
    requires forall u :: 0 <= u < |s.pcs| && u != t ==>
               s'.pcs[u] == s.pcs[u] && s'.bar.threads[u] == s.bar.threads[u] &&
               s'.res[u] == s.res[u] && s'.table[u] == s.table[u]
    ensures Pending(s') == Pending(s)
    ensures forall u :: 0 <= u < |s.pcs| && u != t ==> PcOk(s', u) && ResOk(s', u) && EntryOk(s', u)
  {
    if Pending(s) {
      var u :| 0 <= u < |s.pcs| && s.pcs[u].Eliminating?;
      assert s'.pcs[u].Eliminating?;
    }
    forall u | 0 <= u < |s.pcs| && u != t ensures PcOk(s', u) && ResOk(s', u) && EntryOk(s', u) {
      assert PcOk(s, u) && ResOk(s, u) && EntryOk(s, u);
    }
  }

  /** A step of thread t inside one generation that neither ends a thread nor touches the tables. */
  lemma Reassemble(s: State, s': State, t: nat)
    requires Inv(s) && Shaped(s') && t < |s.pcs| == |s'.pcs| && B.Inv(s'.bar)
    requires Gen(s') == Gen(s) && s'.bar.leaders == s.bar.leaders
    requires s'.active == s.active && s'.base == s.base && s'.freed == s.freed && s'.announced == s.announced
    requires !s.pcs[t].Done? && !s'.pcs[t].Done?
    requires s'.pcs == s.pcs[t := s'.pcs[t]]
    requires forall u :: 0 <= u < |s.pcs| ==> PcOk(s', u) && ResOk(s', u) && EntryOk(s', u)
    ensures Inv(s')
  {
  }

  /** A step with which thread t ends. */
  lemma ReassembleDone(s: State, s': State, t: nat)
    requires Inv(s) && Shaped(s') && t < |s.pcs| == |s'.pcs|
    requires s'.bar == s.bar && s'.active == s.active && s'.base == s.base && s'.freed == s.freed
    requires s'.pcs == s.pcs[t := Done]
    requires forall u :: 0 <= u < |s.pcs| ==> PcOk(s', u) && ResOk(s', u) && EntryOk(s', u)
    requires AnnouncedOk(s')
    ensures Inv(s')
  {
  }

  lemma WaitingCallThread(s: State, t: nat)
    requires Inv(s) && Enabled(s, Call(t)) && s.bar.fields.waiting + 1 < s.bar.max
    ensures var s' := Step(s, Call(t));
            s'.bar.threads == s.bar.threads[t := s'.bar.threads[t]] && Gen(s) == Gen(s') &&
            s'.bar.leaders == s.bar.leaders && s'.res == s.res &&
            s'.pcs == s.pcs[t := if s.pcs[t].Top? then InFirst else InSecond] &&
            PcOk(s', t) && ResOk(s', t) &&
            (s.pcs[t].ToSecond? ==> |s'.bar.threads[t].results| == Gen(s)) &&
            (s.pcs[t].Top? ==> Gen(s) % 2 == 0)
  {
    assert PcOk(s, t) && ResOk(s, t);
    assert B.ThreadOk(s.bar.threads[t], Gen(s));
  }

  lemma WaitingCallInv(s: State, t: nat)
    requires Inv(s) && Enabled(s, Call(t)) && s.bar.fields.waiting + 1 < s.bar.max
    ensures Inv(Step(s, Call(t)))
  {
    var s' := Step(s, Call(t));
    B.StepInv(s.bar, B.Call(t));
    WaitingCallThread(s, t);
    OthersKept(s, s', t);
    assert EntryOk(s, t);
    Reassemble(s, s', t);
  }

  /** The last arrival finds all others inside, with as many results as there are generations. */
  lemma OthersInside(s: State, t: nat)
    requires Inv(s) && Enabled(s, Call(t)) && s.bar.fields.waiting + 1 >= s.bar.max
    ensures forall u :: 0 <= u < |s.pcs| && u != t ==>
              !s.bar.threads[u].place.Outside? && |s.bar.threads[u].results| == Gen(s) &&
              s.pcs[u] == if s.pcs[t].Top? then InFirst else InSecond
    ensures !Pending(s)
  {
    assert PcOk(s, t);
    B.LastArrival(s.bar.threads, Gen(s), t);
    forall u | 0 <= u < |s.pcs| && u != t
      ensures !s.bar.threads[u].place.Outside? && |s.bar.threads[u].results| == Gen(s)
      ensures s.pcs[u] == if s.pcs[t].Top? then InFirst else InSecond
    {
      assert B.ThreadOk(s.bar.threads[u], Gen(s));
      assert PcOk(s, u);
    }
  }

  /** What the last arrival makes of one thread; the parity of the generation flips. */
  lemma LastCallThread(s: State, t: nat, u: nat)
    requires Inv(s) && Enabled(s, Call(t)) && s.bar.fields.waiting + 1 >= s.bar.max && u < |s.pcs|
    ensures var s' := Step(s, Call(t));
            Gen(s') == Gen(s) + 1 && PcOk(s', u) && ResOk(s', u) &&
            (s'.pcs[u].Eliminating? <==> u == t && s.pcs[t].ToSecond?) &&
            !s'.pcs[u].ToSecond? &&
            (s'.pcs[u].InSecond? ==> |s'.bar.threads[u].results| < Gen(s')) &&
            (Rolled(s, u) <==> s.pcs[t].ToSecond?)
  {
    var s' := Step(s, Call(t));
    OthersInside(s, t);
    assert PcOk(s, t) && PcOk(s, u) && ResOk(s, u);
    if u == t {
      assert s'.bar.threads[t].results == s.bar.threads[t].results + [B.SERIAL];
    } else {
      assert s'.bar.threads[u] == B.Woken(s.bar.threads[u]);
    }
  }

  lemma LastCallThreads(s: State, t: nat)
    requires Inv(s) && Enabled(s, Call(t)) && s.bar.fields.waiting + 1 >= s.bar.max
    ensures var s' := Step(s, Call(t));
            forall u :: 0 <= u < |s.pcs| ==> PcOk(s', u) && ResOk(s', u) && EntryOk(s', u)
  {
    var s' := Step(s, Call(t));
    LastCallThread(s, t, t);
    assert Pending(s') <==> s.pcs[t].ToSecond? by {
      if Pending(s') {
        var u :| 0 <= u < |s'.pcs| && s'.pcs[u].Eliminating?;
        LastCallThread(s, t, u);
      }
    }
    forall u | 0 <= u < |s.pcs| ensures PcOk(s', u) && ResOk(s', u) && EntryOk(s', u) {
      LastCallThread(s, t, u);
      assert EntryOk(s, u);
    }
  }

  lemma LastCallInv(s: State, t: nat)
    requires Inv(s) && Enabled(s, Call(t)) && s.bar.fields.waiting + 1 >= s.bar.max
    ensures Inv(Step(s, Call(t)))
  {
    B.StepInv(s.bar, B.Call(t));
    LastCallThreads(s, t);
    OthersInside(s, t);
    assert PcOk(s, t);
    assert forall u :: 0 <= u < |s.pcs| ==> !s.pcs[u].Done?;
  }

  lemma RetryThread(s: State, t: nat)
    requires Inv(s) && Enabled(s, Retry(t))
    ensures var s' := Step(s, Retry(t));
            !s.pcs[t].Eliminating? && !s'.pcs[t].Eliminating? && !s.pcs[t].Done? && !s'.pcs[t].Done? &&
            s'.bar.threads == s.bar.threads[t := s'.bar.threads[t]] && Gen(s) == Gen(s') &&
            !s.pcs[t].ToSecond? && !s'.pcs[t].ToSecond? &&
            PcOk(s', t) && ResOk(s', t) &&
            (s.pcs[t].InSecond? && |s.bar.threads[t].results| == Gen(s) <==>
             s'.pcs[t].InSecond? && |s'.bar.threads[t].results| == Gen(s))
  {
    assert PcOk(s, t) && ResOk(s, t);
    assert B.ThreadOk(s.bar.threads[t], Gen(s));
  }

  lemma RetryKept(s: State, t: nat)
    requires Inv(s) && Enabled(s, Retry(t))
    ensures var s' := Step(s, Retry(t));
            Shaped(s') && |s'.pcs| == |s.pcs| &&
            forall u :: 0 <= u < |s.pcs| ==> PcOk(s', u) && ResOk(s', u) && EntryOk(s', u)
  {
    RetryThread(s, t);
    OthersKept(s, Step(s, Retry(t)), t);
    assert EntryOk(s, t);
  }

  lemma RetryInv(s: State, t: nat)
    requires Inv(s) && Enabled(s, Retry(t))
    ensures Inv(Step(s, Retry(t)))
  {
    B.StepInv(s.bar, B.Retry(t));
    RetryThread(s, t);
    RetryKept(s, t);
    Reassemble(s, Step(s, Retry(t)), t);
  }

  lemma WakeInv(s: State, t: nat)
    requires Inv(s) && Enabled(s, Wake(t))
    ensures Inv(Step(s, Wake(t)))
  {
    var s' := Step(s, Wake(t));
    B.StepInv(s.bar, B.Wake(t));
    assert PcOk(s, t);
    OthersKept(s, s', t);
    WakeThread(s, t);
    Reassemble(s, s', t);
  }

  lemma WakeThread(s: State, t: nat)
    requires Inv(s) && Enabled(s, Wake(t))
    ensures var s' := Step(s, Wake(t));
            PcOk(s', t) && ResOk(s', t) && (Pending(s') == Pending(s) ==> EntryOk(s', t))
  {
    assert PcOk(s, t) && ResOk(s, t) && EntryOk(s, t);
  }

  lemma LookInv(s: State, t: nat)
    requires Inv(s) && Enabled(s, Look(t))
    ensures Inv(Step(s, Look(t)))
  {
    var s' := Step(s, Look(t));
    assert PcOk(s, t) && ResOk(s, t) && EntryOk(s, t);
    OthersKept(s, s', t);
    Reassemble(s, s', t);
  }

  lemma RollInv(s: State, t: nat, v: int)
    requires Inv(s) && Enabled(s, Roll(t, v))
    ensures Inv(Step(s, Roll(t, v)))
  {
    var s' := Step(s, Roll(t, v));
    assert PcOk(s, t) && ResOk(s, t) && EntryOk(s, t);
    OthersKept(s, s', t);
    Reassemble(s, s', t);
  }

  /** While somebody eliminates, everybody else has rolled and is at, or on the way to, the first wait. */
  lemma AllRolled(s: State, t: nat)
    requires Inv(s) && t < |s.pcs| && s.pcs[t].Eliminating?
    ensures forall u :: 0 <= u < |s.pcs| ==> Rolled(s, u)
    ensures forall u :: 0 <= u < |s.pcs| ==> s.pcs[u].Top? || s.pcs[u].InFirst? || s.pcs[u].InSecond? || u == t
    ensures InRange(s.table) && Playing(s.table) == Playing(s.base)
  {
    assert PcOk(s, t);
    forall u | 0 <= u < |s.pcs|
      ensures s.pcs[u].Top? || s.pcs[u].InFirst? || s.pcs[u].InSecond? || u == t
      ensures 0 <= s.table[u].result <= 12 && s.table[u].playing == s.base[u].playing
    {
      assert PcOk(s, u) && EntryOk(s, u);
    }
  }

  lemma FreedAreDone(s: State, t: nat)
    requires Inv(s) && t < |s.pcs|
    ensures t < s.freed ==> s.pcs[t].Done?
  {
  }

  lemma JudgeThread(s: State, t: nat, u: nat)
    requires Inv(s) && Enabled(s, Judge(t)) && u < |s.pcs|
    ensures var s' := Step(s, Judge(t));
            PcOk(s', u) && ResOk(s', u) && !s'.pcs[u].Eliminating?
  {
    AllRolled(s, t);
    assert PcOk(s, t) && PcOk(s, u) && ResOk(s, u);
  }

  lemma JudgeTable(s: State, t: nat)
    requires Inv(s) && Enabled(s, Judge(t))
    ensures var s' := Step(s, Judge(t));
            s'.table == s'.base && InRange(s'.base) && s'.active == CountPlaying(s'.base) >= 1
  {
    AllRolled(s, t);
    EliminateMeaning(s.table);
  }

  lemma JudgeInv(s: State, t: nat)
    requires Inv(s) && Enabled(s, Judge(t))
    ensures Inv(Step(s, Judge(t)))
  {
    var s' := Step(s, Judge(t));
    JudgeTable(s, t);
    assert PcOk(s, t) && Gen(s) >= 2;
    forall u | 0 <= u < |s.pcs| ensures PcOk(s', u) && ResOk(s', u) && !s'.pcs[u].Eliminating? {
      JudgeThread(s, t, u);
    }
    AllRolled(s, t);
    FreedAreDone(s, 0);
  }

  /** The thread has left the loop. */
  predicate Out(pc: PC) {
    pc.Leaving? || pc.Scanning? || pc.Done?
  }

  /** Once a thread has left the loop, every other has left it too or will at its next look. */
  lemma SameRound(s: State, t: nat)
    requires Inv(s) && t < |s.pcs| && Out(s.pcs[t])
    ensures s.active == 1 && Gen(s) % 2 == 1 && Gen(s) >= 3
    ensures forall u :: 0 <= u < |s.pcs| ==> s.pcs[u].InFirst? || s.pcs[u].Check? || Out(s.pcs[u])
    ensures s.table == s.base
  {
    assert PcOk(s, t);
    forall u | 0 <= u < |s.pcs| ensures s.pcs[u].InFirst? || s.pcs[u].Check? || Out(s.pcs[u]) {
      assert PcOk(s, u);
    }
    assert !Pending(s);
    forall u | 0 <= u < |s.pcs| ensures s.table[u] == s.base[u] {
      assert EntryOk(s, u);
    }
  }

  /** The thread that left with the serial value is the leader of the last second wait. */
  lemma SerialIsLeader(s: State, t: nat)
    requires Inv(s) && t < |s.pcs| && s.pcs[t].Leaving?
    ensures Gen(s) >= 3 && |s.bar.leaders| == Gen(s)
    ensures s.res[t] == B.SERIAL <==> s.bar.leaders[Gen(s) - 2] == t
  {
    SameRound(s, t);
    assert PcOk(s, t) && ResOk(s, t);
    assert B.ThreadOk(s.bar.threads[t], Gen(s));
    assert B.ResultOk(s.bar, t, Gen(s) - 2);
  }

  lemma LeaveInv(s: State, t: nat)
    requires Inv(s) && Enabled(s, Leave(t))
    ensures Inv(Step(s, Leave(t)))
  {
    var s' := Step(s, Leave(t));
    OthersKept(s, s', t);
    LeaveThread(s, t);
    if s.res[t] == B.SERIAL { Reassemble(s, s', t); } else { ReassembleDone(s, s', t); }
  }

  lemma LeaveThread(s: State, t: nat)
    requires Inv(s) && Enabled(s, Leave(t))
    ensures var s' := Step(s, Leave(t));
            PcOk(s', t) && ResOk(s', t) && (Pending(s') == Pending(s) ==> EntryOk(s', t)) &&
            (s.res[t] != B.SERIAL ==> AnnouncedOk(s'))
  {
    assert PcOk(s, t) && ResOk(s, t) && EntryOk(s, t);
    SameRound(s, t);
    SerialIsLeader(s, t);
  }

  /** Up to the record that is read next nobody is still in, and nobody has announced yet. */
  lemma ScanSoFar(s: State, t: nat)
    requires Inv(s) && t < |s.pcs| && s.pcs[t].Scanning?
    ensures IsAnnouncer(s, t) && s.table == s.base && s.announced == []
    ensures s.pcs[t].next <= |s.base| && WinnerId(s.base) == WinnerFrom(s.base, s.pcs[t].next)
    ensures s.freed <= t
  {
    assert PcOk(s, t);
    SameRound(s, t);
    FreedAreDone(s, t);
  }

  lemma AnnounceInv(s: State, t: nat, x: Announcement)
    requires Inv(s) && Enabled(s, Read(t)) && x.thread == t
    requires if x.Names? then x.winner == WinnerId(s.base) else t != 0
    ensures Inv(s.(pcs := s.pcs[t := Done], announced := s.announced + [x]))
  {
    var s' := s.(pcs := s.pcs[t := Done], announced := s.announced + [x]);
    OthersKept(s, s', t);
    AnnounceThread(s, t, x);
    ReassembleDone(s, s', t);
  }

  lemma AnnounceThread(s: State, t: nat, x: Announcement)
    requires Inv(s) && Enabled(s, Read(t)) && x.thread == t
    requires if x.Names? then x.winner == WinnerId(s.base) else t != 0
    ensures var s' := s.(pcs := s.pcs[t := Done], announced := s.announced + [x]);
            PcOk(s', t) && ResOk(s', t) && (Pending(s') == Pending(s) ==> EntryOk(s', t)) && AnnouncedOk(s')
  {
    assert PcOk(s, t) && ResOk(s, t) && EntryOk(s, t);
    ScanSoFar(s, t);
  }

  lemma ReadInv(s: State, t: nat)
    requires Inv(s) && Enabled(s, Read(t))
    ensures Inv(Step(s, Read(t)))
  {
    ScanSoFar(s, t);
    var i := s.pcs[t].next;
    if i < s.freed {
      assert s.pcs[0].Done?;
      AnnounceInv(s, t, ReadsFreed(t));
    } else if i >= |s.table| {
      AnnounceInv(s, t, Names(t, -1));
    } else if s.table[i].playing {
      AnnounceInv(s, t, Names(t, i));
    } else {
      var s' := Step(s, Read(t));
      assert PcOk(s, t) && ResOk(s, t) && EntryOk(s, t);
      OthersKept(s, s', t);
      Reassemble(s, s', t);
    }
  }

  lemma FreeInv(s: State)
    requires Inv(s) && Enabled(s, JoinAndFree)
    ensures Inv(Step(s, JoinAndFree))
  {
    var s' := Step(s, JoinAndFree);
    forall u | 0 <= u < |s.pcs| ensures PcOk(s', u) && ResOk(s', u) && EntryOk(s', u) {
      assert PcOk(s, u) && ResOk(s, u) && EntryOk(s, u);
    }
  }

  lemma StepInv(s: State, a: Action)
    requires Inv(s) && Enabled(s, a)
    ensures Inv(Step(s, a))
  {
    match a
    case Call(t) => if s.bar.fields.waiting + 1 < s.bar.max { WaitingCallInv(s, t); } else { LastCallInv(s, t); }
    case Wake(t) => WakeInv(s, t);
    case Retry(t) => RetryInv(s, t);
    case Look(t) => LookInv(s, t);
    case Roll(t, v) => RollInv(s, t, v);
    case Judge(t) => JudgeInv(s, t);
    case Leave(t) => LeaveInv(s, t);
    case Read(t) => ReadInv(s, t);
    case JoinAndFree => FreeInv(s);
  }

  // ---------------------------------------------------------------- main theorems

  /** The results of two dice, one entry per player. */
  predicate LegalRolls(n: nat, rolls: seq<int>) {
    |rolls| == n && forall i :: 0 <= i < n ==> 2 <= rolls[i] <= 12
  }

  predicate AllLegal(n: nat, rounds: seq<seq<int>>) {
    forall k :: 0 <= k < |rounds| ==> LegalRolls(n, rounds[k])
  }

  function RollAll(t: Table, rolls: seq<int>): (r: Table)
    requires |rolls| == |t|
    ensures |r| == |t|
  {
    seq(|t|, i requires 0 <= i < |t| => if t[i].playing then t[i].(result := rolls[i]) else t[i])
  }

  /** The sequential game: in each round all players still in roll, then the round is judged. */
  function Play(start: Table, rounds: seq<seq<int>>): (r: Table)
    requires AllLegal(|start|, rounds)
    ensures |r| == |start|
    decreases |rounds|
  {
    if rounds == [] then start
    else
      var k := |rounds| - 1;
      Eliminate(RollAll(Play(start, rounds[..k]), rounds[k]))
  }

  /** Rounds that have been rolled and judged. */
  function RoundsDone(s: State): int {
    Gen(s) / 2 - if Pending(s) then 1 else 0
  }

  // ---------------------------------------------------------------- the rolls of a run

  /** The values that thread t rolls in a run, in order. */
  function RollsBy(actions: seq<Action>, t: nat): seq<int> {
    if actions == [] then []
    else
      var a := actions[|actions| - 1];
      RollsBy(actions[..|actions| - 1], t) + (if a.Roll? && a.t == t then [a.value] else [])
  }

  lemma RollAdded(done: seq<Action>, a: Action, t: nat)
    ensures RollsBy(done + [a], t) == RollsBy(done, t) + if a.Roll? && a.t == t then [a.value] else []
  {
    assert (done + [a])[..|done|] == done;
  }

  /** Thread t has rolled once in every round judged, and its roll of the round being played is in the table. */
  ghost predicate RollsOk(s: State, done: seq<Action>, t: nat)
    requires Shaped(s) && t < |s.pcs|
  {
    var r := RollsBy(done, t);
    |r| == RoundsDone(s) + (if Rolled(s, t) then 1 else 0) &&
    (Rolled(s, t) && s.base[t].playing ==> |r| > 0 && s.table[t].result == r[|r| - 1])
  }

  ghost predicate AllRollsOk(s: State, done: seq<Action>) {
    Shaped(s) && forall t: nat :: t < |s.pcs| ==> RollsOk(s, done, t)
  }

  /** The rolls of round k are those that the players still in have rolled as their k-th. */
  ghost predicate RoundMatches(start: Table, rounds: seq<seq<int>>, done: seq<Action>, k: nat)
    requires AllLegal(|start|, rounds) && k < |rounds|
  {
    var t := Play(start, rounds[..k]);
    CountPlaying(t) >= 2 &&
    forall u: nat :: u < |start| && t[u].playing ==>
      k < |RollsBy(done, u)| && rounds[k][u] == RollsBy(done, u)[k]
  }

  ghost predicate RoundsMatch(start: Table, rounds: seq<seq<int>>, done: seq<Action>)
    requires AllLegal(|start|, rounds)
  {
    forall k: nat :: k < |rounds| ==> RoundMatches(start, rounds, done, k)
  }

  /** Who has rolled in the round being played changes with a roll and with an elimination only. */
  lemma RolledKept(s: State, a: Action, u: nat)
    requires Inv(s) && Enabled(s, a) && !a.Roll? && !a.Judge? && u < |s.pcs|
    ensures var s' := Step(s, a);
            Shaped(s') && |s'.pcs| == |s.pcs| && (Rolled(s', u) <==> Rolled(s, u)) &&
            s'.table == s.table && s'.base == s.base
  {
    if a.Call? { CallRolled(s, a.t, u); } else if a.Retry? { RetryRolled(s, a.t, u); } else { OtherRolled(s, a, u); }
  }

  lemma RetryRolled(s: State, t: nat, u: nat)
    requires Inv(s) && Enabled(s, Retry(t)) && u < |s.pcs|
    ensures var s' := Step(s, Retry(t));
            Shaped(s') && |s'.pcs| == |s.pcs| && (Rolled(s', u) <==> Rolled(s, u)) &&
            s'.table == s.table && s'.base == s.base
  {
    RetryThread(s, t);
    OthersKept(s, Step(s, Retry(t)), t);
  }

  lemma OtherRolled(s: State, a: Action, u: nat)
    requires Inv(s) && Enabled(s, a) && u < |s.pcs|
    requires !a.Roll? && !a.Judge? && !a.Call? && !a.Retry?
    ensures var s' := Step(s, a);
            Shaped(s') && |s'.pcs| == |s.pcs| && (Rolled(s', u) <==> Rolled(s, u)) &&
            s'.table == s.table && s'.base == s.base
  {
    if !a.JoinAndFree? {
      assert PcOk(s, a.t);
      OthersKept(s, Step(s, a), a.t);
    }
  }

  lemma CallRolled(s: State, t: nat, u: nat)
    requires Inv(s) && Enabled(s, Call(t)) && u < |s.pcs|
    ensures var s' := Step(s, Call(t));
            Shaped(s') && |s'.pcs| == |s.pcs| && (Rolled(s', u) <==> Rolled(s, u)) &&
            s'.table == s.table && s'.base == s.base
  {
    var s' := Step(s, Call(t));
    assert PcOk(s, t);
    if s.bar.fields.waiting + 1 < s.bar.max {
      WaitingCallThread(s, t);
      OthersKept(s, s', t);
    } else {
      LastCallThread(s, t, u);
      LastCallThread(s, t, t);
      if Pending(s') {
        var v :| 0 <= v < |s'.pcs| && s'.pcs[v].Eliminating?;
        LastCallThread(s, t, v);
      }
    }
  }

  lemma RollRolled(s: State, t: nat, v: int, u: nat)
    requires Inv(s) && Enabled(s, Roll(t, v)) && u < |s.pcs|
    ensures var s' := Step(s, Roll(t, v));
            Shaped(s') && |s'.pcs| == |s.pcs| && s'.base == s.base &&
            (Rolled(s', u) <==> Rolled(s, u) || u == t) && !Rolled(s, t) &&
            (u == t && s.base[u].playing ==> s'.table[u].result == v) && (u != t ==> s'.table[u] == s.table[u])
  {
    assert PcOk(s, t) && EntryOk(s, t);
    OthersKept(s, Step(s, Roll(t, v)), t);
    if Pending(s) {
      var w :| 0 <= w < |s.pcs| && s.pcs[w].Eliminating?;
      AllRolled(s, w);
    }
  }

  lemma JudgeRolled(s: State, t: nat, u: nat)
    requires Inv(s) && Enabled(s, Judge(t)) && u < |s.pcs|
    ensures Rolled(s, u) && !Rolled(Step(s, Judge(t)), u)
  {
    var s' := Step(s, Judge(t));
    AllRolled(s, t);
    JudgeThread(s, t, u);
    if Pending(s') {
      var v :| 0 <= v < |s'.pcs| && s'.pcs[v].Eliminating?;
      JudgeThread(s, t, v);
    }
    assert PcOk(s, t);
  }

  lemma RollsStep(s: State, done: seq<Action>, a: Action)
    requires Inv(s) && Enabled(s, a) && AllRollsOk(s, done)
    ensures AllRollsOk(Step(s, a), done + [a])
  {
    var s' := Step(s, a);
    if a.Judge? {
      var rolls := JudgeRefines(s, a.t, done);
    } else if a.Call? {
      CallStutters(s, a.t);
    } else if a.Retry? {
      RetryStutters(s, a.t);
    } else {
      OthersStutter(s, a);
    }
    forall u: nat | u < |s.pcs| ensures |s'.pcs| == |s.pcs| && Shaped(s') && RollsOk(s', done + [a], u) {
      assert RollsOk(s, done, u);
      RollsStepThread(s, done, a, u);
    }
  }

  lemma RollsStepThread(s: State, done: seq<Action>, a: Action, u: nat)
    requires Inv(s) && Enabled(s, a) && u < |s.pcs| && RollsOk(s, done, u)
    requires RoundsDone(Step(s, a)) == RoundsDone(s) + if a.Judge? then 1 else 0
    ensures var s' := Step(s, a); |s'.pcs| == |s.pcs| && Shaped(s') && RollsOk(s', done + [a], u)
  {
    RollAdded(done, a, u);
    if a.Roll? {
      RollRolled(s, a.t, a.value, u);
    } else if a.Judge? {
      JudgeRolled(s, a.t, u);
    } else {
      RolledKept(s, a, u);
    }
  }

  lemma JudgeRefines(s: State, t: nat, done: seq<Action>) returns (rolls: seq<int>)
    requires Inv(s) && Enabled(s, Judge(t)) && AllRollsOk(s, done)
    ensures var s' := Step(s, Judge(t));
            LegalRolls(|s.base|, rolls) && s'.base == Eliminate(RollAll(s.base, rolls)) &&
            RoundsDone(s') == RoundsDone(s) + 1
    ensures CountPlaying(s.base) >= 2 && RoundsDone(s) >= 0
    ensures forall u: nat :: u < |s.base| && s.base[u].playing ==>
              RoundsDone(s) < |RollsBy(done, u)| && rolls[u] == RollsBy(done, u)[RoundsDone(s)]
  {
    var s' := Step(s, Judge(t));
    AllRolled(s, t);
    assert PcOk(s, t);
    forall u: nat | u < |s.base| && s.base[u].playing
      ensures RoundsDone(s) < |RollsBy(done, u)| && s.table[u].result == RollsBy(done, u)[RoundsDone(s)]
    {
      assert RollsOk(s, done, u);
    }
    rolls := seq(|s.table|, i requires 0 <= i < |s.table| => if s.base[i].playing then s.table[i].result else 2);
    forall u | 0 <= u < |s.table|
      ensures 2 <= rolls[u] <= 12 && RollAll(s.base, rolls)[u] == s.table[u]
    {
      assert EntryOk(s, u);
    }
    assert RollAll(s.base, rolls) == s.table;
    forall u | 0 <= u < |s'.pcs| ensures !s'.pcs[u].Eliminating? {
      assert PcOk(s, u) && PcOk(s, t);
    }
  }

  lemma CallStutters(s: State, t: nat)
    requires Inv(s) && Enabled(s, Call(t))
    ensures RoundsDone(Step(s, Call(t))) == RoundsDone(s)
  {
    var s' := Step(s, Call(t));
    assert PcOk(s, t);
    if s.bar.fields.waiting + 1 < s.bar.max {
      OthersKept(s, s', t);
    } else {
      OthersInside(s, t);
      assert s'.bar.threads[t].results == s.bar.threads[t].results + [B.SERIAL];
      assert s.pcs[t].ToSecond? ==> s'.pcs[t].Eliminating?;
    }
  }

  lemma RetryStutters(s: State, t: nat)
    requires Inv(s) && Enabled(s, Retry(t))
    ensures RoundsDone(Step(s, Retry(t))) == RoundsDone(s)
  {
    RetryThread(s, t);
    OthersKept(s, Step(s, Retry(t)), t);
  }

  lemma OthersStutter(s: State, a: Action)
    requires Inv(s) && Enabled(s, a) && !a.Judge? && !a.Call? && !a.Retry?
    ensures RoundsDone(Step(s, a)) == RoundsDone(s)
  {
    if !a.JoinAndFree? {
      assert PcOk(s, a.t);
      OthersKept(s, Step(s, a), a.t);
    }
  }

  /** What is known of the rounds judged so far when the actions `done` have led to s. */
  ghost predicate Matched(s: State, done: seq<Action>, start: Table, rounds: seq<seq<int>>) {
    |start| == |s.base| && AllLegal(|start|, rounds) && s.base == Play(start, rounds) &&
    |rounds| == RoundsDone(s) && AllRollsOk(s, done) && RoundsMatch(start, rounds, done)
  }

  lemma MatchesLater(start: Table, rounds: seq<seq<int>>, done: seq<Action>, a: Action)
    requires AllLegal(|start|, rounds) && RoundsMatch(start, rounds, done)
    ensures RoundsMatch(start, rounds, done + [a])
  {
    forall k: nat | k < |rounds| ensures RoundMatches(start, rounds, done + [a], k) {
      assert RoundMatches(start, rounds, done, k);
      forall u: nat { RollAdded(done, a, u); }
    }
  }

  lemma MatchesMore(start: Table, rounds: seq<seq<int>>, rolls: seq<int>, done: seq<Action>)
    requires AllLegal(|start|, rounds) && LegalRolls(|start|, rolls) && RoundsMatch(start, rounds, done)
    requires CountPlaying(Play(start, rounds)) >= 2
    requires forall u: nat :: u < |start| && Play(start, rounds)[u].playing ==>
               |rounds| < |RollsBy(done, u)| && rolls[u] == RollsBy(done, u)[|rounds|]
    ensures AllLegal(|start|, rounds + [rolls]) && RoundsMatch(start, rounds + [rolls], done)
  {
    var more := rounds + [rolls];
    forall k: nat | k < |more| ensures RoundMatches(start, more, done, k) {
      if k < |rounds| {
        assert RoundMatches(start, rounds, done, k) && more[..k] == rounds[..k];
      } else {
        assert more[..k] == rounds;
      }
    }
  }

  /** A step is a whole sequential round, or invisible to the sequential game. */
  lemma StepRefines(s: State, a: Action, done: seq<Action>, start: Table, rounds: seq<seq<int>>)
    returns (more: seq<seq<int>>)
    requires Inv(s) && Enabled(s, a) && Matched(s, done, start, rounds)
    ensures Matched(Step(s, a), done + [a], start, more)
  {
    RollsStep(s, done, a);
    if a.Judge? {
      var rolls := JudgeRefines(s, a.t, done);
      more := rounds + [rolls];
      assert more[..|rounds|] == rounds;
      MatchesMore(start, rounds, rolls, done);
    } else {
      if a.Call? { CallStutters(s, a.t); } else if a.Retry? { RetryStutters(s, a.t); } else { OthersStutter(s, a); }
      more := rounds;
    }
    MatchesLater(start, more, done, a);
  }

  /**
   Every run is a stuttering of the sequential game, one elimination per round, each with the values
   that the players still in have rolled for that round.
   */
  lemma {:induction false} RunRefines(s: State, actions: seq<Action>, done: seq<Action>, start: Table,
                                      rounds: seq<seq<int>>)
    returns (all: seq<seq<int>>)
    requires Inv(s) && Legal(s, actions) && Matched(s, done, start, rounds)
    ensures Inv(Run(s, actions)) && Matched(Run(s, actions), done + actions, start, all)
    decreases |actions|
  {
    if actions == [] {
      all := rounds;
      assert done + actions == done;
    } else {
      var s', more := HeadRefines(s, actions, done, start, rounds);
      MoveOne(done, actions);
      all := RunRefines(s', actions[1..], done + [actions[0]], start, more);
    }
  }

  lemma MoveOne(done: seq<Action>, actions: seq<Action>)
    requires actions != []
    ensures done + [actions[0]] + actions[1..] == done + actions
  {
  }

  lemma HeadRefines(s: State, actions: seq<Action>, done: seq<Action>, start: Table, rounds: seq<seq<int>>)
    returns (s': State, more: seq<seq<int>>)
    requires Inv(s) && Legal(s, actions) && actions != [] && Matched(s, done, start, rounds)
    ensures Inv(s') && Legal(s', actions[1..]) && Run(s, actions) == Run(s', actions[1..])
    ensures Matched(s', done + [actions[0]], start, more)
  {
    s' := Step(s, actions[0]);
    StepInv(s, actions[0]);
    more := StepRefines(s, actions[0], done, start, rounds);
  }

  predicate OnlyPlayer(t: Table, w: nat) {
    w < |t| && forall i :: 0 <= i < |t| ==> (t[i].playing <==> i == w)
  }

  lemma LastOneWins(t: Table)
    requires CountPlaying(t) == 1
    ensures WinnerId(t) >= 0 && OnlyPlayer(t, WinnerId(t))
  {
    WinnerIsFirst(t, 0);
    var w := WinnerId(t);
    if w == -1 {
      SumBounds(Playing(t), 0, 0);
      assert false;
    }
    forall i | 0 <= i < |t| && i != w ensures !t[i].playing {
      if t[i].playing {
        var u := Playing(t)[w := 0];
        SumUpdate(Playing(t), w, 0);
        assert u[i] == 1;
        SumAtLeastEach(u, i);
        assert false;
      }
    }
  }

  predicate AllDone(s: State) {
    forall t :: 0 <= t < |s.pcs| ==> s.pcs[t].Done?
  }

  /**
   The whole game. In every state a run can reach, the table since the last elimination is
   what the sequential game leads to in which the players still in roll, round by round, what they
   rolled in the run, each round with two players at least; active_players is the number still playing
   and never 0. When all threads are done exactly one has announced, nobody is left in the barrier, and
   the announcement names the only remaining player unless it read a record that main had freed.
   */
  lemma {:induction false} GameTheorem(n: nat, garbage: seq<int>, actions: seq<Action>)
    returns (rounds: seq<seq<int>>)
    requires n >= 2 && |garbage| == n && Legal(Init(n, garbage), actions)
    ensures var s := Run(Init(n, garbage), actions);
            Inv(s) && AllLegal(n, rounds) && RoundsMatch(Start(n), rounds, actions) &&
            s.base == Play(Start(n), rounds) && s.active == CountPlaying(s.base) >= 1 &&
            (AllDone(s) ==>
              s.bar.fields.waiting == 0 && |s.announced| == 1 &&
              (s.announced[0].Names? ==> s.announced[0].winner >= 0 && OnlyPlayer(s.base, s.announced[0].winner)))
  {
    InitInv(n, garbage);
    StartMatched(n, garbage);
    rounds := RunRefines(Init(n, garbage), actions, [], Start(n), []);
    assert [] + actions == actions;
    var s := Run(Init(n, garbage), actions);
    if AllDone(s) {
      SameRound(s, 0);
      LastOneWins(s.base);
      forall t | 0 <= t < |s.pcs| ensures B.Arrived(s.bar.threads, Gen(s))[t] == 0 {
        assert PcOk(s, t) && B.ThreadOk(s.bar.threads[t], Gen(s));
      }
      SumBounds(B.Arrived(s.bar.threads, Gen(s)), 0, 0);
    }
  }

  lemma StartMatched(n: nat, garbage: seq<int>)
    requires n >= 2 && |garbage| == n
    ensures Matched(Init(n, garbage), [], Start(n), [])
  {
  }

  /** Rolls, looks and announcements never overlap an elimination, and there is one eliminator at a time. */
  lemma NoOverlap(s: State, t: nat, u: nat)
    requires Inv(s) && t < |s.pcs| && u < |s.pcs| && t != u && s.pcs[t].Eliminating?
    ensures s.pcs[u] in {Top, InFirst, InSecond}
  {
    AllRolled(s, t);
    assert PcOk(s, t) && PcOk(s, u);
  }

  // ---------------------------------------------------------------- the announcement and main's clean-up

  /** Thread t has the serial value and is about to read the record with number ScanNext. */
  predicate Announcing(s: State, t: nat) {
    t < |s.pcs| == |s.res| && ((s.pcs[t].Leaving? && s.res[t] == B.SERIAL) || s.pcs[t].Scanning?)
  }

  function ScanNext(s: State, t: nat): nat
    requires Announcing(s, t)
  {
    if s.pcs[t].Leaving? then 0 else s.pcs[t].next
  }

  predicate StaleRead(s: State) {
    exists k :: 0 <= k < |s.announced| && s.announced[k].ReadsFreed?
  }

  predicate LeadsToStaleRead(s: State, actions: seq<Action>) {
    Legal(s, actions) && StaleRead(Run(s, actions))
  }

  lemma AnnouncerState(s: State, t: nat)
    requires Inv(s) && Announcing(s, t)
    ensures IsAnnouncer(s, t) && s.announced == [] && s.freed <= t
    ensures forall u :: 0 <= u < |s.pcs| ==> s.pcs[u].InFirst? || s.pcs[u].Check? || Out(s.pcs[u])
    ensures forall u :: 0 <= u < |s.pcs| && u != t ==> !Announcing(s, u)
  {
    if s.pcs[t].Leaving? { SerialIsLeader(s, t); } else { ScanSoFar(s, t); }
    SameRound(s, t);
    forall u: nat | u < |s.pcs| && u != t ensures !Announcing(s, u) {
      if s.pcs[u].Leaving? { SerialIsLeader(s, u); }
      assert PcOk(s, u);
    }
    FreedAreDone(s, t);
  }

  /** The announcer is past all records that main can free before it, or has announced cleanly. */
  ghost predicate Safe(s: State, t: nat) {
    Inv(s) && t < |s.pcs| && IsAnnouncer(s, t) && !StaleRead(s) &&
    (s.pcs[t].Done? || (Announcing(s, t) && ScanNext(s, t) >= t))
  }

  /** Once a thread is out of the loop the generation stays, and a step changes the state of one thread. */
  lemma StepAfterGame(s: State, t: nat, a: Action)
    requires Inv(s) && t < |s.pcs| && Out(s.pcs[t]) && Enabled(s, a)
    ensures var s' := Step(s, a);
            Gen(s') == Gen(s) && s'.bar.leaders == s.bar.leaders && s'.res == s.res && |s'.pcs| == |s.pcs| &&
            (!a.Read? ==> s'.announced == s.announced) &&
            (a.JoinAndFree? || a.t != t ==> s'.pcs[t] == s.pcs[t])
  {
    SameRound(s, t);
    if a.Retry? || a.Wake? {
      assert PcOk(s, a.t) && B.ThreadOk(s.bar.threads[a.t], Gen(s));
    }
  }

  /** Nobody but the announcer announces. */
  lemma OnlyAnnouncerReads(s: State, t: nat, u: nat)
    requires Inv(s) && IsAnnouncer(s, t) && Enabled(s, Read(u))
    ensures u == t
  {
    ScanSoFar(s, u);
  }

  lemma SafeStep(s: State, t: nat, a: Action)
    requires Safe(s, t) && Enabled(s, a)
    ensures Safe(Step(s, a), t)
  {
    StepInv(s, a);
    StepAfterGame(s, t, a);
    if a.Read? { SafeRead(s, t, a.t); } else { assert PcOk(s, t); }
  }

  lemma SafeRead(s: State, t: nat, u: nat)
    requires Safe(s, t) && Enabled(s, Read(u))
    ensures u == t
    ensures var s' := Step(s, Read(u));
            |s'.pcs| == |s.pcs| && !StaleRead(s') &&
            (s'.pcs[t].Done? || (Announcing(s', t) && ScanNext(s', t) >= t))
  {
    OnlyAnnouncerReads(s, t, u);
    AnnouncerState(s, t);
  }

  lemma {:induction false} SafeRun(s: State, t: nat, actions: seq<Action>)
    requires Safe(s, t) && Legal(s, actions)
    ensures !StaleRead(Run(s, actions))
    decreases |actions|
  {
    if actions == [] {
    } else {
      SafeStep(s, t, actions[0]);
      SafeRun(Step(s, actions[0]), t, actions[1..]);
    }
  }

  /** How many steps a thread other than the announcer is from its end, once the game is over. */
  function ToTheEnd(pc: PC): nat {
    match pc
    case Done => 0
    case Leaving => 1
    case Check => 2
    case _ => 3
  }

  lemma FirstWaitEnds(s: State, t: nat, u: nat)
    requires Inv(s) && t < |s.pcs| && Out(s.pcs[t]) && u < |s.pcs| && s.pcs[u].InFirst?
    ensures Enabled(s, Retry(u)) && Step(s, Retry(u)).pcs == s.pcs[u := Check]
  {
    SameRound(s, t);
    assert PcOk(s, u) && B.ThreadOk(s.bar.threads[u], Gen(s));
  }

  /** Once the game is over, any other thread can step on alone. */
  lemma OtherStepsOn(s: State, t: nat, u: nat) returns (a: Action)
    requires Inv(s) && Announcing(s, t) && u < |s.pcs| && u != t && !s.pcs[u].Done?
    ensures Enabled(s, a) && Inv(Step(s, a))
    ensures var s' := Step(s, a);
            Announcing(s', t) && ScanNext(s', t) == ScanNext(s, t) && s'.freed == s.freed &&
            |s'.pcs| == |s.pcs| && ToTheEnd(s'.pcs[u]) < ToTheEnd(s.pcs[u])
  {
    AnnouncerState(s, t);
    assert !Announcing(s, u);
    if s.pcs[u].InFirst? {
      FirstWaitEnds(s, t, u);
      a := Retry(u);
    } else if s.pcs[u].Check? {
      SameRound(s, t);
      a := Look(u);
    } else {
      a := Leave(u);
    }
    StepInv(s, a);
    StepAfterGame(s, t, a);
  }

  lemma Prepend(s: State, a: Action, rest: seq<Action>)
    requires Enabled(s, a) && Legal(Step(s, a), rest)
    ensures Legal(s, [a] + rest) && Run(s, [a] + rest) == Run(Step(s, a), rest)
  {
    assert ([a] + rest)[1..] == rest;
  }

  /** The next read finds a freed record. */
  lemma ReadStale(s: State, t: nat) returns (actions: seq<Action>)
    requires Inv(s) && Announcing(s, t) && ScanNext(s, t) < s.freed
    ensures LeadsToStaleRead(s, actions)
  {
    AnnouncerState(s, t);
    var s1 := if s.pcs[t].Leaving? then Step(s, Leave(t)) else s;
    var s2 := Step(s1, Read(t));
    assert s2.announced[0].ReadsFreed?;
    assert Legal(s2, []) && Run(s2, []) == s2;
    Prepend(s1, Read(t), []);
    actions := [Read(t)] + [];
    if s.pcs[t].Leaving? {
      Prepend(s, Leave(t), actions);
      actions := [Leave(t)] + actions;
    }
  }

  /** Threads with smaller numbers can finish and main can free their records before the next read. */
  lemma {:induction false} ReachStaleRead(s: State, t: nat) returns (actions: seq<Action>)
    requires Inv(s) && Announcing(s, t) && ScanNext(s, t) < t
    ensures LeadsToStaleRead(s, actions)
    decreases ScanNext(s, t) + 1 - s.freed, if s.freed < |s.pcs| then ToTheEnd(s.pcs[s.freed]) else 0
  {
    AnnouncerState(s, t);
    if ScanNext(s, t) < s.freed {
      actions := ReadStale(s, t);
    } else {
      var a := JoinAndFree;
      if s.pcs[s.freed].Done? {
        StepInv(s, a);
      } else {
        a := OtherStepsOn(s, t, s.freed);
      }
      var rest := ReachStaleRead(Step(s, a), t);
      Prepend(s, a, rest);
      actions := [a] + rest;
    }
  }

  /**
   The exact condition for a clean announcement, while main joins and frees in the order of
   the thread numbers: from a state in which thread t is about to read record i of its scan,
   some continuation reads a freed record if and only if i < t. Before the first read, that is
   if and only if the announcer is not thread 0.
   */
  lemma StaleReadIff(s: State, t: nat)
    requires Inv(s) && Announcing(s, t)
    ensures (exists actions :: LeadsToStaleRead(s, actions)) <==> ScanNext(s, t) < t
    ensures s.pcs[t].Leaving? ==>
              ((exists actions :: LeadsToStaleRead(s, actions)) <==> t != 0)
  {
    AnnouncerState(s, t);
    if ScanNext(s, t) < t {
      var actions := ReachStaleRead(s, t);
    } else {
      forall actions | Legal(s, actions) ensures !LeadsToStaleRead(s, actions) {
        SafeRun(s, t, actions);
      }
    }
  }

  lemma {:induction false} RunInv(s: State, actions: seq<Action>)
    requires Inv(s) && Legal(s, actions)
    ensures Inv(Run(s, actions))
    decreases |actions|
  {
    if actions == [] {
    } else {
      StepInv(s, actions[0]);
      RunInv(Step(s, actions[0]), actions[1..]);
    }
  }

  /** A step that is not a wake-up, a re-check that sleeps again, or main's clean-up. */
  predicate Progress(s: State, a: Action) {
    Enabled(s, a) && !a.Wake? && !a.JoinAndFree? && (a.Retry? ==> B.CanMove(s.bar, a.t))
  }

  /** Until all threads are done some thread can make progress. */
  lemma NoDeadlock(s: State)
    requires Inv(s) && !AllDone(s)
    ensures exists a :: Progress(s, a)
  {
    B.NoLostWakeup(s.bar);
    var t: nat :| B.CanMove(s.bar, t);
    if s.pcs[t].Done? {
      SameRound(s, t);
      t :| 0 <= t < |s.pcs| && !s.pcs[t].Done?;
      assert PcOk(s, t) && B.ThreadOk(s.bar.threads[t], Gen(s));
    }
    assert PcOk(s, t);
    var a := match s.pcs[t]
      case Top => Call(t)
      case ToSecond => Call(t)
      case Check => Look(t)
      case ToRoll => Roll(t, 2)
      case Eliminating => Judge(t)
      case Leaving => Leave(t)
      case Scanning(_) => Read(t)
      case _ => Retry(t);
    assert Progress(s, a);
  }
}
