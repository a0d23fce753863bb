/**
 Runs of the dice game: every sequential game is played by some run from the start of the program; and
 for every number of players there is a run whose announcement reads a record that main has freed.
 */
module DiceRuns {
  import opened Sums
  import opened DiceGame
  import B = Barrier

  /** The run is possible and leads there. */
  predicate Goes(s: State, actions: seq<Action>, end: State) {
    Legal(s, actions) && Run(s, actions) == end
  }

  lemma GoesOne(s: State, a: Action, end: State)
    requires Enabled(s, a) && Step(s, a) == end
    ensures Goes(s, [a], end)
  {
    Prepend(s, a, []);
    assert [a] + [] == [a];
  }

  lemma {:induction false} RunConcat(s: State, a: seq<Action>, m: State, b: seq<Action>, end: State)
    requires Goes(s, a, m) && Goes(m, b, end)
    ensures Goes(s, a + b, end)
    decreases |a|
  {
    if a == [] {
      assert a + b == b;
    } else {
      assert (a + b)[1..] == a[1..] + b;
      RunConcat(Step(s, a[0]), a[1..], m, b, end);
    }
  }

  lemma GoesOn(s: State, actions: seq<Action>, m: State, a: Action, end: State)
    requires Goes(s, actions, m) && Enabled(m, a) && Step(m, a) == end
    ensures Goes(s, actions + [a], end)
  {
    GoesOne(m, a, end);
    RunConcat(s, actions, m, [a], end);
  }

  // ---------------------------------------------------------------- the barrier on the way

  function Repeat(g: nat, v: int): (r: seq<int>)
    ensures |r| == g && forall i :: 0 <= i < g ==> r[i] == v
  {
    seq(g, _ => v)
  }

  /** In generation g threads below k wait, the others but the last have not come out of the one before. */
  function ThreadAt(n: nat, g: nat, k: nat, t: nat): B.Thread {
    if t + 1 == n then B.Thread(B.Outside, g, Repeat(g, B.SERIAL))
    else if t < k then B.Thread(B.Asleep(g), g + 1, Repeat(g, 0))
    else if g == 0 then B.Thread(B.Outside, 0, [])
    else B.Thread(B.Awake(g - 1), g, Repeat(g - 1, 0))
  }

  function BarAt(n: nat, g: nat, k: nat): (s: B.State)
    ensures |s.threads| == n && forall t: nat {:trigger s.threads[t]} :: t < n ==> s.threads[t] == ThreadAt(n, g, k, t)
  {
    B.State(n, B.Fields(k, g), seq(n, (t: nat) requires t < n => ThreadAt(n, g, k, t)),
            seq(g, _ => if n > 0 then n - 1 else 0))
  }

  lemma CallsFirst(n: nat, k: nat)
    requires k + 1 < n
    ensures B.Enabled(BarAt(n, 0, k), B.Call(k)) && B.Step(0, BarAt(n, 0, k), B.Call(k)) == BarAt(n, 0, k + 1)
  {
    assert B.Step(0, BarAt(n, 0, k), B.Call(k)).threads == BarAt(n, 0, k + 1).threads;
  }

  /** Thread k comes out of the wait before. */
  lemma ComesOut(n: nat, g: nat, k: nat)
    requires k + 1 < n && g >= 1
    ensures B.Enabled(BarAt(n, g, k), B.Retry(k))
    ensures B.Step(0, BarAt(n, g, k), B.Retry(k)) ==
            BarAt(n, g, k).(threads := BarAt(n, g, k).threads[k := B.Thread(B.Outside, g, Repeat(g, 0))])
  {
    assert Repeat(g - 1, 0) + [0] == Repeat(g, 0);
  }

  /** And calls the next. */
  lemma CallsNext(n: nat, g: nat, k: nat)
    requires k + 1 < n && g >= 1
    ensures var s := BarAt(n, g, k).(threads := BarAt(n, g, k).threads[k := B.Thread(B.Outside, g, Repeat(g, 0))]);
            B.Enabled(s, B.Call(k)) && B.Step(0, s, B.Call(k)) == BarAt(n, g, k + 1)
  {
    var s := BarAt(n, g, k).(threads := BarAt(n, g, k).threads[k := B.Thread(B.Outside, g, Repeat(g, 0))]);
    assert B.Step(0, s, B.Call(k)).threads == BarAt(n, g, k + 1).threads;
  }

  lemma LastCalls(n: nat, g: nat)
    requires n >= 2
    ensures B.Enabled(BarAt(n, g, n - 1), B.Call(n - 1))
    ensures B.Step(0, BarAt(n, g, n - 1), B.Call(n - 1)) == BarAt(n, g + 1, 0)
  {
    var s := B.Step(0, BarAt(n, g, n - 1), B.Call(n - 1));
    assert Repeat(g, B.SERIAL) + [B.SERIAL] == Repeat(g + 1, B.SERIAL);
    assert s.threads == BarAt(n, g + 1, 0).threads;
    assert s.leaders == BarAt(n, g + 1, 0).leaders;
  }

  // ---------------------------------------------------------------- a round on the way

  /** The table when players below k have rolled. */
  function RolledTable(t: Table, rolls: seq<int>, k: nat): (r: Table)
    requires |rolls| == |t|
    ensures |r| == |t|
    ensures forall u: nat {:trigger r[u]} :: u < |t| ==>
              r[u] == if u < k && t[u].playing then t[u].(result := rolls[u]) else t[u]
  {
    seq(|t|, (u: nat) requires u < |t| => if u < k && t[u].playing then t[u].(result := rolls[u]) else t[u])
  }

  /** What `res` of the threads holds when those below k have come out of the last second wait, if there was one. */
  function ResAt(n: nat, was: seq<int>, g: nat, k: nat): (r: seq<int>)
    requires |was| == n
    ensures |r| == n
    ensures forall t: nat {:trigger r[t]} :: t < n ==>
              r[t] == if g == 0 then was[t] else if t + 1 == n then B.SERIAL else if t < k then 0 else was[t]
  {
    seq(n, (t: nat) requires t < n =>
      if g == 0 then was[t] else if t + 1 == n then B.SERIAL else if t < k then 0 else was[t])
  }

  /** Before the first wait of a round, with threads below k already waiting. */
  function FirstPc(n: nat, g: nat, k: nat, t: nat): PC {
    if g == 0 then (if t < k then InFirst else Top)
    else if t + 1 == n then Top
    else if t < k then InFirst
    else InSecond
  }

  /** Before the second wait. */
  function SecondPc(n: nat, k: nat, t: nat): PC {
    if t + 1 == n then Check else if t < k then InSecond else InFirst
  }

  function FirstAt(n: nat, table: Table, was: seq<int>, g: nat, k: nat): (s: State)
    requires |was| == |table| == n
    ensures Shaped(s) && |s.pcs| == n
    ensures forall t: nat {:trigger s.pcs[t]} :: t < n ==> s.pcs[t] == FirstPc(n, g, k, t)
  {
    State(BarAt(n, g, k), table, CountPlaying(table), seq(n, (t: nat) requires t < n => FirstPc(n, g, k, t)),
          ResAt(n, was, g, k), table, [], 0)
  }

  function SecondAt(n: nat, table: Table, rolls: seq<int>, res: seq<int>, g: nat, k: nat): (s: State)
    requires |res| == |table| == |rolls| == n
    ensures Shaped(s) && |s.pcs| == n
    ensures forall t: nat {:trigger s.pcs[t]} :: t < n ==> s.pcs[t] == SecondPc(n, k, t)
  {
    State(BarAt(n, g, k), RolledTable(table, rolls, k), CountPlaying(table),
          seq(n, (t: nat) requires t < n => SecondPc(n, k, t)), res, table, [], 0)
  }

  lemma {:induction false} RollsConcat(a: seq<Action>, b: seq<Action>, t: nat)
    ensures RollsBy(a + b, t) == RollsBy(a, t) + RollsBy(b, t)
    decreases |b|
  {
    if b == [] {
      assert a + b == a;
    } else {
      var b', x := b[..|b| - 1], b[|b| - 1];
      assert b == b' + [x] && a + b == (a + b') + [x];
      RollsConcat(a, b', t);
      RollAdded(a + b', x, t);
      RollAdded(b', x, t);
    }
  }

  // ---------------------------------------------------------------- a schedule

  /** Thread k comes out of the second wait, if there was one, and into the first. */
  function TurnToWait(g: nat, k: nat): seq<Action> {
    if g == 0 then [Call(k)] else [Retry(k), Call(k)]
  }

  /** All threads below k do so. */
  function WaitActions(g: nat, k: nat): seq<Action> {
    if k == 0 then []
    else WaitActions(g, k - 1) + TurnToWait(g, k - 1)
  }

  /** Threads below k come out of the first wait, roll, and go into the second. */
  function RollActions(rolls: seq<int>, k: nat): seq<Action>
    requires k <= |rolls|
  {
    if k == 0 then []
    else RollActions(rolls, k - 1) + [Retry(k - 1), Look(k - 1), Roll(k - 1, rolls[k - 1]), Call(k - 1)]
  }

  /** Thread l rolls last, completes the second wait and eliminates. */
  function LastActions(l: nat, v: int): seq<Action> {
    [Look(l), Roll(l, v), Call(l), Judge(l)]
  }

  function RoundActions(rolls: seq<int>, g: nat): seq<Action>
    requires rolls != []
  {
    ComingIn(g, |rolls| - 1) + TurnsOf(rolls)
  }

  function ComingIn(g: nat, l: nat): seq<Action> {
    WaitActions(g, l) + [Call(l)]
  }

  function TurnsOf(rolls: seq<int>): seq<Action>
    requires rolls != []
  {
    RollActions(rolls, |rolls| - 1) + LastActions(|rolls| - 1, rolls[|rolls| - 1])
  }

  /** Round after round. */
  function GameActions(n: nat, rounds: seq<seq<int>>): seq<Action>
    requires n >= 1 && AllLegal(n, rounds)
    decreases |rounds|
  {
    if rounds == [] then []
    else
      var k := |rounds| - 1;
      GameActions(n, rounds[..k]) + RoundActions(rounds[k], 2 * k)
  }

  // ---------------------------------------------------------------- what it rolls

  lemma {:induction false} WaitRolls(g: nat, k: nat, t: nat)
    ensures RollsBy(WaitActions(g, k), t) == []
  {
    if k > 0 {
      WaitRolls(g, k - 1, t);
      NoRollsIn(k - 1, t);
      RollsConcat(WaitActions(g, k - 1), TurnToWait(g, k - 1), t);
    }
  }

  lemma NoRollsIn(c: nat, t: nat)
    ensures RollsBy([Call(c)], t) == [] && RollsBy([Retry(c), Call(c)], t) == []
  {
    RollAdded([], Retry(c), t);
    RollAdded([Retry(c)], Call(c), t);
    RollAdded([], Call(c), t);
    assert [] + [Retry(c)] == [Retry(c)] && [] + [Call(c)] == [Call(c)];
    assert [Retry(c)] + [Call(c)] == [Retry(c), Call(c)];
  }

  lemma {:induction false} RollRolls(rolls: seq<int>, k: nat, t: nat)
    requires k <= |rolls|
    ensures RollsBy(RollActions(rolls, k), t) == if t < k then [rolls[t]] else []
  {
    if k > 0 {
      RollRolls(rolls, k - 1, t);
      RollsOfOne(k - 1, rolls[k - 1], t);
      RollsConcat(RollActions(rolls, k - 1), [Retry(k - 1), Look(k - 1), Roll(k - 1, rolls[k - 1]), Call(k - 1)], t);
    }
  }

  lemma RoundRolls(rolls: seq<int>, g: nat, t: nat)
    requires t < |rolls|
    ensures RollsBy(RoundActions(rolls, g), t) == [rolls[t]]
  {
    ComingInRolls(g, |rolls| - 1, t);
    TurnsRoll(rolls, t);
    RollsConcat(ComingIn(g, |rolls| - 1), TurnsOf(rolls), t);
  }

  lemma ComingInRolls(g: nat, l: nat, t: nat)
    ensures RollsBy(ComingIn(g, l), t) == []
  {
    WaitRolls(g, l, t);
    RollAdded(WaitActions(g, l), Call(l), t);
  }

  lemma JoinRolls(a: seq<Action>, b: seq<Action>, t: nat, x: seq<int>, y: seq<int>)
    requires RollsBy(a, t) == x && RollsBy(b, t) == y
    ensures RollsBy(a + b, t) == x + y
  {
    RollsConcat(a, b, t);
  }

  lemma TurnsRoll(rolls: seq<int>, t: nat)
    requires t < |rolls|
    ensures RollsBy(TurnsOf(rolls), t) == [rolls[t]]
  {
    var l := |rolls| - 1;
    if t < l { EarlyTurn(rolls, t); } else { LastTurn(rolls); }
  }

  lemma EarlyTurn(rolls: seq<int>, t: nat)
    requires t + 1 < |rolls|
    ensures RollsBy(TurnsOf(rolls), t) == [rolls[t]]
  {
    var l := |rolls| - 1;
    RollRolls(rolls, l, t);
    LastRollsBy(l, rolls[l], t);
    JoinRolls(RollActions(rolls, l), LastActions(l, rolls[l]), t, [rolls[t]], []);
  }

  lemma LastTurn(rolls: seq<int>)
    requires rolls != []
    ensures RollsBy(TurnsOf(rolls), |rolls| - 1) == [rolls[|rolls| - 1]]
  {
    var l := |rolls| - 1;
    RollRolls(rolls, l, l);
    LastRollsBy(l, rolls[l], l);
    JoinRolls(RollActions(rolls, l), LastActions(l, rolls[l]), l, [], [rolls[l]]);
  }

  lemma LastRollsBy(l: nat, v: int, t: nat)
    ensures RollsBy(LastActions(l, v), t) == if t == l then [v] else []
  {
    RollAdded([], Look(l), t);
    RollAdded([Look(l)], Roll(l, v), t);
    RollAdded([Look(l), Roll(l, v)], Call(l), t);
    RollAdded([Look(l), Roll(l, v), Call(l)], Judge(l), t);
    assert [] + [Look(l)] == [Look(l)] && [Look(l)] + [Roll(l, v)] == [Look(l), Roll(l, v)];
    assert [Look(l), Roll(l, v)] + [Call(l)] == [Look(l), Roll(l, v), Call(l)];
    assert [Look(l), Roll(l, v), Call(l)] + [Judge(l)] == [Look(l), Roll(l, v), Call(l), Judge(l)];
  }

  lemma RollsOfOne(k: nat, v: int, t: nat)
    ensures RollsBy([Retry(k), Look(k), Roll(k, v), Call(k)], t) == if t == k then [v] else []
  {
    RollAdded([], Retry(k), t);
    RollAdded([Retry(k)], Look(k), t);
    RollAdded([Retry(k), Look(k)], Roll(k, v), t);
    RollAdded([Retry(k), Look(k), Roll(k, v)], Call(k), t);
    assert [] + [Retry(k)] == [Retry(k)] && [Retry(k)] + [Look(k)] == [Retry(k), Look(k)];
    assert [Retry(k), Look(k)] + [Roll(k, v)] == [Retry(k), Look(k), Roll(k, v)];
    assert [Retry(k), Look(k), Roll(k, v)] + [Call(k)] == [Retry(k), Look(k), Roll(k, v), Call(k)];
  }

  /** What thread t rolls in these rounds. */
  function Column(n: nat, rounds: seq<seq<int>>, t: nat): (r: seq<int>)
    requires AllLegal(n, rounds) && t < n
    ensures |r| == |rounds|
  {
    seq(|rounds|, (k: nat) requires k < |rounds| => rounds[k][t])
  }

  lemma ColumnSplits(n: nat, rounds: seq<seq<int>>, t: nat)
    requires AllLegal(n, rounds) && rounds != [] && AllLegal(n, rounds[..|rounds| - 1]) && t < n
    ensures Column(n, rounds, t) == Column(n, rounds[..|rounds| - 1], t) + [rounds[|rounds| - 1][t]]
  {
  }

  lemma {:induction false} GameRolls(n: nat, rounds: seq<seq<int>>, t: nat)
    requires n >= 1 && AllLegal(n, rounds) && t < n
    ensures RollsBy(GameActions(n, rounds), t) == Column(n, rounds, t)
    decreases |rounds|
  {
    if rounds == [] {
    } else {
      var k := |rounds| - 1;
      GameRolls(n, rounds[..k], t);
      RoundRolls(rounds[k], 2 * k, t);
      RollsConcat(GameActions(n, rounds[..k]), RoundActions(rounds[k], 2 * k), t);
      ColumnSplits(n, rounds, t);
    }
  }

  // ---------------------------------------------------------------- to the first wait

  lemma FirstOnce(n: nat, table: Table, was: seq<int>, k: nat)
    requires |was| == |table| == n && k + 1 < n
    ensures Enabled(FirstAt(n, table, was, 0, k), Call(k))
    ensures Step(FirstAt(n, table, was, 0, k), Call(k)) == FirstAt(n, table, was, 0, k + 1)
  {
    var s, s' := FirstAt(n, table, was, 0, k), FirstAt(n, table, was, 0, k + 1);
    CallsFirst(n, k);
    assert Step(s, Call(k)).pcs == s'.pcs && s.res == s'.res;
  }

  /** Thread k comes out of the second wait and waits for the next round. */
  lemma WaitOnce(n: nat, table: Table, was: seq<int>, g: nat, k: nat)
    requires |was| == |table| == n && k + 1 < n && g >= 1
    ensures Legal(FirstAt(n, table, was, g, k), [Retry(k), Call(k)])
    ensures Run(FirstAt(n, table, was, g, k), [Retry(k), Call(k)]) == FirstAt(n, table, was, g, k + 1)
  {
    var s0, s' := FirstAt(n, table, was, g, k), FirstAt(n, table, was, g, k + 1);
    ComesOut(n, g, k);
    CallsNext(n, g, k);
    var bar := BarAt(n, g, k).(threads := BarAt(n, g, k).threads[k := B.Thread(B.Outside, g, Repeat(g, 0))]);
    var s1 := s0.(bar := bar, res := s0.res[k := 0], pcs := s0.pcs[k := Top]);
    assert Enabled(s0, Retry(k)) && Step(s0, Retry(k)) == s1;
    GoesOne(s0, Retry(k), s1);
    assert Step(s1, Call(k)).pcs == s'.pcs && s1.res == s'.res;
    GoesOn(s0, [Retry(k)], s1, Call(k), s');
    assert [Retry(k)] + [Call(k)] == [Retry(k), Call(k)];
  }

  lemma WaitsNext(n: nat, table: Table, was: seq<int>, g: nat, k: nat)
    requires |was| == |table| == n && k + 1 < n
    ensures Goes(FirstAt(n, table, was, g, k), TurnToWait(g, k), FirstAt(n, table, was, g, k + 1))
  {
    if g == 0 {
      FirstOnce(n, table, was, k);
      GoesOne(FirstAt(n, table, was, g, k), Call(k), FirstAt(n, table, was, g, k + 1));
    } else {
      WaitOnce(n, table, was, g, k);
    }
  }

  lemma {:induction false} AllWait(n: nat, table: Table, was: seq<int>, g: nat, k: nat)
    requires |was| == |table| == n && k < n
    ensures Goes(FirstAt(n, table, was, g, 0), WaitActions(g, k), FirstAt(n, table, was, g, k))
  {
    if k > 0 {
      AllWait(n, table, was, g, k - 1);
      WaitsNext(n, table, was, g, k - 1);
      RunConcat(FirstAt(n, table, was, g, 0), WaitActions(g, k - 1), FirstAt(n, table, was, g, k - 1),
                TurnToWait(g, k - 1), FirstAt(n, table, was, g, k));
    }
  }

  /** The last thread completes the first wait. */
  lemma CompleteFirst(n: nat, table: Table, was: seq<int>, rolls: seq<int>, g: nat)
    requires |was| == |table| == |rolls| == n && n >= 2
    ensures Enabled(FirstAt(n, table, was, g, n - 1), Call(n - 1))
    ensures Step(FirstAt(n, table, was, g, n - 1), Call(n - 1)) ==
            SecondAt(n, table, rolls, ResAt(n, was, g, n), g + 1, 0)
  {
    var s, s' := FirstAt(n, table, was, g, n - 1), SecondAt(n, table, rolls, ResAt(n, was, g, n), g + 1, 0);
    LastCalls(n, g);
    assert Step(s, Call(n - 1)).pcs == s'.pcs && s.res == s'.res;
    assert RolledTable(table, rolls, 0) == table;
  }

  // ---------------------------------------------------------------- to the second wait

  /** Thread k comes out of the first wait, looks, rolls, and waits again. */
  lemma RollOnce(n: nat, table: Table, rolls: seq<int>, res: seq<int>, g: nat, k: nat)
    requires |res| == |table| == n && LegalRolls(n, rolls) && k + 1 < n && g >= 1 && CountPlaying(table) != 1
    ensures Legal(SecondAt(n, table, rolls, res, g, k), [Retry(k), Look(k), Roll(k, rolls[k]), Call(k)])
    ensures Run(SecondAt(n, table, rolls, res, g, k), [Retry(k), Look(k), Roll(k, rolls[k]), Call(k)]) ==
            SecondAt(n, table, rolls, res, g, k + 1)
  {
    var s0, s' := SecondAt(n, table, rolls, res, g, k), SecondAt(n, table, rolls, res, g, k + 1);
    var v := rolls[k];
    ComesOut(n, g, k);
    CallsNext(n, g, k);
    var bar := BarAt(n, g, k).(threads := BarAt(n, g, k).threads[k := B.Thread(B.Outside, g, Repeat(g, 0))]);
    var s1 := s0.(bar := bar, pcs := s0.pcs[k := Check]);
    assert Enabled(s0, Retry(k)) && Step(s0, Retry(k)) == s1;
    GoesOne(s0, Retry(k), s1);
    var s2 := s1.(pcs := s0.pcs[k := ToRoll]);
    assert Step(s1, Look(k)) == s2;
    GoesOn(s0, [Retry(k)], s1, Look(k), s2);
    var s3 := s2.(pcs := s0.pcs[k := ToSecond], table := s'.table);
    RollsInto(table, rolls, k);
    assert Step(s2, Roll(k, v)) == s3;
    GoesOn(s0, [Retry(k)] + [Look(k)], s2, Roll(k, v), s3);
    assert Step(s3, Call(k)).pcs == s'.pcs;
    GoesOn(s0, [Retry(k)] + [Look(k)] + [Roll(k, v)], s3, Call(k), s');
    assert [Retry(k)] + [Look(k)] + [Roll(k, v)] + [Call(k)] == [Retry(k), Look(k), Roll(k, v), Call(k)];
  }

  lemma RollsInto(table: Table, rolls: seq<int>, k: nat)
    requires |rolls| == |table| && k < |table|
    ensures var t := RolledTable(table, rolls, k);
            (if t[k].playing then t[k := t[k].(result := rolls[k])] else t) == RolledTable(table, rolls, k + 1)
  {
    var t := RolledTable(table, rolls, k);
    var r := if t[k].playing then t[k := t[k].(result := rolls[k])] else t;
    forall u: nat | u < |table| ensures r[u] == RolledTable(table, rolls, k + 1)[u] {}
  }

  lemma {:induction false} AllRoll(n: nat, table: Table, rolls: seq<int>, res: seq<int>, g: nat, k: nat)
    requires |res| == |table| == n && LegalRolls(n, rolls) && k < n && g >= 1 && CountPlaying(table) != 1
    ensures Goes(SecondAt(n, table, rolls, res, g, 0), RollActions(rolls, k), SecondAt(n, table, rolls, res, g, k))
  {
    if k > 0 {
      AllRoll(n, table, rolls, res, g, k - 1);
      RollOnce(n, table, rolls, res, g, k - 1);
      RunConcat(SecondAt(n, table, rolls, res, g, 0), RollActions(rolls, k - 1),
                SecondAt(n, table, rolls, res, g, k - 1),
                [Retry(k - 1), Look(k - 1), Roll(k - 1, rolls[k - 1]), Call(k - 1)],
                SecondAt(n, table, rolls, res, g, k));
    }
  }

  /** The last thread is about to eliminate. */
  function Judging(n: nat, table: Table, rolls: seq<int>, res: seq<int>, g: nat): State
    requires |res| == |table| == |rolls| == n && n >= 2
  {
    var s := SecondAt(n, table, rolls, res, g, n - 1);
    s.(bar := BarAt(n, g + 1, 0), table := RollAll(table, rolls), res := res[n - 1 := B.SERIAL],
       pcs := s.pcs[n - 1 := Eliminating])
  }

  /** The last thread rolls and completes the second wait. */
  lemma LastRolls(n: nat, table: Table, rolls: seq<int>, res: seq<int>, g: nat)
    requires |res| == |table| == n && LegalRolls(n, rolls) && n >= 2 && CountPlaying(table) != 1
    ensures var l := n - 1;
            Goes(SecondAt(n, table, rolls, res, g, l), [Look(l), Roll(l, rolls[l]), Call(l)],
                 Judging(n, table, rolls, res, g))
  {
    var l := n - 1;
    var s0, s3 := SecondAt(n, table, rolls, res, g, l), Judging(n, table, rolls, res, g);
    LastCalls(n, g);
    var s1 := s0.(pcs := s0.pcs[l := ToRoll]);
    assert Step(s0, Look(l)) == s1;
    GoesOne(s0, Look(l), s1);
    var s2 := s1.(pcs := s0.pcs[l := ToSecond], table := RollAll(table, rolls));
    RollsInto(table, rolls, l);
    assert RolledTable(table, rolls, n) == RollAll(table, rolls);
    assert Step(s1, Roll(l, rolls[l])) == s2;
    GoesOn(s0, [Look(l)], s1, Roll(l, rolls[l]), s2);
    assert Step(s2, Call(l)) == s3;
    GoesOn(s0, [Look(l)] + [Roll(l, rolls[l])], s2, Call(l), s3);
    assert [Look(l)] + [Roll(l, rolls[l])] + [Call(l)] == [Look(l), Roll(l, rolls[l]), Call(l)];
  }

  /** And eliminates. */
  lemma JudgeRound(n: nat, table: Table, rolls: seq<int>, res: seq<int>, g: nat)
    requires |res| == |table| == |rolls| == n && n >= 2 && g >= 1
    ensures Enabled(Judging(n, table, rolls, res, g), Judge(n - 1))
    ensures Step(Judging(n, table, rolls, res, g), Judge(n - 1)) ==
            FirstAt(n, Eliminate(RollAll(table, rolls)), res, g + 1, 0)
  {
    var s, s' := Judging(n, table, rolls, res, g), FirstAt(n, Eliminate(RollAll(table, rolls)), res, g + 1, 0);
    assert Playing(RollAll(table, rolls)) == Playing(table);
    assert Step(s, Judge(n - 1)).pcs == s'.pcs && s.res == s'.res;
  }

  // ---------------------------------------------------------------- whole games

  /** All come to the first wait of a round and out of it. */
  lemma ComeIn(n: nat, table: Table, rolls: seq<int>, was: seq<int>, g: nat)
    requires |was| == |table| == |rolls| == n && n >= 2
    ensures Goes(FirstAt(n, table, was, g, 0), ComingIn(g, n - 1),
                 SecondAt(n, table, rolls, ResAt(n, was, g, n), g + 1, 0))
  {
    AllWait(n, table, was, g, n - 1);
    CompleteFirst(n, table, was, rolls, g);
    GoesOn(FirstAt(n, table, was, g, 0), WaitActions(g, n - 1), FirstAt(n, table, was, g, n - 1), Call(n - 1),
           SecondAt(n, table, rolls, ResAt(n, was, g, n), g + 1, 0));
  }

  /** The last thread has its turn. */
  lemma EndRound(n: nat, table: Table, rolls: seq<int>, res: seq<int>, g: nat)
    requires |res| == |table| == n && n >= 2 && LegalRolls(n, rolls) && CountPlaying(table) != 1 && g >= 1
    ensures Goes(SecondAt(n, table, rolls, res, g, n - 1), LastActions(n - 1, rolls[n - 1]),
                 FirstAt(n, Eliminate(RollAll(table, rolls)), res, g + 1, 0))
  {
    var a := [Look(n - 1), Roll(n - 1, rolls[n - 1]), Call(n - 1)];
    LastRolls(n, table, rolls, res, g);
    JudgeRound(n, table, rolls, res, g);
    GoesOn(SecondAt(n, table, rolls, res, g, n - 1), a, Judging(n, table, rolls, res, g), Judge(n - 1),
           FirstAt(n, Eliminate(RollAll(table, rolls)), res, g + 1, 0));
    assert a + [Judge(n - 1)] == LastActions(n - 1, rolls[n - 1]);
  }

  /** The second half of a round: all roll, and the round is judged. */
  lemma RollAndJudge(n: nat, table: Table, rolls: seq<int>, res: seq<int>, g: nat)
    requires |res| == |table| == n && n >= 2 && LegalRolls(n, rolls) && CountPlaying(table) != 1 && g >= 1
    ensures Goes(SecondAt(n, table, rolls, res, g, 0), TurnsOf(rolls),
                 FirstAt(n, Eliminate(RollAll(table, rolls)), res, g + 1, 0))
  {
    AllRoll(n, table, rolls, res, g, n - 1);
    EndRound(n, table, rolls, res, g);
    RunConcat(SecondAt(n, table, rolls, res, g, 0), RollActions(rolls, n - 1),
              SecondAt(n, table, rolls, res, g, n - 1), LastActions(n - 1, rolls[n - 1]),
              FirstAt(n, Eliminate(RollAll(table, rolls)), res, g + 1, 0));
  }

  /** The two halves make up the round. */
  lemma BothHalves(s: State, m: State, end: State, rolls: seq<int>, g: nat)
    requires |rolls| >= 2 && Goes(s, ComingIn(g, |rolls| - 1), m) && Goes(m, TurnsOf(rolls), end)
    ensures Goes(s, RoundActions(rolls, g), end)
  {
    RunConcat(s, ComingIn(g, |rolls| - 1), m, TurnsOf(rolls), end);
  }

  /** A round with these rolls can be played. */
  lemma OneRound(n: nat, table: Table, rolls: seq<int>, was: seq<int>, g: nat) returns (res: seq<int>)
    requires |was| == |table| == n && n >= 2 && LegalRolls(n, rolls) && CountPlaying(table) != 1
    ensures |res| == n
    ensures Goes(FirstAt(n, table, was, g, 0), RoundActions(rolls, g),
                 FirstAt(n, Eliminate(RollAll(table, rolls)), res, g + 2, 0))
  {
    res := ResAt(n, was, g, n);
    ComeIn(n, table, rolls, was, g);
    RollAndJudge(n, table, rolls, res, g + 1);
    BothHalves(FirstAt(n, table, was, g, 0), SecondAt(n, table, rolls, res, g + 1, 0),
               FirstAt(n, Eliminate(RollAll(table, rolls)), res, g + 2, 0), rolls, g);
  }

  /** No round is played by fewer than two players. */
  predicate Playable(n: nat, rounds: seq<seq<int>>)
    requires AllLegal(n, rounds)
  {
    forall k :: 0 <= k < |rounds| ==> CountPlaying(Play(Start(n), rounds[..k])) >= 2
  }

  lemma {:induction false} PlayOn(n: nat, garbage: seq<int>, rounds: seq<seq<int>>) returns (res: seq<int>)
    requires n >= 2 && |garbage| == n && AllLegal(n, rounds) && Playable(n, rounds)
    ensures |res| == n
    ensures Goes(Init(n, garbage), GameActions(n, rounds), FirstAt(n, Play(Start(n), rounds), res, 2 * |rounds|, 0))
    decreases |rounds|
  {
    if rounds == [] {
      res := garbage;
      StartsThere(n, garbage);
    } else {
      var k := |rounds| - 1;
      PlayableBefore(n, rounds);
      var was := PlayOn(n, garbage, rounds[..k]);
      res := OneRound(n, Play(Start(n), rounds[..k]), rounds[k], was, 2 * k);
      RunConcat(Init(n, garbage), GameActions(n, rounds[..k]), FirstAt(n, Play(Start(n), rounds[..k]), was, 2 * k, 0),
                RoundActions(rounds[k], 2 * k), FirstAt(n, Play(Start(n), rounds), res, 2 * |rounds|, 0));
    }
  }

  lemma PlayableBefore(n: nat, rounds: seq<seq<int>>)
    requires AllLegal(n, rounds) && Playable(n, rounds) && rounds != []
    ensures var k := |rounds| - 1;
            AllLegal(n, rounds[..k]) && Playable(n, rounds[..k]) && LegalRolls(n, rounds[k]) &&
            CountPlaying(Play(Start(n), rounds[..k])) >= 2
  {
    var k := |rounds| - 1;
    assert forall j :: 0 <= j < k ==> rounds[..k][..j] == rounds[..j];
  }

  lemma StartsThere(n: nat, garbage: seq<int>)
    requires n >= 2 && |garbage| == n
    ensures Goes(Init(n, garbage), [], FirstAt(n, Start(n), garbage, 0, 0))
  {
    var s, s' := Init(n, garbage), FirstAt(n, Start(n), garbage, 0, 0);
    SumBounds(Playing(Start(n)), 1, 1);
    assert B.Init(n).threads == BarAt(n, 0, 0).threads;
    assert s.pcs == s'.pcs && s.res == s'.res;
  }

  /**
   Every sequential game, with any legal rolls, is played by some run from the start of the program, in
   which the threads roll what the players of that game roll.
   */
  lemma EveryGame(n: nat, garbage: seq<int>, rounds: seq<seq<int>>) returns (actions: seq<Action>)
    requires n >= 2 && |garbage| == n && AllLegal(n, rounds) && Playable(n, rounds)
    ensures Legal(Init(n, garbage), actions)
    ensures var s := Run(Init(n, garbage), actions);
            s.base == s.table == Play(Start(n), rounds) && RoundsDone(s) == |rounds|
    ensures forall t: nat :: t < n ==> RollsBy(actions, t) == Column(n, rounds, t)
  {
    var res := PlayOn(n, garbage, rounds);
    actions := GameActions(n, rounds);
    NothingPending(n, Play(Start(n), rounds), res, 2 * |rounds|);
    forall t: nat | t < n ensures RollsBy(actions, t) == Column(n, rounds, t) {
      GameRolls(n, rounds, t);
    }
  }

  lemma NothingPending(n: nat, table: Table, res: seq<int>, g: nat)
    requires |res| == |table| == n
    ensures !Pending(FirstAt(n, table, res, g, 0)) && Gen(FirstAt(n, table, res, g, 0)) == g
  {
  }

  // ---------------------------------------------------------------- a game with a stale read

  /** Player 0 rolls 2 and everybody else 3. */
  function LowestFirst(n: nat): (r: seq<int>)
    ensures LegalRolls(n, r) && forall t: nat {:trigger r[t]} :: t < n ==> r[t] == if t == 0 then 2 else 3
  {
    seq(n, t => if t == 0 then 2 else 3)
  }

  lemma OnlyFirstLeft(n: nat)
    requires n >= 2
    ensures CountPlaying(Start(n)) >= 2
    ensures CountPlaying(Eliminate(RollAll(Start(n), LowestFirst(n)))) == 1
  {
    var t := RollAll(Start(n), LowestFirst(n));
    SumBounds(Playing(Start(n)), 1, 1);
    assert Playing(t) == Playing(Start(n));
    EliminateMeaning(t);
    assert t[0].result == 2 && t[1].result == 3;
    assert Beaten(t, 0) && !AllEqual(t);
    var e, none := Eliminate(t), Repeat(n, 0);
    forall i: nat | i < n ensures e[i].playing == (i == 0) {
      assert i > 0 ==> !Beaten(t, i);
    }
    assert Playing(e) == none[0 := 1];
    SumUpdate(none, 0, 1);
    SumBounds(none, 0, 0);
  }

  /** With one player left, the last thread completes the first wait and leaves. */
  lemma LastLook(n: nat, table: Table, was: seq<int>, g: nat) returns (end: State)
    requires |was| == |table| == n && n >= 2 && g >= 1 && CountPlaying(table) == 1
    ensures Goes(FirstAt(n, table, was, g, 0), WaitActions(g, n - 1) + [Call(n - 1)] + [Look(n - 1)], end)
    ensures Announcing(end, n - 1) && ScanNext(end, n - 1) == 0
  {
    var l := n - 1;
    var s, s0 := FirstAt(n, table, was, g, 0), FirstAt(n, table, was, g, l);
    var actions := WaitActions(g, l);
    AllWait(n, table, was, g, l);
    LastCalls(n, g);
    var s1 := s0.(bar := BarAt(n, g + 1, 0), pcs := s0.pcs[l := Check]);
    assert Step(s0, Call(l)) == s1;
    GoesOn(s, actions, s0, Call(l), s1);
    end := s1.(pcs := s0.pcs[l := Leaving]);
    assert Step(s1, Look(l)) == end;
    GoesOn(s, actions + [Call(l)], s1, Look(l), end);
  }

  /** One round, and then the last thread is about to announce. */
  lemma ToTheAnnouncement(n: nat, garbage: seq<int>) returns (actions: seq<Action>, end: State)
    requires n >= 2 && |garbage| == n
    ensures Goes(Init(n, garbage), actions, end)
    ensures Announcing(end, n - 1) && ScanNext(end, n - 1) == 0
  {
    StartsThere(n, garbage);
    OnlyFirstLeft(n);
    var table := Eliminate(RollAll(Start(n), LowestFirst(n)));
    var a := RoundActions(LowestFirst(n), 0);
    var res := OneRound(n, Start(n), LowestFirst(n), garbage, 0);
    var b := WaitActions(2, n - 1) + [Call(n - 1)] + [Look(n - 1)];
    end := LastLook(n, table, res, 2);
    RunConcat(Init(n, garbage), a, FirstAt(n, table, res, 2, 0), b, end);
    actions := a + b;
  }

  /** For every number of players some run from the start of the program reads a freed record. */
  lemma StaleReadRun(n: nat, garbage: seq<int>) returns (actions: seq<Action>)
    requires n >= 2 && |garbage| == n
    ensures LeadsToStaleRead(Init(n, garbage), actions)
  {
    var end;
    actions, end := ToTheAnnouncement(n, garbage);
    InitInv(n, garbage);
    RunInv(Init(n, garbage), actions);
    var more := ReachStaleRead(end, n - 1);
    RunConcat(Init(n, garbage), actions, end, more, Run(end, more));
    actions := actions + more;
  }
}
