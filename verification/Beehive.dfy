/**
 The bees: the locked sections of `bee_work` as methods on the shared hive, and the step
 system of any number of bees under every interleaving of those sections, every choice of
 serial thread, and every outcome of the bear.
 */
module Beehive {
  import opened Sums
  import opened FlowerField

  // ---------------------------------------------------------------- one bee

  datatype PC =
    | Top                    // about to test the flags
    | InBody                 // in the loop body, about to act on its state
    | Reporting(slot: nat)   // about to push neighbour `slot` to the queue
    | Looking(slot: nat)     // about to retake the field lock and go on at `slot`
    | Resting                // about to wait at barrier_bear
    | AtBear
    | Inspecting             // serial bee, about to recompute all_harvested
    | MeetingBear            // serial bee, about to meet the bear
    | Ready                  // about to wait at barrier_new_cycle
    | AtNewCycle
    | Gone

  /** `collecting` is the C variable `state`. */
  datatype Bee = Bee(pc: PC, collecting: bool, pos: Pos)

  /** The field section ends at the next neighbour to report, or after the last slot. */
  function GoOn(w: int, h: int, harvested: set<Pos>, bee: Bee, slot: nat): Bee
    requires slot <= 4
  {
    var j := NextSlot(w, h, harvested, bee.pos, slot);
    if j < 4 then bee.(pc := Reporting(j)) else bee.(pc := Resting, collecting := false)
  }

  /** Queue section of a bee that works in the hive. */
  function PopTask(queue: seq<Pos>, bee: Bee): (seq<Pos>, Bee) {
    if queue == [] then (queue, bee.(pc := Resting))
    else (queue[1..], Bee(Resting, true, queue[0]))
  }

  /** First field section of a bee that collects. */
  function Collect(w: int, h: int, harvested: set<Pos>, bee: Bee): (set<Pos>, Bee) {
    if IsHarvested(w, h, harvested, bee.pos) then
      (harvested, bee.(pc := Resting, collecting := false))
    else
      (harvested + {bee.pos}, GoOn(w, h, harvested + {bee.pos}, bee, 0))
  }

  // ---------------------------------------------------------------- the shared hive

  /** `pl_t`, with the locked sections of `bee_work` as its methods. */
  class Hive {
    const field: Field
    var queue: seq<Pos>
    var hiveDestroyed: bool
    var allHarvested: bool

    ghost predicate Valid()
      reads this
    {
      field.Valid()
    }

    constructor (width: nat, height: nat, seed: Pos)
      ensures Valid() && fresh(field.flowers) && field.width == width && field.height == height
      ensures field.Harvested() == {} && queue == [seed] && !hiveDestroyed && !allHarvested
    {
      field := new Field(width, height);
      queue := [seed];
      hiveDestroyed, allHarvested := false, false;
    }

    method PopSection(bee: Bee) returns (after: Bee)
      modifies this`queue
      ensures (queue, after) == PopTask(old(queue), bee)
    {
      if |queue| != 0 {
        after := Bee(Resting, true, queue[0]);
        queue := queue[1..];
      } else {
        after := bee.(pc := Resting);
      }
    }

    /** The neighbour loop from `slot` up to where it drops the field lock or ends. */
    method NeighbourLoop(bee: Bee, slot: nat) returns (after: Bee)
      requires Valid() && slot <= 4
      ensures after == GoOn(field.width, field.height, field.Harvested(), bee, slot)
    {
      for i := slot to 4
        invariant NextSlot(field.width, field.height, field.Harvested(), bee.pos, i) ==
                  NextSlot(field.width, field.height, field.Harvested(), bee.pos, slot)
      {
        var known := field.IsFlowerHarvested(Neighbour(bee.pos, i));
        if !known {
          return bee.(pc := Reporting(i));
        }
      }
      return bee.(pc := Resting, collecting := false);
    }

    method CollectSection(bee: Bee) returns (after: Bee)
      requires Valid()
      modifies field.flowers
      ensures (field.Harvested(), after) == Collect(field.width, field.height, old(field.Harvested()), bee)
    {
      var known := field.IsFlowerHarvested(bee.pos);
      if !known {
        field.Harvest(bee.pos);
        after := NeighbourLoop(bee, 0);
      } else {
        after := bee.(pc := Resting, collecting := false);
      }
    }

    method ReportSection(bee: Bee) returns (after: Bee)
      requires bee.pc.Reporting?
      modifies this`queue
      ensures queue == old(queue) + [Neighbour(bee.pos, bee.pc.slot)]
      ensures after == bee.(pc := Looking(bee.pc.slot + 1))
    {
      queue := queue + [Neighbour(bee.pos, bee.pc.slot)];
      after := bee.(pc := Looking(bee.pc.slot + 1));
    }

    method InspectSection()
      requires Valid()
      modifies this`allHarvested
      ensures allHarvested == AllHarvested(field.width, field.height, field.Harvested())
    {
      allHarvested := field.AllIsHarvested();
    }
  }

  // ---------------------------------------------------------------- the step system

  /** `cycle` counts completed cycles, `mark` is the work left at the start of this one,
      `collected` lists the successful collections. */
  datatype State = State(
    width: nat, height: nat, harvested: set<Pos>, queue: seq<Pos>,
    allHarvested: bool, hiveDestroyed: bool, bees: seq<Bee>,
    cycle: nat, mark: int, collected: seq<Pos>)

  datatype Action =
    | Test(b: nat) | Act(b: nat) | Report(b: nat) | Look(b: nat) | Arrive(b: nat, leader: nat)
    | Inspect(b: nat) | Fight(b: nat, destroyed: bool) | Regroup(b: nat)

  /** `garbage` is what the uninitialised positions happen to hold. */
  function Init(width: nat, height: nat, seed: Pos, garbage: seq<Pos>): State {
    State(width, height, {}, [seed], false, false,
          seq(|garbage|, i requires 0 <= i < |garbage| => Bee(Top, false, garbage[i])),
          0, 8 * (width * height) + 2, [])
  }

  predicate Enabled(s: State, a: Action) {
    a.b < |s.bees| &&
    var pc := s.bees[a.b].pc;
    match a
    case Test(b) => pc.Top?
    case Act(b) => pc.InBody?
    case Report(b) => pc.Reporting?
    case Look(b) => pc.Looking? && pc.slot <= 4
    case Arrive(b, leader) => pc.Resting? && leader < |s.bees|
    case Inspect(b) => pc.Inspecting?
    case Fight(b, _) => pc.MeetingBear?
    case Regroup(b) => pc.Ready?
  }

  predicate AllAt(bees: seq<Bee>, pc: PC) {
    forall i :: 0 <= i < |bees| ==> bees[i].pc == pc
  }

  /** All bees leave barrier_bear; the leader got the serial value. */
  function Release(bees: seq<Bee>, leader: nat): (r: seq<Bee>)
    ensures |r| == |bees|
    ensures forall i :: 0 <= i < |bees| ==> r[i] == bees[i].(pc := if i == leader then Inspecting else Ready)
  {
    seq(|bees|, i requires 0 <= i < |bees| => bees[i].(pc := if i == leader then Inspecting else Ready))
  }

  /** All bees leave barrier_new_cycle. */
  function Restart(bees: seq<Bee>): (r: seq<Bee>)
    ensures |r| == |bees| && forall i :: 0 <= i < |bees| ==> r[i] == bees[i].(pc := Top)
  {
    seq(|bees|, i requires 0 <= i < |bees| => bees[i].(pc := Top))
  }

  function SetPC(s: State, b: nat, pc: PC): State
    requires b < |s.bees|
  {
    s.(bees := s.bees[b := s.bees[b].(pc := pc)])
  }

  function Step(s: State, a: Action): State
    requires Enabled(s, a)
  {
    var bee := s.bees[a.b];
    match a
    case Test(b) =>
      SetPC(s, b, if s.allHarvested || s.hiveDestroyed then Gone else InBody)
    case Act(b) =>
      if !bee.collecting then
        var (q, after) := PopTask(s.queue, bee);
        s.(queue := q, bees := s.bees[b := after])
      else
        var (hv, after) := Collect(s.width, s.height, s.harvested, bee);
        s.(harvested := hv, bees := s.bees[b := after],
           collected := if hv == s.harvested then s.collected else s.collected + [bee.pos])
    case Report(b) =>
      s.(queue := s.queue + [Neighbour(bee.pos, bee.pc.slot)],
         bees := s.bees[b := bee.(pc := Looking(bee.pc.slot + 1))])
    case Look(b) =>
      s.(bees := s.bees[b := GoOn(s.width, s.height, s.harvested, bee, bee.pc.slot)])
    case Arrive(b, leader) =>
      var bees := s.bees[b := bee.(pc := AtBear)];
      if AllAt(bees, AtBear) then s.(bees := Release(bees, leader), cycle := s.cycle + 1)
      else s.(bees := bees)
    case Inspect(b) =>
      SetPC(s, b, MeetingBear).(allHarvested := AllHarvested(s.width, s.height, s.harvested))
    case Fight(b, destroyed) =>
      SetPC(s, b, Ready).(hiveDestroyed := s.hiveDestroyed || destroyed)
    case Regroup(b) =>
      var bees := s.bees[b := bee.(pc := AtNewCycle)];
      if AllAt(bees, AtNewCycle) then s.(bees := Restart(bees), mark := Measure(s))
      else s.(bees := bees)
  }

  predicate Legal(s: State, actions: seq<Action>)
    decreases |actions|
  {
    actions == [] || (Enabled(s, actions[0]) && Legal(Step(s, actions[0]), actions[1..]))
  }

  function Run(s: State, actions: seq<Action>): State
    requires Legal(s, actions)
    decreases |actions|
  {
    if actions == [] then s else Run(Step(s, actions[0]), actions[1..])
  }

  // ---------------------------------------------------------------- the measure

  predicate Scanning(bee: Bee) {
    bee.pc.Reporting? || bee.pc.Looking?
  }

  function Weight(bee: Bee): int {
    if Scanning(bee) then 2 * (4 - bee.pc.slot) else if bee.collecting then 1 else 0
  }

  /** Work left: 8 per flower, 2 per queued position or neighbour slot to visit, 1 per collecting bee. */
  function Measure(s: State): int {
    8 * (s.width * s.height - |s.harvested|) + 2 * |s.queue| + Total(s.bees, Weight)
  }

  // ---------------------------------------------------------------- the invariant

  ghost predicate Positions(s: State) {
    && s.harvested <= Grid(s.width, s.height)
    && (forall k :: 0 <= k < |s.queue| ==> InField(s.width, s.height, s.queue[k]))
    && forall b :: 0 <= b < |s.bees| ==> BeeOk(s, s.bees[b])
  }

  ghost predicate BeeOk(s: State, bee: Bee) {
    if Scanning(bee) then
      bee.pc.slot <= 4 && bee.pos in s.harvested &&
      (bee.pc.Reporting? ==> bee.pc.slot < 4 && InField(s.width, s.height, Neighbour(bee.pos, bee.pc.slot)))
    else
      bee.collecting ==> InField(s.width, s.height, bee.pos)
  }

  /** p is one of the neighbours of q from slot i on. */
  predicate Ahead(q: Pos, i: nat, p: Pos) {
    (i <= 0 && p == Neighbour(q, 0)) || (i <= 1 && p == Neighbour(q, 1)) ||
    (i <= 2 && p == Neighbour(q, 2)) || (i <= 3 && p == Neighbour(q, 3))
  }

  /** The bee will collect p, or has p still ahead in its neighbour loop. */
  predicate Carries(bee: Bee, p: Pos) {
    if Scanning(bee) then Ahead(bee.pos, bee.pc.slot, p) else bee.collecting && bee.pos == p
  }

  ghost predicate Covered(s: State, p: Pos) {
    p in s.queue || exists b :: 0 <= b < |s.bees| && Carries(s.bees[b], p)
  }

  ghost predicate Edge(s: State, q: Pos, i: int) {
    0 <= i < 4 && q in s.harvested && !IsHarvested(s.width, s.height, s.harvested, Neighbour(q, i))
  }

  /** Every unharvested flower next to a harvested one is on somebody's list. */
  ghost predicate Frontier(s: State) {
    forall q, i :: Edge(s, q, i) ==> Covered(s, Neighbour(q, i))
  }

  ghost predicate Seeded(s: State) {
    s.harvested == {} ==> exists p :: InField(s.width, s.height, p) && Covered(s, p)
  }

  predicate Working(pc: PC) {
    pc.Top? || pc.InBody? || pc.Reporting? || pc.Looking? || pc.Resting? || pc.AtBear? || pc.Gone?
  }

  predicate AllWorking(s: State) {
    forall b :: 0 <= b < |s.bees| ==> Working(s.bees[b].pc)
  }

  predicate AllMeeting(s: State) {
    forall b :: 0 <= b < |s.bees| ==> !Working(s.bees[b].pc)
  }

  predicate Stopped(s: State) {
    s.allHarvested || s.hiveDestroyed
  }

  predicate SomebodyInspects(s: State) {
    exists b :: 0 <= b < |s.bees| && s.bees[b].pc.Inspecting?
  }

  /** All bees are on the same side of barrier_bear, and leave the loop in the same cycle. */
  ghost predicate Phases(s: State) {
    && |s.bees| >= 1
    && (AllWorking(s) || AllMeeting(s))
    && !AllAt(s.bees, AtBear) && !AllAt(s.bees, AtNewCycle)
    && (AllWorking(s) ==> forall b :: 0 <= b < |s.bees| ==>
          if Stopped(s) then s.bees[b].pc.Top? || s.bees[b].pc.Gone? else !s.bees[b].pc.Gone?)
    && (forall b, c :: 0 <= b < |s.bees| && 0 <= c < |s.bees| && b != c ==>
          !(s.bees[b].pc in {Inspecting, MeetingBear} && s.bees[c].pc in {Inspecting, MeetingBear}))
    && (s.allHarvested ==> AllHarvested(s.width, s.height, s.harvested))
    && (AllMeeting(s) && !SomebodyInspects(s) ==>
          (s.allHarvested <==> AllHarvested(s.width, s.height, s.harvested)))
  }

  predicate ToDo(bee: Bee) {
    bee.pc.Top? || bee.pc.InBody?
  }

  /** A bee will collect in this cycle, or the first bee of this cycle will find the queue filled. */
  predicate WorkPending(s: State) {
    (exists b :: 0 <= b < |s.bees| && ToDo(s.bees[b]) && s.bees[b].collecting) ||
    (s.queue != [] && forall b :: 0 <= b < |s.bees| ==> ToDo(s.bees[b]))
  }

  function Bound(s: State): int {
    8 * (s.width * s.height) + 2
  }

  ghost predicate Clock(s: State) {
    if AllWorking(s) then
      Measure(s) <= s.mark && s.cycle + s.mark <= Bound(s) &&
      (!Stopped(s) ==> Measure(s) < s.mark || WorkPending(s))
    else
      s.cycle + Measure(s) <= Bound(s)
  }

  /** Every flower is collected at most once, and exactly the collected ones are harvested. */
  ghost predicate Record(s: State) {
    && |s.collected| == |s.harvested|
    && (forall k :: 0 <= k < |s.collected| ==> s.collected[k] in s.harvested)
    && forall j, k :: 0 <= j < k < |s.collected| ==> s.collected[j] != s.collected[k]
  }

  ghost predicate Inv(s: State) {
    s.width >= 1 && s.height >= 1 &&
    Positions(s) && Frontier(s) && Seeded(s) && Phases(s) && Clock(s) && Record(s)
  }

  lemma InitInv(width: nat, height: nat, seed: Pos, garbage: seq<Pos>)
    requires width >= 1 && height >= 1 && InField(width, height, seed) && |garbage| >= 1
    ensures Inv(Init(width, height, seed, garbage))
  {
    var s := Init(width, height, seed, garbage);
    assert s.queue[0] == seed;
    assert Covered(s, seed);
    TotalBounds(s.bees, Weight, 0, 0);
    assert Pos(0, 0) in Grid(width, height);
    assert Working(s.bees[0].pc);
  }

  // ---------------------------------------------------------------- steps that move no task

  predicate Works(a: Action) {
    a.Act? || a.Report? || a.Look?
  }

  predicate SameTask(x: Bee, y: Bee) {
    x == y || (!Scanning(x) && !Scanning(y) && x.collecting == y.collecting && x.pos == y.pos)
  }

  /** Passing a barrier or looking at the flags leaves every bee's task. */
  lemma QuietStep(s: State, a: Action)
    requires Enabled(s, a) && !Works(a)
    ensures var s' := Step(s, a);
            s'.harvested == s.harvested && s'.queue == s.queue && s'.collected == s.collected &&
            s'.width == s.width && s'.height == s.height && |s'.bees| == |s.bees| &&
            forall b :: 0 <= b < |s.bees| ==> SameTask(s.bees[b], s'.bees[b])
  {
  }

  lemma QuietMeasure(s: State, a: Action)
    requires Enabled(s, a) && !Works(a)
    ensures Measure(Step(s, a)) == Measure(s)
  {
    QuietStep(s, a);
    assert Map(Step(s, a).bees, Weight) == Map(s.bees, Weight);
  }

  // ---------------------------------------------------------------- positions and frontier

  lemma WorkPositions(s: State, a: Action)
    requires Positions(s) && Enabled(s, a) && Works(a)
    ensures var s' := Step(s, a);
            s.harvested <= s'.harvested <= Grid(s.width, s.height) &&
            (forall k :: 0 <= k < |s'.queue| ==> InField(s.width, s.height, s'.queue[k])) &&
            BeeOk(s', s'.bees[a.b]) && s'.bees == s.bees[a.b := s'.bees[a.b]]
  {
  }

  lemma StepPositions(s: State, a: Action)
    requires Positions(s) && Enabled(s, a)
    ensures Positions(Step(s, a)) && s.harvested <= Step(s, a).harvested
  {
    var s' := Step(s, a);
    if Works(a) { WorkPositions(s, a); } else { QuietStep(s, a); }
    forall b | 0 <= b < |s'.bees| ensures BeeOk(s', s'.bees[b]) {
      assert BeeOk(s, s.bees[b]);
    }
  }

  lemma ActKeeps(s: State, b: nat, p: Pos)
    requires Positions(s) && Enabled(s, Act(b))
    requires !IsHarvested(s.width, s.height, Step(s, Act(b)).harvested, p)
    ensures p in s.queue ==> p in Step(s, Act(b)).queue || Carries(Step(s, Act(b)).bees[b], p)
    ensures !Carries(s.bees[b], p)
  {
  }

  lemma ScanKeeps(s: State, a: Action, p: Pos)
    requires Positions(s) && Enabled(s, a) && (a.Report? || a.Look?)
    requires !IsHarvested(s.width, s.height, s.harvested, p)
    ensures p in s.queue ==> p in Step(s, a).queue
    ensures Carries(s.bees[a.b], p) ==> p in Step(s, a).queue || Carries(Step(s, a).bees[a.b], p)
  {
  }

  /** What is on somebody's list stays there until it is harvested. */
  lemma CoveredKept(s: State, a: Action, p: Pos)
    requires Positions(s) && Enabled(s, a) && Covered(s, p)
    requires !IsHarvested(s.width, s.height, Step(s, a).harvested, p)
    ensures Covered(Step(s, a), p)
  {
    var s' := Step(s, a);
    StepPositions(s, a);
    if a.Act? { ActKeeps(s, a.b, p); }
    if a.Report? || a.Look? { ScanKeeps(s, a, p); }
    if !Works(a) { QuietStep(s, a); } else { WorkPositions(s, a); }
    if p !in s.queue {
      var b :| 0 <= b < |s.bees| && Carries(s.bees[b], p);
      if p !in s'.queue { assert Carries(s'.bees[b], p); }
    } else if p !in s'.queue {
      assert Carries(s'.bees[a.b], p);
    }
  }

  /** A harvest puts all unharvested neighbours on the list of the bee that did it. */
  lemma HarvestCovers(s: State, a: Action, q: Pos, i: int)
    requires Positions(s) && Enabled(s, a) && Edge(Step(s, a), q, i) && q !in s.harvested
    ensures Carries(Step(s, a).bees[a.b], Neighbour(q, i))
  {
  }

  lemma StepFrontier(s: State, a: Action)
    requires Positions(s) && Frontier(s) && Seeded(s) && Enabled(s, a)
    ensures Frontier(Step(s, a)) && Seeded(Step(s, a))
  {
    var s' := Step(s, a);
    StepPositions(s, a);
    if Works(a) { WorkPositions(s, a); } else { QuietStep(s, a); }
    forall q, i | Edge(s', q, i) ensures Covered(s', Neighbour(q, i)) {
      if q in s.harvested {
        assert Edge(s, q, i);
        CoveredKept(s, a, Neighbour(q, i));
      } else {
        HarvestCovers(s, a, q, i);
      }
    }
    if s'.harvested == {} {
      var p :| InField(s.width, s.height, p) && Covered(s, p);
      CoveredKept(s, a, p);
    }
  }

  /** With nothing queued and nobody collecting the whole field is harvested. */
  lemma NoPendingMeansDone(s: State)
    requires s.width >= 1 && s.height >= 1 && Positions(s) && Frontier(s) && Seeded(s)
    requires s.queue == [] && forall b :: 0 <= b < |s.bees| ==> !Scanning(s.bees[b]) && !s.bees[b].collecting
    ensures AllHarvested(s.width, s.height, s.harvested)
  {
    assert forall p :: !Covered(s, p);
    if !AllHarvested(s.width, s.height, s.harvested) {
      var p :| p in s.harvested;
      var q :| q in Grid(s.width, s.height) && q !in s.harvested;
      var at, i := FrontierBetween(s.width, s.height, s.harvested, p, q);
      assert Edge(s, at, i);
      assert false;
    }
  }

  // ---------------------------------------------------------------- phases

  lemma WorkPhases(s: State, a: Action)
    requires Positions(s) && Phases(s) && Enabled(s, a) && Works(a)
    ensures Phases(Step(s, a)) && AllWorking(s) && !Stopped(s) && AllWorking(Step(s, a))
    ensures !Stopped(Step(s, a))
  {
    WorkPositions(s, a);
    var s' := Step(s, a);
    assert Working(s.bees[a.b].pc);
    assert AllWorking(s);
    assert !Stopped(s);
    assert Working(s'.bees[a.b].pc) && !s'.bees[a.b].pc.Gone? && !s'.bees[a.b].pc.AtBear?;
  }

  lemma ArrivePhases(s: State, b: nat, leader: nat)
    requires Phases(s) && Enabled(s, Arrive(b, leader))
    ensures Phases(Step(s, Arrive(b, leader))) && AllWorking(s) && !Stopped(s)
    ensures var s' := Step(s, Arrive(b, leader));
            if s'.cycle == s.cycle then AllWorking(s')
            else !AllWorking(s') && AllAt(s.bees[b := s.bees[b].(pc := AtBear)], AtBear)
  {
    var s' := Step(s, Arrive(b, leader));
    assert Working(s.bees[b].pc);
    assert AllWorking(s) && !Stopped(s);
    if s'.cycle != s.cycle {
      assert s'.bees[leader].pc == Inspecting;
      assert SomebodyInspects(s');
    }
  }

  lemma TestPhases(s: State, b: nat)
    requires Phases(s) && Enabled(s, Test(b))
    ensures Phases(Step(s, Test(b))) && AllWorking(s) && AllWorking(Step(s, Test(b)))
  {
    var s' := Step(s, Test(b));
    assert Working(s.bees[b].pc) && Working(s'.bees[b].pc);
    assert !AllAt(s'.bees, AtBear) && !AllAt(s'.bees, AtNewCycle);
  }

  lemma SerialPhases(s: State, a: Action)
    requires Phases(s) && Enabled(s, a) && (a.Inspect? || a.Fight?)
    ensures Phases(Step(s, a)) && !AllWorking(s) && !AllWorking(Step(s, a))
  {
    var s' := Step(s, a);
    assert !Working(s.bees[a.b].pc) && !Working(s'.bees[a.b].pc);
    assert s'.bees[a.b].pc.MeetingBear? || s'.bees[a.b].pc.Ready?;
    assert s.bees[a.b].pc in {Inspecting, MeetingBear};
    assert !SomebodyInspects(s');
  }

  predicate LastToRegroup(s: State, b: nat)
    requires b < |s.bees|
  {
    AllAt(s.bees[b := s.bees[b].(pc := AtNewCycle)], AtNewCycle)
  }

  lemma RegroupWaits(s: State, b: nat)
    requires Phases(s) && Enabled(s, Regroup(b)) && !LastToRegroup(s, b)
    ensures Phases(Step(s, Regroup(b))) && !AllWorking(s) && !AllWorking(Step(s, Regroup(b)))
  {
    var s' := Step(s, Regroup(b));
    assert !Working(s.bees[b].pc) && !Working(s'.bees[b].pc);
    assert s'.bees[b].pc.AtNewCycle?;
    if SomebodyInspects(s) {
      var c :| 0 <= c < |s.bees| && s.bees[c].pc.Inspecting?;
      assert s'.bees[c].pc.Inspecting?;
    }
  }

  lemma RegroupReleases(s: State, b: nat)
    requires Phases(s) && Enabled(s, Regroup(b)) && LastToRegroup(s, b)
    ensures var s' := Step(s, Regroup(b));
            Phases(s') && !AllWorking(s) && AllWorking(s') && AllAt(s'.bees, Top) && s'.mark == Measure(s) &&
            (s'.allHarvested <==> AllHarvested(s.width, s.height, s.harvested))
  {
    var s' := Step(s, Regroup(b));
    assert !Working(s.bees[b].pc);
    var bees := s.bees[b := s.bees[b].(pc := AtNewCycle)];
    forall c | 0 <= c < |s.bees| ensures !s.bees[c].pc.Inspecting? {
      assert bees[c].pc == AtNewCycle;
    }
    assert s'.bees[b].pc.Top?;
  }

  lemma StepPhases(s: State, a: Action)
    requires Positions(s) && Phases(s) && Enabled(s, a)
    ensures Phases(Step(s, a))
  {
    match a
    case Test(b) => TestPhases(s, b);
    case Act(b) => WorkPhases(s, a);
    case Report(b) => WorkPhases(s, a);
    case Look(b) => WorkPhases(s, a);
    case Arrive(b, leader) => ArrivePhases(s, b, leader);
    case Inspect(b) => SerialPhases(s, a);
    case Fight(b, _) => SerialPhases(s, a);
    case Regroup(b) => if LastToRegroup(s, b) { RegroupReleases(s, b); } else { RegroupWaits(s, b); }
  }

  // ---------------------------------------------------------------- the clock

  /** The bee finds something to do: a target to visit or a position in the queue. */
  predicate Productive(s: State, a: Action) {
    a.Act? && a.b < |s.bees| && (s.bees[a.b].collecting || s.queue != [])
  }

  lemma WorkMeasure(s: State, a: Action)
    requires Positions(s) && Enabled(s, a) && Works(a)
    ensures Measure(Step(s, a)) <= Measure(s) - if Productive(s, a) then 1 else 0
  {
    var s' := Step(s, a);
    WorkPositions(s, a);
    assert BeeOk(s, s.bees[a.b]);
    TotalUpdate(s.bees, Weight, a.b, s'.bees[a.b]);
    if s'.harvested != s.harvested {
      assert |s'.harvested| == |s.harvested| + 1;
    }
  }

  lemma PendingKept(s: State, a: Action)
    requires Positions(s) && Phases(s) && Enabled(s, a) && AllWorking(s) && !Stopped(s)
    requires WorkPending(s) && !Productive(s, a)
    requires a.Arrive? ==> AllWorking(Step(s, a))
    ensures WorkPending(Step(s, a))
  {
    var s' := Step(s, a);
    assert Working(s.bees[a.b].pc);
    if Works(a) { WorkPositions(s, a); } else { QuietStep(s, a); }
    if c :| 0 <= c < |s.bees| && ToDo(s.bees[c]) && s.bees[c].collecting {
      assert ToDo(s'.bees[c]) && s'.bees[c].collecting;
    } else {
      assert ToDo(s.bees[a.b]);
      assert a.Test?;
    }
  }

  lemma StepClock(s: State, a: Action)
    requires Inv(s) && Enabled(s, a)
    ensures Clock(Step(s, a))
  {
    var s' := Step(s, a);
    StepPhases(s, a);
    StepPositions(s, a);
    if Works(a) { WorkMeasure(s, a); WorkPhases(s, a); } else { QuietMeasure(s, a); }
    match a
    case Test(b) =>
      TestPhases(s, b);
      if !Stopped(s) && Measure(s) == s.mark { PendingKept(s, a); }
    case Act(b) => if !Productive(s, a) && Measure(s) == s.mark { PendingKept(s, a); }
    case Report(b) => if Measure(s) == s.mark { PendingKept(s, a); }
    case Look(b) => if Measure(s) == s.mark { PendingKept(s, a); }
    case Arrive(b, leader) =>
      ArrivePhases(s, b, leader);
      if AllWorking(s') {
        if Measure(s) == s.mark { PendingKept(s, a); }
      } else {
        NothingLeftToDo(s, b);
      }
    case Inspect(b) => SerialPhases(s, a);
    case Fight(b, _) => SerialPhases(s, a);
    case Regroup(b) =>
      if LastToRegroup(s, b) {
        RegroupReleases(s, b);
        StepFrontier(s, a);
        if !Stopped(s') { FreshCycle(s'); }
      } else {
        RegroupWaits(s, b);
      }
  }

  lemma NothingLeftToDo(s: State, b: nat)
    requires b < |s.bees| && s.bees[b].pc.Resting? && AllAt(s.bees[b := s.bees[b].(pc := AtBear)], AtBear)
    ensures !WorkPending(s)
  {
    forall c | 0 <= c < |s.bees| ensures !ToDo(s.bees[c]) {
      assert s.bees[b := s.bees[b].(pc := AtBear)][c].pc == AtBear;
    }
  }

  lemma FreshCycle(s: State)
    requires s.width >= 1 && s.height >= 1 && Positions(s) && Frontier(s) && Seeded(s)
    requires |s.bees| >= 1 && AllAt(s.bees, Top) && !AllHarvested(s.width, s.height, s.harvested)
    ensures WorkPending(s)
  {
    if s.queue == [] && forall c :: 0 <= c < |s.bees| ==> !s.bees[c].collecting {
      NoPendingMeansDone(s);
    }
  }

  lemma StepRecord(s: State, a: Action)
    requires Positions(s) && Record(s) && Enabled(s, a)
    ensures Record(Step(s, a))
  {
    if !Works(a) {
      QuietStep(s, a);
    } else if Step(s, a).harvested != s.harvested {
      Collects(s, a);
      RecordGrows(s, Step(s, a), s.bees[a.b].pos);
    }
  }

  lemma Collects(s: State, a: Action)
    requires Positions(s) && Enabled(s, a) && Step(s, a).harvested != s.harvested
    ensures var p, s' := s.bees[a.b].pos, Step(s, a);
            s'.harvested == s.harvested + {p} && p !in s.harvested && s'.collected == s.collected + [p]
  {
  }

  lemma RecordGrows(s: State, s': State, p: Pos)
    requires Record(s) && p !in s.harvested
    requires s'.harvested == s.harvested + {p} && s'.collected == s.collected + [p]
    ensures Record(s')
  {
    forall j, k | 0 <= j < k < |s'.collected| ensures s'.collected[j] != s'.collected[k] {
      assert s'.collected[j] in s.harvested;
    }
  }

  lemma StepInv(s: State, a: Action)
    requires Inv(s) && Enabled(s, a)
    ensures Inv(Step(s, a))
  {
    StepPositions(s, a);
    StepFrontier(s, a);
    StepPhases(s, a);
    StepClock(s, a);
    StepRecord(s, a);
    FieldKept(s, a);
  }

  // ---------------------------------------------------------------- every run ends

  /** How far the bee is from the next barrier release. */
  function Rank(bee: Bee): int {
    match bee.pc
    case Inspecting => 16
    case MeetingBear => 15
    case Ready => 14
    case AtNewCycle => 13
    case Top => 12
    case InBody => 11
    case Reporting(i) => 10 - 2 * i
    case Looking(i) => 11 - 2 * i
    case Resting => 2
    case AtBear => 1
    case Gone => 0
  }

  function Product(x: int, y: int): int {
    x * y
  }

  lemma ProductFacts(x: int, y: nat)
    ensures x >= 0 ==> Product(x, y) >= 0
    ensures Product(x - 1, y) == Product(x, y) - y
  {
  }

  /** A whole cycle's worth of ranks for each cycle still possible, and the ranks of this one. */
  function StepsLeft(s: State): int {
    Product(Bound(s) - s.cycle, 16 * |s.bees| + 1) + Total(s.bees, Rank)
  }

  lemma MeasureNonNegative(s: State)
    requires Positions(s)
    ensures Measure(s) >= 0
  {
    CountIsFull(s.width, s.height, s.harvested);
    forall b | 0 <= b < |s.bees| ensures 0 <= Weight(s.bees[b]) <= 8 {
      assert BeeOk(s, s.bees[b]);
    }
    TotalBounds(s.bees, Weight, 0, 8);
  }

  lemma RankBounds(s: State)
    requires Positions(s)
    ensures 0 <= Total(s.bees, Rank) <= 16 * |s.bees|
  {
    forall b | 0 <= b < |s.bees| ensures 0 <= Rank(s.bees[b]) <= 16 {
      assert BeeOk(s, s.bees[b]);
    }
    TotalBounds(s.bees, Rank, 0, 16);
  }

  lemma StepsLeftNonNegative(s: State)
    requires Positions(s) && Clock(s)
    ensures s.cycle <= Bound(s) && StepsLeft(s) >= 0
  {
    MeasureNonNegative(s);
    RankBounds(s);
    ProductFacts(Bound(s) - s.cycle, 16 * |s.bees| + 1);
  }

  /** Outside the releases of the two barriers a step lowers the rank of its bee. */
  lemma OneBeeRank(s: State, a: Action)
    requires Positions(s) && Enabled(s, a)
    requires Step(s, a).cycle == s.cycle && (a.Regroup? ==> !LastToRegroup(s, a.b))
    ensures Total(Step(s, a).bees, Rank) < Total(s.bees, Rank)
  {
    var s' := Step(s, a);
    assert BeeOk(s, s.bees[a.b]);
    assert s'.bees == s.bees[a.b := s'.bees[a.b]];
    TotalUpdate(s.bees, Rank, a.b, s'.bees[a.b]);
  }

  lemma RegroupRank(s: State, b: nat)
    requires Positions(s) && Enabled(s, Regroup(b)) && LastToRegroup(s, b)
    ensures Total(Step(s, Regroup(b)).bees, Rank) < Total(s.bees, Rank)
  {
    var s' := Step(s, Regroup(b));
    var bees := s.bees[b := s.bees[b].(pc := AtNewCycle)];
    TotalUpdate(s.bees, Rank, b, bees[b]);
    TotalBounds(s'.bees, Rank, 12, 12);
    forall c | 0 <= c < |bees| ensures Rank(bees[c]) == 13 {
      assert bees[c].pc == AtNewCycle;
    }
    TotalBounds(bees, Rank, 13, 13);
  }

  lemma FieldKept(s: State, a: Action)
    requires Enabled(s, a)
    ensures var s' := Step(s, a);
            s'.width == s.width && s'.height == s.height && |s'.bees| == |s.bees|
  {
  }

  lemma ReleaseShrinks(s: State, a: Action)
    requires Positions(s) && Enabled(s, a) && Step(s, a).cycle != s.cycle
    ensures StepsLeft(Step(s, a)) < StepsLeft(s)
  {
    FieldKept(s, a);
    StepPositions(s, a);
    RankBounds(Step(s, a));
    ReleaseRank(s, a);
    ProductFacts(Bound(s) - s.cycle, 16 * |s.bees| + 1);
  }

  lemma StepsShrink(s: State, a: Action)
    requires Positions(s) && Enabled(s, a)
    ensures StepsLeft(Step(s, a)) < StepsLeft(s)
  {
    FieldKept(s, a);
    if Step(s, a).cycle != s.cycle {
      ReleaseShrinks(s, a);
    } else if a.Regroup? && LastToRegroup(s, a.b) {
      RegroupRank(s, a.b);
    } else {
      OneBeeRank(s, a);
    }
  }

  lemma ReleaseRank(s: State, a: Action)
    requires Enabled(s, a) && Step(s, a).cycle != s.cycle
    ensures a.Arrive? && Step(s, a).cycle == s.cycle + 1
    ensures Positions(s) ==> Total(s.bees, Rank) >= 1
  {
    if Positions(s) {
      var bees := s.bees[a.b := s.bees[a.b].(pc := AtBear)];
      TotalUpdate(s.bees, Rank, a.b, bees[a.b]);
      forall c | 0 <= c < |bees| ensures Rank(bees[c]) == 1 {
        assert bees[c].pc == AtBear;
      }
      TotalBounds(bees, Rank, 1, 1);
    }
  }

  lemma {:induction false} RunInv(s: State, actions: seq<Action>)
    requires Inv(s) && Legal(s, actions)
    ensures Inv(Run(s, actions)) && |actions| + StepsLeft(Run(s, actions)) <= StepsLeft(s)
    ensures var e := Run(s, actions); e.width == s.width && e.height == s.height && |e.bees| == |s.bees|
    decreases |actions|
  {
    if actions == [] {
    } else {
      StepInv(s, actions[0]);
      StepsShrink(s, actions[0]);
      FieldKept(s, actions[0]);
      RunInv(Step(s, actions[0]), actions[1..]);
    }
  }

  predicate AllGone(s: State) {
    forall b :: 0 <= b < |s.bees| ==> s.bees[b].pc.Gone?
  }

  /** The action by which a bee goes on, if it is not held by a barrier or gone. */
  function NextAction(s: State, b: nat): Action
    requires b < |s.bees|
  {
    match s.bees[b].pc
    case Top => Test(b)
    case InBody => Act(b)
    case Reporting(_) => Report(b)
    case Looking(_) => Look(b)
    case Resting => Arrive(b, b)
    case Inspecting => Inspect(b)
    case MeetingBear => Fight(b, false)
    case _ => Regroup(b)
  }

  /** No bee is left at a barrier: until all are gone, some bee can go on. */
  lemma NoDeadlock(s: State)
    requires Inv(s) && !AllGone(s)
    ensures exists a :: Enabled(s, a)
  {
    var b: nat;
    if AllMeeting(s) {
      b :| 0 <= b < |s.bees| && s.bees[b].pc != AtNewCycle;
      assert !Working(s.bees[b].pc);
    } else if Stopped(s) {
      b :| 0 <= b < |s.bees| && !s.bees[b].pc.Gone?;
    } else {
      b :| 0 <= b < |s.bees| && s.bees[b].pc != AtBear;
      assert Working(s.bees[b].pc) && BeeOk(s, s.bees[b]);
    }
    assert BeeOk(s, s.bees[b]);
    assert Enabled(s, NextAction(s, b));
  }

  /** The bees leave the loop in the same cycle: once one is gone, no other is past its test of the flags. */
  lemma LeaveTogether(s: State, b: nat)
    requires Inv(s) && b < |s.bees| && s.bees[b].pc.Gone?
    ensures Stopped(s) && forall c :: 0 <= c < |s.bees| ==> s.bees[c].pc.Top? || s.bees[c].pc.Gone?
  {
  }

  /** Every completed cycle has done at least one unit of work. */
  lemma CycleDoesWork(s: State, b: nat, leader: nat)
    requires Inv(s) && Enabled(s, Arrive(b, leader)) && Step(s, Arrive(b, leader)).cycle != s.cycle
    ensures Measure(s) < s.mark
  {
    ArrivePhases(s, b, leader);
    NothingLeftToDo(s, b);
  }

  /** What the invariant says of the flowers and of the end. */
  lemma InvMeans(s: State)
    requires Inv(s)
    ensures s.cycle <= Bound(s) && StepsLeft(s) >= 0
    ensures !AllGone(s) ==> exists a :: Enabled(s, a)
    ensures |s.collected| == |s.harvested| <= s.width * s.height
    ensures AllGone(s) && !s.hiveDestroyed ==> |s.collected| == s.width * s.height
  {
    StepsLeftNonNegative(s);
    CountIsFull(s.width, s.height, s.harvested);
    if AllGone(s) {
      assert s.bees[0].pc.Gone?;
    } else {
      NoDeadlock(s);
    }
  }

  // ---------------------------------------------------------------- what a run does, action by action

  /** Some fight of the run was lost. */
  predicate BearWon(actions: seq<Action>) {
    exists i :: 0 <= i < |actions| && actions[i].Fight? && actions[i].destroyed
  }

  /** The hive is destroyed exactly by a lost fight. */
  lemma {:induction false} DestroyedIffBearWon(s: State, actions: seq<Action>)
    requires Legal(s, actions)
    ensures Run(s, actions).hiveDestroyed <==> s.hiveDestroyed || BearWon(actions)
    decreases |actions|
  {
    if actions == [] {
    } else {
      var a, rest := actions[0], actions[1..];
      DestroyedIffBearWon(Step(s, a), rest);
      if BearWon(rest) {
        var i :| 0 <= i < |rest| && rest[i].Fight? && rest[i].destroyed;
        assert actions[i + 1] == rest[i];
      }
      if i :| 0 <= i < |actions| && actions[i].Fight? && actions[i].destroyed {
        if i > 0 { assert rest[i - 1] == actions[i]; }
      }
    }
  }

  /** Once the hive is destroyed nothing more is collected. */
  lemma {:induction false} NothingAfterDefeat(s: State, actions: seq<Action>)
    requires Inv(s) && s.hiveDestroyed && Legal(s, actions)
    ensures Run(s, actions).collected == s.collected && Run(s, actions).queue == s.queue
    decreases |actions|
  {
    if actions == [] {
    } else {
      DefeatStep(s, actions[0]);
      StepInv(s, actions[0]);
      NothingAfterDefeat(Step(s, actions[0]), actions[1..]);
    }
  }

  lemma DefeatStep(s: State, a: Action)
    requires Inv(s) && s.hiveDestroyed && Enabled(s, a)
    ensures var s' := Step(s, a);
            s'.collected == s.collected && s'.queue == s.queue && s'.hiveDestroyed
  {
    if Works(a) { WorkPhases(s, a); } else { QuietStep(s, a); }
  }

  /** The position reported by an action, if any. */
  function ReportedNow(s: State, a: Action): seq<Pos>
    requires Enabled(s, a)
  {
    if a.Report? then [Neighbour(s.bees[a.b].pos, s.bees[a.b].pc.slot)] else []
  }

  /** The position for which a bee sets out with an action, if any. */
  function SetOutNow(s: State, a: Action): seq<Pos>
    requires Enabled(s, a)
  {
    if a.Act? && !s.bees[a.b].collecting && Step(s, a).bees[a.b].collecting then [Step(s, a).bees[a.b].pos] else []
  }

  /** The positions reported in a run, in order. */
  function Reported(s: State, actions: seq<Action>): seq<Pos>
    requires Legal(s, actions)
    decreases |actions|
  {
    if actions == [] then [] else ReportedNow(s, actions[0]) + Reported(Step(s, actions[0]), actions[1..])
  }

  /** The positions that bees of a run have set out for, in order. */
  function SetOutFor(s: State, actions: seq<Action>): seq<Pos>
    requires Legal(s, actions)
    decreases |actions|
  {
    if actions == [] then [] else SetOutNow(s, actions[0]) + SetOutFor(Step(s, actions[0]), actions[1..])
  }

  /** The queue is first in, first out: bees set out for the positions in the order of the reports. */
  lemma {:induction false} FirstInFirstOut(s: State, actions: seq<Action>)
    requires Legal(s, actions)
    ensures s.queue + Reported(s, actions) == SetOutFor(s, actions) + Run(s, actions).queue
    decreases |actions|
  {
    if actions == [] {
    } else {
      var s' := Step(s, actions[0]);
      FirstInFirstOut(s', actions[1..]);
      QueueStep(s, actions[0]);
      Passing(s.queue, ReportedNow(s, actions[0]), SetOutNow(s, actions[0]), s'.queue,
              Reported(s', actions[1..]), SetOutFor(s', actions[1..]), Run(s', actions[1..]).queue);
    }
  }

  lemma Passing(q: seq<Pos>, r: seq<Pos>, t: seq<Pos>, q': seq<Pos>, r': seq<Pos>, t': seq<Pos>, end: seq<Pos>)
    requires q + r == t + q' && q' + r' == t' + end
    ensures q + (r + r') == (t + t') + end
  {
    assert q + (r + r') == (q + r) + r' == (t + q') + r' == t + (q' + r');
  }

  lemma QueueStep(s: State, a: Action)
    requires Enabled(s, a)
    ensures s.queue + ReportedNow(s, a) == SetOutNow(s, a) + Step(s, a).queue
  {
  }

  /** The neighbours from a slot on that are still unharvested, in order. */
  function Listed(w: int, h: int, harvested: set<Pos>, p: Pos, slot: nat): seq<Pos>
    requires slot <= 4
    decreases 4 - slot
  {
    if slot == 4 then []
    else
      (if IsHarvested(w, h, harvested, Neighbour(p, slot)) then [] else [Neighbour(p, slot)]) +
      Listed(w, h, harvested, p, slot + 1)
  }

  /** A bee that is left alone reports all of them and then rests. */
  lemma {:induction false} ScanOn(s: State, bee: Bee, slot: nat) returns (actions: seq<Action>)
    requires slot <= 4 && s.bees == [GoOn(s.width, s.height, s.harvested, bee, slot)]
    ensures Legal(s, actions)
    ensures var e := Run(s, actions);
            e.queue == s.queue + Listed(s.width, s.height, s.harvested, bee.pos, slot) &&
            e.harvested == s.harvested && e.collected == s.collected && e.bees == [Bee(Resting, false, bee.pos)]
    decreases 4 - slot
  {
    var j := NextSlot(s.width, s.height, s.harvested, bee.pos, slot);
    ListedSkips(s.width, s.height, s.harvested, bee.pos, slot, j);
    if j == 4 {
      actions := [];
      assert Legal(s, []) && Run(s, []) == s;
    } else {
      var bee', s2 := ReportAndLook(s, bee, slot, j);
      var rest := ScanOn(s2, bee', j + 1);
      ListedHere(s.width, s.height, s.harvested, bee.pos, j, s.queue);
      RunConcat(s, [Report(0), Look(0)], rest);
      actions := [Report(0), Look(0)] + rest;
    }
  }

  lemma ReportAndLook(s: State, bee: Bee, slot: nat, j: nat) returns (bee': Bee, s2: State)
    requires slot <= 4 && s.bees == [GoOn(s.width, s.height, s.harvested, bee, slot)]
    requires j == NextSlot(s.width, s.height, s.harvested, bee.pos, slot) < 4
    ensures Legal(s, [Report(0), Look(0)]) && s2 == Run(s, [Report(0), Look(0)]) && bee'.pos == bee.pos
    ensures s2 == s.(queue := s.queue + [Neighbour(bee.pos, j)], bees := s2.bees)
    ensures s2.bees == [GoOn(s.width, s.height, s.harvested, bee', j + 1)]
  {
    var s1 := Step(s, Report(0));
    bee' := s1.bees[0];
    s2 := Step(s1, Look(0));
    TwoSteps(s, Report(0), Look(0));
  }

  lemma TwoSteps(s: State, a: Action, b: Action)
    requires Enabled(s, a) && Enabled(Step(s, a), b)
    ensures Legal(s, [a, b]) && Run(s, [a, b]) == Step(Step(s, a), b)
  {
    var s2 := Step(Step(s, a), b);
    assert [a, b][1..] == [b] && [b][1..] == [];
    assert Legal(s2, []) && Run(s2, []) == s2;
    assert Run(Step(s, a), [b]) == s2;
  }

  lemma {:induction false} RunConcat(s: State, a: seq<Action>, b: seq<Action>)
    requires Legal(s, a) && Legal(Run(s, a), b)
    ensures Legal(s, a + b) && Run(s, a + b) == Run(Run(s, a), b)
    decreases |a|
  {
    if a == [] {
      assert a + b == b;
    } else {
      assert (a + b)[1..] == a[1..] + b;
      RunConcat(Step(s, a[0]), a[1..], b);
    }
  }

  lemma ListedHere(w: int, h: int, harvested: set<Pos>, p: Pos, j: nat, queue: seq<Pos>)
    requires j < 4 && !IsHarvested(w, h, harvested, Neighbour(p, j))
    ensures (queue + [Neighbour(p, j)]) + Listed(w, h, harvested, p, j + 1) == queue + Listed(w, h, harvested, p, j)
  {
  }

  lemma {:induction false} ListedSkips(w: int, h: int, harvested: set<Pos>, p: Pos, slot: nat, j: nat)
    requires slot <= j <= 4 && forall k :: slot <= k < j ==> IsHarvested(w, h, harvested, Neighbour(p, k))
    ensures Listed(w, h, harvested, p, slot) == Listed(w, h, harvested, p, j)
    decreases j - slot
  {
    if slot < j { ListedSkips(w, h, harvested, p, slot + 1, j); }
  }

  /** Those of the four positions that lie in the field, in order. */
  function Inside(w: int, h: int, ps: seq<Pos>): seq<Pos> {
    if ps == [] then []
    else (if InField(w, h, ps[0]) then [ps[0]] else []) + Inside(w, h, ps[1..])
  }

  /**
   A single bee flies to the seed, collects there, and reports what lies in the field to its right, left,
   below and above, in this order.
   */
  lemma LoneBee(width: nat, height: nat, seed: Pos, garbage: Pos) returns (actions: seq<Action>)
    requires InField(width, height, seed)
    ensures Legal(Init(width, height, seed, [garbage]), actions)
    ensures var e, x, y := Run(Init(width, height, seed, [garbage]), actions), seed.x, seed.y;
            e.harvested == {seed} && e.collected == [seed] &&
            e.queue == Inside(width, height, [Pos(x + 1, y), Pos(x - 1, y), Pos(x, y + 1), Pos(x, y - 1)])
  {
    var s0 := Init(width, height, seed, [garbage]);
    var first := SetOut(width, height, seed, garbage);
    var s1 := Run(s0, first);
    var second := NextMorning(s1, seed);
    RunConcat(s0, first, second);
    var s2 := Run(s1, second);
    TwoSteps(s2, Test(0), Act(0));
    RunConcat(s0, first + second, [Test(0), Act(0)]);
    var s3 := Run(s2, [Test(0), Act(0)]);
    var third := ScanOn(s3, Bee(InBody, true, seed), 0);
    AllListed(width, height, seed);
    RunConcat(s0, first + second + [Test(0), Act(0)], third);
    actions := first + second + [Test(0), Act(0)] + third;
  }

  /** The bee takes the seed from the queue. */
  lemma SetOut(width: nat, height: nat, seed: Pos, garbage: Pos) returns (actions: seq<Action>)
    ensures Legal(Init(width, height, seed, [garbage]), actions)
    ensures var e := Run(Init(width, height, seed, [garbage]), actions);
            e == Init(width, height, seed, [garbage]).(queue := [], bees := [Bee(Resting, true, seed)])
  {
    var s0 := Init(width, height, seed, [garbage]);
    assert s0.bees == [Bee(Top, false, garbage)];
    TwoSteps(s0, Test(0), Act(0));
    actions := [Test(0), Act(0)];
    assert Step(Step(s0, Test(0)), Act(0)).bees == [Bee(Resting, true, seed)];
  }

  /** It passes both barriers, without a bear. */
  lemma NextMorning(s: State, seed: Pos) returns (actions: seq<Action>)
    requires InField(s.width, s.height, seed) && s.bees == [Bee(Resting, true, seed)]
    requires s.harvested == {} && !s.allHarvested && !s.hiveDestroyed
    ensures Legal(s, actions)
    ensures var e := Run(s, actions);
            e == s.(bees := [Bee(Top, true, seed)], cycle := e.cycle, mark := e.mark)
  {
    var s1 := Step(s, Arrive(0, 0));
    assert s.bees[0 := s.bees[0].(pc := AtBear)] == [Bee(AtBear, true, seed)];
    assert s1.bees == [Bee(Inspecting, true, seed)];
    var s2 := Step(s1, Inspect(0));
    assert seed in Grid(s.width, s.height) && !s2.allHarvested;
    var s3 := Step(s2, Fight(0, false));
    var s4 := Step(s3, Regroup(0));
    assert s3.bees[0 := s3.bees[0].(pc := AtNewCycle)] == [Bee(AtNewCycle, true, seed)];
    assert s4.bees == [Bee(Top, true, seed)];
    TwoSteps(s, Arrive(0, 0), Inspect(0));
    TwoSteps(s2, Fight(0, false), Regroup(0));
    RunConcat(s, [Arrive(0, 0), Inspect(0)], [Fight(0, false), Regroup(0)]);
    actions := [Arrive(0, 0), Inspect(0)] + [Fight(0, false), Regroup(0)];
  }

  lemma AllListed(w: int, h: int, p: Pos)
    ensures Listed(w, h, {p}, p, 0) ==
            Inside(w, h, [Pos(p.x + 1, p.y), Pos(p.x - 1, p.y), Pos(p.x, p.y + 1), Pos(p.x, p.y - 1)])
  {
    var a, b, c, d := Pos(p.x + 1, p.y), Pos(p.x - 1, p.y), Pos(p.x, p.y + 1), Pos(p.x, p.y - 1);
    assert [a, b, c, d][1..] == [b, c, d] && [b, c, d][1..] == [c, d] && [c, d][1..] == [d] && [d][1..] == [];
    assert Listed(w, h, {p}, p, 3) == Inside(w, h, [d]);
    assert Listed(w, h, {p}, p, 2) == Inside(w, h, [c, d]);
    assert Listed(w, h, {p}, p, 1) == Inside(w, h, [b, c, d]);
  }

  lemma InitSteps(width: nat, height: nat, seed: Pos, garbage: seq<Pos>)
    ensures StepsLeft(Init(width, height, seed, garbage)) ==
            (8 * (width * height) + 2) * (16 * |garbage| + 1) + 12 * |garbage|
  {
    TotalBounds(Init(width, height, seed, garbage).bees, Rank, 12, 12);
  }

  /**
   The whole simulation. For every field, number of bees and interleaving: at most
   8 * width * height + 2 cycles are completed and the number of steps is bounded; some bee
   can go on until all have left the loop; the flowers collected are pairwise distinct and
   as many as are harvested; the hive is destroyed exactly if some fight was lost; and when all have
   left and none was, every flower of the field has been collected.
   */
  lemma {:induction false} BeehiveTheorem(width: nat, height: nat, seed: Pos, garbage: seq<Pos>, actions: seq<Action>)
    requires width >= 1 && height >= 1 && InField(width, height, seed) && |garbage| >= 1
    requires Legal(Init(width, height, seed, garbage), actions)
    ensures var s := Run(Init(width, height, seed, garbage), actions);
            var n, bound := |garbage|, 8 * (width * height) + 2;
            Inv(s) && s.cycle <= bound && |actions| <= bound * (16 * n + 1) + 12 * n &&
            (!AllGone(s) ==> exists a :: Enabled(s, a)) &&
            |s.collected| == |s.harvested| <= width * height &&
            (forall j, k :: 0 <= j < k < |s.collected| ==> s.collected[j] != s.collected[k]) &&
            (s.hiveDestroyed <==> BearWon(actions)) &&
            (AllGone(s) && !BearWon(actions) ==> |s.collected| == width * height)
  {
    var s0 := Init(width, height, seed, garbage);
    InitInv(width, height, seed, garbage);
    InitSteps(width, height, seed, garbage);
    RunInv(s0, actions);
    DestroyedIffBearWon(s0, actions);
    InvMeans(Run(s0, actions));
  }
}
