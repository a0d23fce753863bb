/** The flower field: the grid as a set of harvested positions, its connectivity, and the mutable field object. */
module FlowerField {

  datatype Pos = Pos(x: int, y: int)

  predicate InField(w: int, h: int, p: Pos) {
    0 <= p.x < w && 0 <= p.y < h
  }

  function Grid(w: int, h: int): set<Pos> {
    set x: int, y: int | 0 <= x < w && 0 <= y < h :: Pos(x, y)
  }

  /** Positions outside the field count as harvested. */
  predicate IsHarvested(w: int, h: int, harvested: set<Pos>, p: Pos) {
    !InField(w, h, p) || p in harvested
  }

  /** The four positions a bee looks at, in the order in which it looks. */
  function Neighbour(p: Pos, i: int): Pos {
    if i == 0 then Pos(p.x + 1, p.y)
    else if i == 1 then Pos(p.x - 1, p.y)
    else if i == 2 then Pos(p.x, p.y + 1)
    else Pos(p.x, p.y - 1)
  }

  lemma {:induction false} GridSize(w: nat, h: nat)
    ensures |Grid(w, h)| == w * h
  {
    if w == 0 {
      assert Grid(w, h) == {};
    } else {
      GridSize(w - 1, h);
      ColumnSize(w - 1, h);
      assert Grid(w, h) == Grid(w - 1, h) + Column(w - 1, h);
      assert w * h == (w - 1) * h + h;
    }
  }

  function Column(x: int, h: int): set<Pos> {
    set y: int | 0 <= y < h :: Pos(x, y)
  }

  lemma {:induction false} ColumnSize(x: int, h: nat)
    ensures |Column(x, h)| == h
  {
    if h == 0 {
      assert Column(x, h) == {};
    } else {
      ColumnSize(x, h - 1);
      assert Column(x, h) == Column(x, h - 1) + {Pos(x, h - 1)};
    }
  }

  lemma SubsetSize(a: set<Pos>, b: set<Pos>)
    requires a <= b
    ensures |a| <= |b|
    ensures |a| == |b| ==> a == b
  {
    assert b == a + (b - a);
  }

  predicate AllHarvested(w: int, h: int, harvested: set<Pos>) {
    Grid(w, h) <= harvested
  }

  /** The count equals width * height exactly when everything is harvested. */
  lemma CountIsFull(w: nat, h: nat, harvested: set<Pos>)
    requires harvested <= Grid(w, h)
    ensures |harvested| <= w * h
    ensures |harvested| == w * h <==> AllHarvested(w, h, harvested)
  {
    GridSize(w, h);
    SubsetSize(harvested, Grid(w, h));
    if AllHarvested(w, h, harvested) { assert harvested == Grid(w, h); }
  }

  /** One step from p towards q. */
  function Towards(p: Pos, q: Pos): int
    requires p != q
  {
    if p.x < q.x then 0 else if p.x > q.x then 1 else if p.y < q.y then 2 else 3
  }

  function Abs(x: int): nat {
    if x < 0 then -x else x
  }

  /** The grid is connected: between a harvested and an unharvested flower runs a frontier. */
  lemma {:induction false} FrontierBetween(w: int, h: int, harvested: set<Pos>, p: Pos, q: Pos)
    returns (at: Pos, i: int)
    requires InField(w, h, p) && InField(w, h, q) && p in harvested && q !in harvested
    ensures at in harvested && 0 <= i < 4
    ensures InField(w, h, Neighbour(at, i)) && Neighbour(at, i) !in harvested
    decreases Abs(p.x - q.x) + Abs(p.y - q.y)
  {
    at, i := p, Towards(p, q);
    var n := Neighbour(p, i);
    if n in harvested {
      at, i := FrontierBetween(w, h, harvested, n, q);
    }
  }

  /** First neighbour at or after slot i that is still unharvested, 4 if there is none. */
  function NextSlot(w: int, h: int, harvested: set<Pos>, p: Pos, i: nat): (j: nat)
    requires i <= 4
    ensures i <= j <= 4
    ensures j < 4 ==> !IsHarvested(w, h, harvested, Neighbour(p, j))
    ensures forall k :: i <= k < j ==> IsHarvested(w, h, harvested, Neighbour(p, k))
    decreases 4 - i
  {
    if i == 4 || !IsHarvested(w, h, harvested, Neighbour(p, i)) then i
    else NextSlot(w, h, harvested, p, i + 1)
  }

  /** `field_t`. */
  class Field {
    const width: nat
    const height: nat
    const flowers: array2<bool>

    ghost predicate Valid() {
      flowers.Length0 == width && flowers.Length1 == height
    }

    ghost function Harvested(): (s: set<Pos>)
      requires Valid()
      reads flowers
      ensures s <= Grid(width, height)
    {
      set x: int, y: int | 0 <= x < width && 0 <= y < height && flowers[x, y] :: Pos(x, y)
    }

    /** Harvested positions in the first i columns and the first j cells of column i. */
    ghost function Seen(i: int, j: int): set<Pos>
      requires Valid()
      reads flowers
    {
      set x: int, y: int |
        0 <= x < width && 0 <= y < height && flowers[x, y] && (x < i || (x == i && y < j)) :: Pos(x, y)
    }

    lemma SeenStep(i: nat, j: nat)
      requires Valid() && i < width && j < height
      ensures |Seen(i, j + 1)| == |Seen(i, j)| + if flowers[i, j] then 1 else 0
    {
      assert Seen(i, j + 1) == Seen(i, j) + if flowers[i, j] then {Pos(i, j)} else {};
    }

    lemma SeenEnds(i: nat)
      requires Valid() && i < width
      ensures Seen(i, height) == Seen(i + 1, 0)
    {
    }

    lemma SeenAll()
      requires Valid()
      ensures Seen(width, 0) == Harvested()
    {
    }

    constructor (w: nat, h: nat)
      ensures Valid() && fresh(flowers) && width == w && height == h
      ensures Harvested() == {}
    {
      width, height := w, h;
      flowers := new bool[w, h];
      new;
      for i := 0 to w
        invariant forall x, y :: 0 <= x < i && 0 <= y < h ==> !flowers[x, y]
      {
        for j := 0 to h
          invariant forall x, y :: 0 <= x < i && 0 <= y < h ==> !flowers[x, y]
          invariant forall y :: 0 <= y < j ==> !flowers[i, y]
        {
          flowers[i, j] := false;
        }
      }
    }

    method Harvest(p: Pos)
      requires Valid()
      modifies flowers
      ensures Harvested() == if InField(width, height, p) then old(Harvested()) + {p} else old(Harvested())
    {
      if p.x >= 0 && p.x < width && p.y >= 0 && p.y < height {
        flowers[p.x, p.y] := true;
        assert p in Harvested();
        forall q | q in Harvested() && q != p ensures q in old(Harvested()) {
          assert old(flowers[q.x, q.y]);
        }
        forall q | q in old(Harvested()) ensures q in Harvested() {
          assert flowers[q.x, q.y];
        }
      }
    }

    method IsFlowerHarvested(p: Pos) returns (b: bool)
      requires Valid()
      ensures b == IsHarvested(width, height, Harvested(), p)
    {
      if p.x < 0 || p.x >= width || p.y < 0 || p.y >= height {
        return true;
      } else {
        return flowers[p.x, p.y];
      }
    }

    method CountHarvested() returns (count: nat)
      requires Valid()
      ensures count == |Harvested()|
      ensures count == width * height <==> AllHarvested(width, height, Harvested())
    {
      count := 0;
      assert Seen(0, 0) == {};
      for i := 0 to width
        invariant count == |Seen(i, 0)|
      {
        for j := 0 to height
          invariant count == |Seen(i, j)|
        {
          SeenStep(i, j);
          if flowers[i, j] {
            count := count + 1;
          }
        }
        SeenEnds(i);
      }
      SeenAll();
      CountIsFull(width, height, Harvested());
    }

    method AllIsHarvested() returns (all: bool)
      requires Valid()
      ensures all == AllHarvested(width, height, Harvested())
    {
      for i := 0 to width
        invariant forall x, y :: 0 <= x < i && 0 <= y < height ==> flowers[x, y]
      {
        for j := 0 to height
          invariant forall x, y :: 0 <= x < i && 0 <= y < height ==> flowers[x, y]
          invariant forall y :: 0 <= y < j ==> flowers[i, y]
        {
          if !flowers[i, j] {
            assert Pos(i, j) in Grid(width, height) && Pos(i, j) !in Harvested();
            return false;
          }
        }
      }
      return true;
    }
  }
}
