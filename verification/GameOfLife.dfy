/** The double-buffered Game of Life on a field with a dead border. */
module GameOfLife {
  import opened Arithmetic

  type Cells = seq<bool>

  /** Cell (x, y) in the flattened field of width w. */
  function Index(w: int, x: int, y: int): int {
    x + y * w
  }

  predicate Inside(w: int, h: int, x: int, y: int) {
    0 <= x < w && 0 <= y < h
  }

  function Area(w: int, h: int): int {
    w * h
  }

  lemma IndexInRange(w: nat, h: nat, x: int, y: int)
    requires Inside(w, h, x, y)
    ensures 0 <= Index(w, x, y) < Area(w, h)
  {
    Monotone(0, y, w);
    Monotone(y + 1, h, w);
    assert (y + 1) * w == y * w + w;
  }

  /** Different cells have different indices. */
  lemma IndexInjective(w: nat, h: nat, x: int, y: int, a: int, b: int)
    requires Inside(w, h, x, y) && Inside(w, h, a, b) && Index(w, x, y) == Index(w, a, b)
    ensures x == a && y == b
  {
    var d := y - b;
    assert d * w == y * w - b * w == a - x;
    Multiple(d, w);
  }

  /** Every index is the index of a cell. */
  lemma CellOf(w: nat, h: nat, i: nat) returns (x: int, y: int)
    requires i < Area(w, h)
    ensures Inside(w, h, x, y) && Index(w, x, y) == i
  {
    assert w > 0;
    x, y := i % w, i / w;
    assert i == x + y * w;
    Monotone(h, y, w);
  }

  predicate Sized(w: nat, h: nat, cells: Cells) {
    |cells| == Area(w, h)
  }

  /** Cells outside the field are dead. */
  function Alive(w: nat, h: nat, cells: Cells, x: int, y: int): bool
    requires Sized(w, h, cells)
  {
    if Inside(w, h, x, y) then
      IndexInRange(w, h, x, y);
      cells[Index(w, x, y)]
    else false
  }

  function Count(b: bool): nat {
    if b then 1 else 0
  }

  /** Living cells among the eight around (x, y). */
  function Neighbours(w: nat, h: nat, cells: Cells, x: int, y: int): nat
    requires Sized(w, h, cells)
  {
    Count(Alive(w, h, cells, x - 1, y - 1)) + Count(Alive(w, h, cells, x, y - 1)) +
    Count(Alive(w, h, cells, x + 1, y - 1)) +
    Count(Alive(w, h, cells, x - 1, y)) + Count(Alive(w, h, cells, x + 1, y)) +
    Count(Alive(w, h, cells, x - 1, y + 1)) + Count(Alive(w, h, cells, x, y + 1)) +
    Count(Alive(w, h, cells, x + 1, y + 1))
  }

  /** Conway's rule: alive with three living neighbours, or with two if alive already. */
  predicate Lives(w: nat, h: nat, cells: Cells, x: int, y: int)
    requires Sized(w, h, cells)
  {
    var n := Neighbours(w, h, cells, x, y);
    n == 3 || (n == 2 && Alive(w, h, cells, x, y))
  }

  /** `next` is the generation after `cells`. */
  ghost predicate Follows(w: nat, h: nat, cells: Cells, next: Cells) {
    Sized(w, h, cells) && Sized(w, h, next) &&
    forall x, y :: Inside(w, h, x, y) ==> Alive(w, h, next, x, y) == Lives(w, h, cells, x, y)
  }

  /** The cell, if it lives. */
  function Living(w: nat, h: nat, cells: Cells, x: int, y: int): (r: set<(int, int)>)
    requires Sized(w, h, cells)
  {
    if Alive(w, h, cells, x, y) then {(x, y)} else {}
  }

  /** The living cells other than (x, y) that are at most one away from it in each direction. */
  function LivingAround(w: nat, h: nat, cells: Cells, x: int, y: int): (r: set<(int, int)>)
    requires Sized(w, h, cells)
    ensures forall a, b :: (a, b) in r <==>
              x - 1 <= a <= x + 1 && y - 1 <= b <= y + 1 && (a, b) != (x, y) && Alive(w, h, cells, a, b)
  {
    set a: int, b: int | x - 1 <= a <= x + 1 && y - 1 <= b <= y + 1 && (a, b) != (x, y) && Alive(w, h, cells, a, b)
      :: (a, b)
  }

  /** The living of a row of three. */
  function LivingRow(w: nat, h: nat, cells: Cells, x: int, y: int): (r: set<(int, int)>)
    requires Sized(w, h, cells)
    ensures |r| == Count(Alive(w, h, cells, x - 1, y)) + Count(Alive(w, h, cells, x, y)) +
                   Count(Alive(w, h, cells, x + 1, y))
    ensures forall a, b :: (a, b) in r <==> b == y && x - 1 <= a <= x + 1 && Alive(w, h, cells, a, b)
  {
    Living(w, h, cells, x - 1, y) + Living(w, h, cells, x, y) + Living(w, h, cells, x + 1, y)
  }

  lemma AroundHas(w: nat, h: nat, cells: Cells, x: int, y: int, a: int, b: int)
    requires Sized(w, h, cells)
    ensures (a, b) in LivingAround(w, h, cells, x, y) <==>
            (a, b) in LivingRow(w, h, cells, x, y - 1) ||
            ((a, b) in LivingRow(w, h, cells, x, y) && (a, b) != (x, y)) ||
            (a, b) in LivingRow(w, h, cells, x, y + 1)
  {
  }

  lemma SameMembers(all: set<(int, int)>, above: set<(int, int)>, beside: set<(int, int)>, below: set<(int, int)>,
                    me: (int, int))
    requires forall p :: p in all <==> p in above || (p in beside && p != me) || p in below
    ensures all == above + (beside - {me}) + below
  {
  }

  lemma AroundIs(w: nat, h: nat, cells: Cells, x: int, y: int)
    requires Sized(w, h, cells)
    ensures LivingAround(w, h, cells, x, y) ==
            LivingRow(w, h, cells, x, y - 1) + (LivingRow(w, h, cells, x, y) - {(x, y)}) +
            LivingRow(w, h, cells, x, y + 1)
  {
    var all, me := LivingAround(w, h, cells, x, y), (x, y);
    var above, beside, below := LivingRow(w, h, cells, x, y - 1), LivingRow(w, h, cells, x, y),
                                LivingRow(w, h, cells, x, y + 1);
    forall p: (int, int) ensures p in all <==> p in above || (p in beside && p != me) || p in below {
      AroundHas(w, h, cells, x, y, p.0, p.1);
    }
    SameMembers(all, above, beside, below, me);
  }

  lemma Disjoint(a: set<(int, int)>, b: set<(int, int)>, c: set<(int, int)>)
    requires a !! b && (a + b) !! c
    ensures |a + b + c| == |a| + |b| + |c|
  {
  }

  lemma Without(a: set<(int, int)>, x: (int, int))
    ensures |a - {x}| == |a| - if x in a then 1 else 0
  {
    if x !in a { assert a - {x} == a; }
  }

  lemma CountsAround(w: nat, h: nat, cells: Cells, x: int, y: int)
    requires Sized(w, h, cells)
    ensures |LivingAround(w, h, cells, x, y)| == Neighbours(w, h, cells, x, y)
  {
    AroundIs(w, h, cells, x, y);
    Without(LivingRow(w, h, cells, x, y), (x, y));
    Disjoint(LivingRow(w, h, cells, x, y - 1), LivingRow(w, h, cells, x, y) - {(x, y)},
             LivingRow(w, h, cells, x, y + 1));
  }

  /**
   Conway's rule in his words: a living cell goes on living with two or three living
   neighbours, a dead one comes to life with three; neighbours counted as a set.
   */
  lemma RuleOfLife(w: nat, h: nat, cells: Cells, next: Cells, x: int, y: int)
    requires Follows(w, h, cells, next) && Inside(w, h, x, y)
    ensures var n := |LivingAround(w, h, cells, x, y)|;
            Alive(w, h, next, x, y) <==> if Alive(w, h, cells, x, y) then 2 <= n <= 3 else n == 3
  {
    CountsAround(w, h, cells, x, y);
  }

  /** The cells up to (x, y) in the order of the loops have been written. */
  ghost predicate WrittenUpTo(w: nat, h: nat, cells: Cells, next: Cells, x: int, y: int) {
    Sized(w, h, cells) && Sized(w, h, next) &&
    forall a, b :: Inside(w, h, a, b) && (a < x || (a == x && b < y)) ==>
      Alive(w, h, next, a, b) == Lives(w, h, cells, a, b)
  }

  lemma WriteCell(w: nat, h: nat, cells: Cells, next: Cells, x: int, y: int, v: bool)
    requires WrittenUpTo(w, h, cells, next, x, y) && Inside(w, h, x, y) && v == Lives(w, h, cells, x, y)
    ensures 0 <= Index(w, x, y) < |next| && WrittenUpTo(w, h, cells, next[Index(w, x, y) := v], x, y + 1)
  {
    IndexInRange(w, h, x, y);
    var r := next[Index(w, x, y) := v];
    forall a, b | Inside(w, h, a, b) && (a < x || (a == x && b < y + 1))
      ensures Alive(w, h, r, a, b) == Lives(w, h, cells, a, b)
    {
      IndexInRange(w, h, a, b);
      if Index(w, a, b) == Index(w, x, y) {
        IndexInjective(w, h, a, b, x, y);
      } else {
        assert Alive(w, h, r, a, b) == Alive(w, h, next, a, b);
      }
    }
  }

  /** A generation has exactly one successor. */
  lemma FollowsUnique(w: nat, h: nat, cells: Cells, a: Cells, b: Cells)
    requires Follows(w, h, cells, a) && Follows(w, h, cells, b)
    ensures a == b
  {
    forall i: nat | i < |a| ensures a[i] == b[i] {
      var x, y := CellOf(w, h, i);
      assert Alive(w, h, a, x, y) == Alive(w, h, b, x, y);
    }
  }

  /** `t_field`. */
  class Field {
    const width: nat
    const height: nat
    const data: array<bool>

    ghost predicate Valid() {
      data.Length == Area(width, height)
    }

    constructor (w: nat, h: nat)
      ensures Valid() && width == w && height == h && fresh(data)
    {
      width, height := w, h;
      Monotone(0, w, h);
      data := new bool[Area(w, h)];
    }

    method GetValue(x: int, y: int) returns (b: bool)
      requires Valid()
      ensures b == Alive(width, height, data[..], x, y)
    {
      if x < 0 || x >= width || y < 0 || y >= height {
        return false;
      }
      IndexInRange(width, height, x, y);
      return data[Index(width, x, y)];
    }

    method SetValue(x: int, y: int, value: bool)
      requires Valid()
      modifies data
      ensures !Inside(width, height, x, y) ==> data[..] == old(data[..])
      ensures Inside(width, height, x, y) ==>
                0 <= Index(width, x, y) < data.Length && data[..] == old(data[..])[Index(width, x, y) := value]
    {
      if x < 0 || x >= width || y < 0 || y >= height {
        return;
      }
      IndexInRange(width, height, x, y);
      data[Index(width, x, y)] := value;
    }

    method AliveNeighbours(x: int, y: int) returns (count: nat)
      requires Valid()
      ensures count == Neighbours(width, height, data[..], x, y)
    {
      var directions := [(0, 1), (1, 1), (1, 0), (1, -1), (0, -1), (-1, -1), (-1, 0), (-1, 1)];
      count := 0;
      for i := 0 to 8
        invariant count == Around(width, height, data[..], x, y, directions, i)
      {
        var b := GetValue(x + directions[i].0, y + directions[i].1);
        count := count + if b then 1 else 0;
      }
      AroundAll(width, height, data[..], x, y);
    }
  }

  /** Living cells in the first i of the given directions. */
  function Around(w: nat, h: nat, cells: Cells, x: int, y: int, ds: seq<(int, int)>, i: nat): nat
    requires Sized(w, h, cells) && i <= |ds|
  {
    if i == 0 then 0
    else Around(w, h, cells, x, y, ds, i - 1) + Count(Alive(w, h, cells, x + ds[i - 1].0, y + ds[i - 1].1))
  }

  lemma AroundAll(w: nat, h: nat, cells: Cells, x: int, y: int)
    requires Sized(w, h, cells)
    ensures Around(w, h, cells, x, y, [(0, 1), (1, 1), (1, 0), (1, -1), (0, -1), (-1, -1), (-1, 0), (-1, 1)], 8)
            == Neighbours(w, h, cells, x, y)
  {
    var ds := [(0, 1), (1, 1), (1, 0), (1, -1), (0, -1), (-1, -1), (-1, 0), (-1, 1)];
    assert Around(w, h, cells, x, y, ds, 0) == 0;
    assert Around(w, h, cells, x, y, ds, 1) == Count(Alive(w, h, cells, x, y + 1));
    assert Around(w, h, cells, x, y, ds, 2) ==
           Around(w, h, cells, x, y, ds, 1) + Count(Alive(w, h, cells, x + 1, y + 1));
    assert Around(w, h, cells, x, y, ds, 3) == Around(w, h, cells, x, y, ds, 2) + Count(Alive(w, h, cells, x + 1, y));
    assert Around(w, h, cells, x, y, ds, 4) ==
           Around(w, h, cells, x, y, ds, 3) + Count(Alive(w, h, cells, x + 1, y - 1));
    assert Around(w, h, cells, x, y, ds, 5) == Around(w, h, cells, x, y, ds, 4) + Count(Alive(w, h, cells, x, y - 1));
    assert Around(w, h, cells, x, y, ds, 6) ==
           Around(w, h, cells, x, y, ds, 5) + Count(Alive(w, h, cells, x - 1, y - 1));
    assert Around(w, h, cells, x, y, ds, 7) == Around(w, h, cells, x, y, ds, 6) + Count(Alive(w, h, cells, x - 1, y));
    assert Around(w, h, cells, x, y, ds, 8) ==
           Around(w, h, cells, x, y, ds, 7) + Count(Alive(w, h, cells, x - 1, y + 1));
  }

  /** Every cell of the destination is overwritten with the next generation; the source is only read. */
  method StepField(field: Field, dest: Field)
    requires field.Valid() && dest.Valid() && field.data != dest.data
    requires field.width == dest.width && field.height == dest.height
    modifies dest.data
    ensures Follows(field.width, field.height, field.data[..], dest.data[..])
  {
    var w, h := field.width, field.height;
    for x := 0 to w
      invariant WrittenUpTo(w, h, field.data[..], dest.data[..], x, 0)
    {
      for y := 0 to h
        invariant WrittenUpTo(w, h, field.data[..], dest.data[..], x, y)
      {
        var isAlive := field.GetValue(x, y);
        var aliveNeighbours := field.AliveNeighbours(x, y);
        var value := true;
        if !isAlive && aliveNeighbours == 3 {
          value := true;
        } else if !isAlive {
          value := false;
        } else if isAlive && (aliveNeighbours < 2 || 3 < aliveNeighbours) {
          value := false;
        }
        WriteCell(w, h, field.data[..], dest.data[..], x, y, value);
        dest.SetValue(x, y, value);
      }
    }
  }

  /** `frames` starts with `start` and each frame follows the one before. */
  ghost predicate Film(w: nat, h: nat, start: Cells, frames: seq<Cells>) {
    (frames != [] ==> frames[0] == start) &&
    forall k, m :: 0 <= k < |frames| && m == k + 1 && m < |frames| ==> Follows(w, h, frames[k], frames[m])
  }

  /**
   The loop of main: it writes frames 0 .. steps, the k-th being the k-th generation after the
   populated field, although it works on two buffers only.
   */
  method Simulate(field1: Field, field2: Field, steps: int) returns (frames: seq<Cells>)
    requires field1.Valid() && field2.Valid() && field1.data != field2.data
    requires field1.width == field2.width && field1.height == field2.height
    modifies field1.data, field2.data
    ensures |frames| == if steps < 0 then 0 else steps + 1
    ensures Film(field1.width, field1.height, old(field1.data[..]), frames)
  {
    frames := [];
    var source := field1;
    var frame := 0;
    ghost var w, h, start := field1.width, field1.height, field1.data[..];
    while frame <= steps
      invariant frame == |frames| && (steps >= 0 ==> frame <= steps + 1) && (steps < 0 ==> frame == 0)
      invariant source == field1 || source == field2
      invariant Film(w, h, start, frames + [source.data[..]])
    {
      ghost var before := frames + [source.data[..]];
      frames := frames + [source.data[..]];
      if source == field1 {
        StepField(field1, field2);
        source := field2;
      } else {
        StepField(field2, field1);
        source := field1;
      }
      FilmGrows(w, h, start, before, source.data[..]);
      frame := frame + 1;
    }
    FilmShrinks(w, h, start, frames, source.data[..]);
  }

  lemma FilmGrows(w: nat, h: nat, start: Cells, frames: seq<Cells>, next: Cells)
    requires Film(w, h, start, frames) && frames != [] && Follows(w, h, frames[|frames| - 1], next)
    ensures Film(w, h, start, frames + [next])
  {
  }

  lemma FilmShrinks(w: nat, h: nat, start: Cells, frames: seq<Cells>, next: Cells)
    requires Film(w, h, start, frames + [next])
    ensures Film(w, h, start, frames)
  {
    var longer := frames + [next];
    assert forall k :: 0 <= k < |frames| ==> frames[k] == longer[k];
  }

  /** The film is determined by its first frame. */
  lemma {:induction false} FilmUnique(w: nat, h: nat, start: Cells, a: seq<Cells>, b: seq<Cells>, k: nat)
    requires Film(w, h, start, a) && Film(w, h, start, b) && k < |a| && k < |b|
    ensures a[k] == b[k]
  {
    if k == 0 {
    } else {
      FilmUnique(w, h, start, a, b, k - 1);
      assert Follows(w, h, a[k - 1], a[k]) && Follows(w, h, b[k - 1], b[k]);
      FollowsUnique(w, h, a[k - 1], a[k], b[k]);
    }
  }
}
