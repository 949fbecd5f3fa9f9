/** The interest grid: ids hashed by square cell, neighbourhoods of 3x3 cells, and range queries by rectangle. */
module AoiGrids {
  import opened WorldTypes
  import opened Geometry

  const TWO_32 := 0x1_0000_0000

  datatype Cell = Cell(x: int, z: int)

  // Both coordinates are 32-bit signed integers.
  predicate Fits(c: Cell) {
    -0x8000_0000 <= c.x < 0x8000_0000 && -0x8000_0000 <= c.z < 0x8000_0000
  }

  function CellOf(x: real, z: real): Cell {
    Cell((x / 20.0).Floor, (z / 20.0).Floor)
  }

  function CellAt(p: Point): Cell {
    CellOf(p.x, p.z)
  }

  predicate IsNear(a: Cell, b: Cell) {
    -1 <= a.x - b.x <= 1 && -1 <= a.z - b.z <= 1
  }

  // The cast to uint32_t wraps negative coordinates.
  function U32(n: int): (r: nat)
    ensures r < TWO_32
  {
    n % TWO_32
  }

  function Key(c: Cell): nat {
    U32(c.x) * TWO_32 + U32(c.z)
  }

  lemma WrapIsInjective(m: int, n: int)
    requires -0x8000_0000 <= m < 0x8000_0000 && -0x8000_0000 <= n < 0x8000_0000 && U32(m) == U32(n)
    ensures m == n
  {
    assert U32(m) == if m < 0 then m + TWO_32 else m;
    assert U32(n) == if n < 0 then n + TWO_32 else n;
  }

  lemma KeyIsInjective(c: Cell, d: Cell)
    requires Fits(c) && Fits(d)
    ensures Key(c) == Key(d) <==> c == d
  {
    hide U32;
    if Key(c) == Key(d) {
      WrapIsInjective(c.x, d.x);
      WrapIsInjective(c.z, d.z);
    }
  }

  lemma CellFits(p: Point, r: Range, s: Range)
    requires InWorld(p)
    ensures Fits(CellOf(p.x + r, p.z + s))
    ensures forall c | IsNear(c, CellAt(p)) :: Fits(c)
  {
  }

  lemma AxisWithin(dx: real, dy: real, dz: real, range: real)
    requires range >= 0.0 && dx * dx + dy * dy + dz * dz <= range * range
    ensures -range <= dx <= range
  {
    NonNegative(dy, dy);
    NonNegative(dz, dz);
    SquaresOrder(dx, range);
  }

  lemma CellMonotone(a: real, b: real)
    requires a <= b
    ensures (a / 20.0).Floor <= (b / 20.0).Floor
  {
  }

  // A cell that holds a point within range of a centre lies in the rectangle between the corner cells of the range.
  lemma RangeCoversCell(c: Point, p: Point, range: real)
    requires range >= 0.0 && IsWithin(c, p, range)
    ensures var lo, hi, cell := CellOf(c.x - range, c.z - range), CellOf(c.x + range, c.z + range), CellAt(p);
            lo.x <= cell.x <= hi.x && lo.z <= cell.z <= hi.z
  {
    AxisWithin(p.x - c.x, p.y - c.y, p.z - c.z, range);
    AxisWithin(p.z - c.z, p.y - c.y, p.x - c.x, range);
    CellMonotone(c.x - range, p.x);
    CellMonotone(p.x, c.x + range);
    CellMonotone(c.z - range, p.z);
    CellMonotone(p.z, c.z + range);
  }

  predicate Distinct<T(==)>(s: seq<T>) {
    forall i, j | 0 <= i < j < |s| :: s[i] != s[j]
  }

  ghost function ToSet<T>(s: seq<T>): set<T> {
    set x | x in s
  }

  lemma DistinctConcat<T>(a: seq<T>, b: seq<T>)
    requires Distinct(a) && Distinct(b) && forall x | x in a :: x !in b
    ensures Distinct(a + b)
  {
    forall i, j | 0 <= i < j < |a + b| ensures (a + b)[i] != (a + b)[j] {
      if i < |a| <= j {
        assert a[i] in a && b[j - |a|] in b;
      }
    }
  }

  lemma {:induction false} SubsetIsSmaller<T>(a: set<T>, b: set<T>)
    requires a <= b
    ensures |a| <= |b|
  {
    if a != {} {
      var x :| x in a;
      SubsetIsSmaller(a - {x}, b - {x});
    }
  }

  lemma SubsetOfSameSize<T>(a: set<T>, b: set<T>)
    requires a <= b && |a| == |b|
    ensures a == b
  {
    if x :| x in b && x !in a {
      assert a <= b - {x};
      SubsetIsSmaller(a, b - {x});
    }
  }

  lemma {:induction false} SizeOfDistinct<T>(s: seq<T>)
    requires Distinct(s)
    ensures |ToSet(s)| == |s|
  {
    if s != [] {
      var last := |s| - 1;
      SizeOfDistinct(s[..last]);
      assert s == s[..last] + [s[last]];
      assert ToSet(s) == ToSet(s[..last]) + {s[last]};
    }
  }

  lemma AllTaken<T>(found: seq<T>, out: seq<T>)
    requires Distinct(found) && Distinct(out) && |out| == |found| && forall u | u in out :: u in found
    ensures forall u | u in found :: u in out
  {
    SizeOfDistinct(found);
    SizeOfDistinct(out);
    assert ToSet(out) <= ToSet(found);
    SubsetOfSameSize(ToSet(out), ToSet(found));
    forall u | u in found ensures u in out {
      assert u in ToSet(found);
    }
  }

  lemma TakenOut<T>(s: seq<T>, k: nat)
    requires Distinct(s) && k < |s|
    ensures Distinct(s[..k] + s[k + 1..])
    ensures forall u :: u in s[..k] + s[k + 1..] <==> u in s && u != s[k]
  {
    var t := s[..k] + s[k + 1..];
    forall u | u in s && u != s[k] ensures u in t {
      var i :| 0 <= i < |s| && s[i] == u;
      assert t[if i < k then i else i - 1] == u;
    }
  }

  // The 3x3 block around c.
  method NearCells(c: Cell) returns (out: seq<Cell>)
    ensures Distinct(out)
    ensures forall d :: d in out <==> IsNear(d, c)
  {
    out := [];
    for dz := -1 to 2
      invariant Distinct(out)
      invariant forall d :: d in out <==> -1 <= d.x - c.x <= 1 && -1 <= d.z - c.z < dz
    {
      for dx := -1 to 2
        invariant Distinct(out)
        invariant forall d :: d in out <==>
          || (-1 <= d.x - c.x <= 1 && -1 <= d.z - c.z < dz)
          || (-1 <= d.x - c.x < dx && d.z - c.z == dz)
      {
        out := out + [Cell(c.x + dx, c.z + dz)];
      }
    }
  }

  // The cells that come into view and the cells that go out of view when the centre moves.
  method DiffNear(from: Cell, to: Cell) returns (entered: seq<Cell>, left: seq<Cell>)
    ensures Distinct(entered) && Distinct(left)
    ensures forall d :: d in entered <==> IsNear(d, to) && !IsNear(d, from)
    ensures forall d :: d in left <==> IsNear(d, from) && !IsNear(d, to)
  {
    var toNear := NearCells(to);
    var fromNear := NearCells(from);
    entered := KeepFar(toNear, from);
    left := KeepFar(fromNear, to);
  }

  method KeepFar(cells: seq<Cell>, c: Cell) returns (out: seq<Cell>)
    requires Distinct(cells)
    ensures Distinct(out)
    ensures forall d :: d in out <==> d in cells && !IsNear(d, c)
  {
    out := [];
    for i := 0 to |cells|
      invariant Distinct(out)
      invariant forall d :: d in out <==> d in cells[..i] && !IsNear(d, c)
    {
      assert cells[..i + 1] == cells[..i] + [cells[i]];
      if !IsNear(cells[i], c) {
        out := out + [cells[i]];
      }
    }
  }

  // An id in a cell.
  datatype Spot = Spot(id: nat, cell: Cell)

  // No id is in two cells.
  ghost predicate OneCellEach(where: set<Spot>) {
    forall s, t | s in where && t in where && s.id == t.id :: s == t
  }

  predicate InRectangle(c: Cell, lo: Cell, hi: Cell) {
    lo.x <= c.x <= hi.x && lo.z <= c.z <= hi.z
  }

  class AoiGrid {
    var cells: map<nat, set<nat>>
    // The abstract value: which ids are in which cells.
    ghost var where: set<Spot>

    // The ids in one cell.
    ghost function At(c: Cell): set<nat>
      reads this`cells
    {
      if Key(c) in cells then cells[Key(c)] else {}
    }

    // The grid holds exactly the spots of `where`. Empty cells are erased.
    ghost predicate Valid()
      reads this
    {
      && (forall k | k in cells :: cells[k] != {})
      && (forall c, id {:trigger id in At(c)} | Fits(c) :: id in At(c) <==> Spot(id, c) in where)
    }

    constructor ()
      ensures Valid() && where == {}
    {
      cells, where := map[], {};
    }

    method Add(id: nat, c: Cell)
      requires Valid() && Fits(c)
      modifies this
      ensures Valid() && where == old(where) + {Spot(id, c)}
    {
      var ids := if Key(c) in cells then cells[Key(c)] else {};
      cells := cells[Key(c) := ids + {id}];
      where := where + {Spot(id, c)};
      forall d | Fits(d) ensures At(d) == if d == c then old(At(d)) + {id} else old(At(d)) {
        KeyIsInjective(c, d);
      }
    }

    method Remove(id: nat, c: Cell)
      requires Valid() && Fits(c)
      modifies this
      ensures Valid() && where == old(where) - {Spot(id, c)}
    {
      where := where - {Spot(id, c)};
      if Key(c) !in cells {
        assert id !in old(At(c));
        return;
      }
      var ids := cells[Key(c)] - {id};
      cells := if ids == {} then cells - {Key(c)} else cells[Key(c) := ids];
      forall d | Fits(d) ensures At(d) == if d == c then old(At(d)) - {id} else old(At(d)) {
        KeyIsInjective(c, d);
      }
    }

    method Move(id: nat, from: Cell, to: Cell)
      requires Valid() && Fits(from) && Fits(to)
      modifies this
      ensures Valid() && where == if from == to then old(where) else old(where) - {Spot(id, from)} + {Spot(id, to)}
    {
      if from == to {
        return;
      }
      Remove(id, from);
      Add(id, to);
    }

    method Clear()
      modifies this
      ensures Valid() && where == {}
    {
      cells, where := map[], {};
    }

    // The ids of one cell, in the order the hash set gives them.
    method IdsInCell(c: Cell) returns (ids: seq<nat>)
      requires Valid() && Fits(c)
      ensures Distinct(ids)
      ensures forall id :: id in ids <==> Spot(id, c) in where
    {
      ids := [];
      var rest := if Key(c) in cells then cells[Key(c)] else {};
      while rest != {}
        invariant rest <= At(c) && Distinct(ids)
        invariant forall id :: id in ids <==> id in At(c) && id !in rest
        decreases rest
      {
        var id :| id in rest;
        ids := ids + [id];
        rest := rest - {id};
      }
    }

    // The ids of all cells the square around (x, z) touches, cell by cell.
    method IdsInRange(x: real, z: real, range: real) returns (ids: seq<nat>)
      requires Valid()
      requires Fits(CellOf(x - range, z - range)) && Fits(CellOf(x + range, z + range))
      ensures OneCellEach(where) ==> Distinct(ids)
      ensures var lo, hi := CellOf(x - range, z - range), CellOf(x + range, z + range);
              forall id :: id in ids <==> exists c :: InRectangle(c, lo, hi) && Spot(id, c) in where
    {
      var lo, hi := CellOf(x - range, z - range), CellOf(x + range, z + range);
      ids := [];
      ghost var seen: set<Cell> := {};
      var cz := lo.z;
      while cz <= hi.z
        invariant lo.z <= cz && (cz <= hi.z + 1 || cz == lo.z)
        invariant forall c :: c in seen <==> InRectangle(c, lo, hi) && c.z < cz
        invariant Gathered(ids, seen)
        decreases hi.z - cz
      {
        var cx := lo.x;
        while cx <= hi.x
          invariant lo.x <= cx && (cx <= hi.x + 1 || cx == lo.x)
          invariant forall c :: c in seen <==> InRectangle(c, lo, hi) && (c.z < cz || (c.z == cz && c.x < cx))
          invariant Gathered(ids, seen)
          decreases hi.x - cx
        {
          var more := IdsInCell(Cell(cx, cz));
          GatherMore(ids, more, seen, Cell(cx, cz));
          ids := ids + more;
          seen := seen + {Cell(cx, cz)};
          cx := cx + 1;
        }
        cz := cz + 1;
      }
    }

    // The ids of the cells seen, and each once if none is in two cells.
    ghost predicate Gathered(ids: seq<nat>, seen: set<Cell>)
      reads this`where
    {
      && (OneCellEach(where) ==> Distinct(ids))
      && forall id :: id in ids <==> exists c :: c in seen && Spot(id, c) in where
    }

    lemma GatherMore(ids: seq<nat>, more: seq<nat>, seen: set<Cell>, c: Cell)
      requires Gathered(ids, seen) && c !in seen && Distinct(more)
      requires forall id :: id in more <==> Spot(id, c) in where
      ensures Gathered(ids + more, seen + {c})
    {
      if OneCellEach(where) {
        forall id | id in ids ensures id !in more {
          var d :| d in seen && Spot(id, d) in where;
          assert Spot(id, d).id == Spot(id, c).id;
        }
        DistinctConcat(ids, more);
      }
      forall id ensures id in ids + more <==> exists d :: d in seen + {c} && Spot(id, d) in where {
        if id in ids {
          var d :| d in seen && Spot(id, d) in where;
          assert d in seen + {c};
        } else if id in more {
          assert c in seen + {c} && Spot(id, c) in where;
        }
      }
    }
  }
}
