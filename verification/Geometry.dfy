/** Positions, and values the zone, its database requests and its clients share. Coordinates are reals; a position lies
    in the world when the grid cells around it, and around it plus any range, fit the grid's 32-bit cell numbers. */
module WorldTypes {
  type PlayerId = nat
  type MonsterId = nat
  type SessionId = nat

  // A billion cells of 20 units each way.
  const WORLD_LIMIT := 20_000_000_000.0

  datatype Point = Point(x: real, y: real, z: real)

  predicate InWorld(p: Point) {
    -WORLD_LIMIT <= p.x <= WORLD_LIMIT && -WORLD_LIMIT <= p.z <= WORLD_LIMIT
  }

  type Pos = p: Point | InWorld(p) witness Point(0.0, 0.0, 0.0)

  // A distance on the map.
  type Range = r: real | -WORLD_LIMIT <= r <= WORLD_LIMIT

  // What a save writes besides the zone: Player::SavedState.
  datatype PlayerState = PlayerState(exp: nat, pos: Pos, hp: int, mp: int)
}

/** Distances and straight moves. */
module Geometry {
  import opened WorldTypes

  function DistSq(a: Point, b: Point): (d: real)
    ensures d >= 0.0
  {
    NonNegative(b.x - a.x, b.x - a.x);
    NonNegative(b.y - a.y, b.y - a.y);
    NonNegative(b.z - a.z, b.z - a.z);
    (b.x - a.x) * (b.x - a.x) + (b.y - a.y) * (b.y - a.y) + (b.z - a.z) * (b.z - a.z)
  }

  predicate IsWithin(a: Point, b: Point, range: real) {
    DistSq(a, b) <= range * range
  }

  function Min(a: real, b: real): real { if b < a then b else a }

  // What std::sqrt is on the reals.
  ghost predicate IsSqrt(sqrt: real -> real) {
    forall x: real :: x >= 0.0 ==> sqrt(x) >= 0.0 && sqrt(x) * sqrt(x) == x
  }

  // The point a fraction r of the way from p to t.
  function Toward(p: Point, t: Point, r: real): Point {
    Point(p.x + (t.x - p.x) * r, p.y + (t.y - p.y) * r, p.z + (t.z - p.z) * r)
  }

  lemma NonNegative(a: real, b: real)
    requires (a >= 0.0 && b >= 0.0) || (a <= 0.0 && b <= 0.0)
    ensures a * b >= 0.0
  {
  }

  lemma Positive(a: real, b: real)
    requires a > 0.0 && b > 0.0
    ensures a * b > 0.0
  {
  }

  lemma LargerSquare(a: real, b: real)
    requires a > b >= 0.0
    ensures a * a > b * b
  {
    Positive(a - b, a + b);
  }

  lemma SquaresOrder(a: real, b: real)
    requires b >= 0.0
    ensures a * a <= b * b <==> -b <= a <= b
  {
    if -b <= a <= b {
      NonNegative(b - a, b + a);
    } else {
      LargerSquare(if a > b then a else -a, b);
    }
  }

  // Going a fraction r along a segment covers r of it and leaves 1 - r.
  lemma TowardDistances(p: Point, t: Point, r: real)
    ensures DistSq(p, Toward(p, t, r)) == DistSq(p, t) * (r * r)
    ensures DistSq(Toward(p, t, r), t) == DistSq(p, t) * ((1.0 - r) * (1.0 - r))
  {
    var q := Toward(p, t, r);
    var x, y, z := t.x - p.x, t.y - p.y, t.z - p.z;
    ScaledSum(x, y, z, r, q.x - p.x, q.y - p.y, q.z - p.z);
    ScaledSum(x, y, z, 1.0 - r, t.x - q.x, t.y - q.y, t.z - q.z);
  }

  lemma ScaledSum(a: real, b: real, c: real, k: real, u: real, v: real, w: real)
    requires u == a * k && v == b * k && w == c * k
    ensures u * u + v * v + w * w == (a * a + b * b + c * c) * (k * k)
  {
    SameSquare(u, a * k);
    SameSquare(v, b * k);
    SameSquare(w, c * k);
  }

  lemma SameSquare(a: real, b: real)
    requires a == b
    ensures a * a == b * b
  {
  }

  lemma SameTimes(a: real, b: real, c: real)
    requires a == b
    ensures a * c == b * c
  {
  }

  lemma Between(a: real, b: real, r: real, lo: real, hi: real)
    requires lo <= a <= hi && lo <= b <= hi && 0.0 <= r <= 1.0
    ensures lo <= a + (b - a) * r <= hi
  {
    NonNegative(a - lo, 1.0 - r);
    NonNegative(b - lo, r);
    NonNegative(hi - a, 1.0 - r);
    NonNegative(hi - b, r);
  }

  lemma TowardStaysInWorld(p: Pos, t: Pos, r: real)
    requires 0.0 <= r <= 1.0
    ensures InWorld(Toward(p, t, r))
  {
    Between(p.x, t.x, r, -WORLD_LIMIT, WORLD_LIMIT);
    Between(p.z, t.z, r, -WORLD_LIMIT, WORLD_LIMIT);
  }

  lemma CauchySchwarz(x1: real, x2: real, x3: real, y1: real, y2: real, y3: real)
    ensures (x1 * y1 + x2 * y2 + x3 * y3) * (x1 * y1 + x2 * y2 + x3 * y3)
         <= (x1 * x1 + x2 * x2 + x3 * x3) * (y1 * y1 + y2 * y2 + y3 * y3)
  {
    var a, b, c := x1 * y2 - x2 * y1, x1 * y3 - x3 * y1, x2 * y3 - x3 * y2;
    NonNegative(a, a);
    NonNegative(b, b);
    NonNegative(c, c);
    assert a * a == x1 * x1 * y2 * y2 - 2.0 * x1 * x2 * y1 * y2 + x2 * x2 * y1 * y1;
    assert b * b == x1 * x1 * y3 * y3 - 2.0 * x1 * x3 * y1 * y3 + x3 * x3 * y1 * y1;
    assert c * c == x2 * x2 * y3 * y3 - 2.0 * x2 * x3 * y2 * y3 + x3 * x3 * y2 * y2;
    assert (x1 * x1 + x2 * x2 + x3 * x3) * (y1 * y1 + y2 * y2 + y3 * y3)
        == x1 * x1 * y1 * y1 + x2 * x2 * y2 * y2 + x3 * x3 * y3 * y3
           + (x1 * x1 * y2 * y2 + x2 * x2 * y1 * y1) + (x1 * x1 * y3 * y3 + x3 * x3 * y1 * y1)
           + (x2 * x2 * y3 * y3 + x3 * x3 * y2 * y2);
  }

  lemma MulMono(a: real, b: real, c: real, d: real)
    requires 0.0 <= a <= b && 0.0 <= c <= d
    ensures a * c <= b * d
  {
    NonNegative(b - a, c);
    NonNegative(b, d - c);
  }

  // Comparing squares is comparing distances.
  lemma WithinIsDistance(a: Point, b: Point, r: real, sqrt: real -> real)
    requires IsSqrt(sqrt) && r >= 0.0
    ensures IsWithin(a, b, r) <==> sqrt(DistSq(a, b)) <= r
  {
    RootOrders(sqrt(DistSq(a, b)), DistSq(a, b), r);
  }

  lemma RootOrders(root: real, d: real, r: real)
    requires root >= 0.0 && r >= 0.0 && root * root == d
    ensures d <= r * r <==> root <= r
  {
    SquaresOrder(root, r);
  }

  lemma WithinMore(a: Point, b: Point, r: real, s: real)
    requires 0.0 <= r <= s && IsWithin(a, b, r)
    ensures IsWithin(a, b, s)
  {
    SquaresOrder(r, s);
  }

  lemma Symmetric(a: Point, b: Point)
    ensures DistSq(a, b) == DistSq(b, a)
  {
  }

  // The triangle inequality, without square roots.
  lemma Triangle(a: Point, b: Point, c: Point, u: real, v: real)
    requires u >= 0.0 && v >= 0.0 && IsWithin(a, b, u) && IsWithin(b, c, v)
    ensures IsWithin(a, c, u + v)
  {
    TriangleOfSides(b.x - a.x, b.y - a.y, b.z - a.z, c.x - b.x, c.y - b.y, c.z - b.z, u, v);
  }

  lemma TriangleOfSides(x1: real, x2: real, x3: real, y1: real, y2: real, y3: real, u: real, v: real)
    requires u >= 0.0 && v >= 0.0
    requires x1 * x1 + x2 * x2 + x3 * x3 <= u * u && y1 * y1 + y2 * y2 + y3 * y3 <= v * v
    ensures (x1 + y1) * (x1 + y1) + (x2 + y2) * (x2 + y2) + (x3 + y3) * (x3 + y3) <= (u + v) * (u + v)
  {
    var xx, yy := x1 * x1 + x2 * x2 + x3 * x3, y1 * y1 + y2 * y2 + y3 * y3;
    var dot := x1 * y1 + x2 * y2 + x3 * y3;
    CauchySchwarz(x1, x2, x3, y1, y2, y3);
    SumOfSquares(x1, x2, x3);
    SumOfSquares(y1, y2, y3);
    SidesBound(xx, yy, dot, xx + yy + 2.0 * dot, u, v);
  }

  lemma SumOfSquares(a: real, b: real, c: real)
    ensures a * a + b * b + c * c >= 0.0
  {
    NonNegative(a, a);
    NonNegative(b, b);
    NonNegative(c, c);
  }

  lemma SidesBound(xx: real, yy: real, dot: real, zz: real, u: real, v: real)
    requires u >= 0.0 && v >= 0.0 && 0.0 <= xx <= u * u && 0.0 <= yy <= v * v
    requires dot * dot <= xx * yy && zz == xx + yy + 2.0 * dot
    ensures zz <= (u + v) * (u + v)
  {
    MulMono(xx, u * u, yy, v * v);
    SquareOfProduct(u, v);
    NonNegative(u, v);
    SquaresOrder(dot, u * v);
    SquareOfSum(u, v);
  }

  lemma SquareOfProduct(u: real, v: real)
    ensures (u * u) * (v * v) == (u * v) * (u * v)
  {
  }

  lemma SquareOfSum(u: real, v: real)
    ensures (u + v) * (u + v) == u * u + v * v + 2.0 * (u * v)
  {
  }
}
