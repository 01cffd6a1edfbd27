/**
 control/model_layout.py: the transforms of a glTF node tree (glTF 2.0, sections 3.5.2
 and 3.5.3), over reals.

 `ComposesExactly`: a product maps a point as its factors in turn do, precisely when the
 right one's bottom row is 0 0 0 1 or the left one translates nothing. `WorldComposes`
 carries it up a chain of ancestors, and `EnclosureIsTight` says the box of the eight
 transformed corners is the smallest one holding the image of the local box.
 */
module Geometry {

  /** Sixteen elements, column-major: row `r` of column `c` is element 4c + r. */
  type Mat = m: seq<real> | |m| == 16 witness seq(16, i => 0.0)

  datatype Point = Point(x: real, y: real, z: real)

  function Identity(): Mat {
    [1.0, 0.0, 0.0, 0.0, 0.0, 1.0, 0.0, 0.0, 0.0, 0.0, 1.0, 0.0, 0.0, 0.0, 0.0, 1.0]
  }

  /** Row `row` of `a` times column `col` of `b`, over the first `n` terms. */
  function Dot(a: Mat, b: Mat, row: nat, col: nat, n: nat): real
    requires row < 4 && col < 4 && n <= 4
  {
    if n == 0 then 0.0 else Dot(a, b, row, col, n - 1) + a[(n - 1) * 4 + row] * b[col * 4 + n - 1]
  }

  function Product(a: Mat, b: Mat): Mat {
    seq(16, i requires 0 <= i < 16 => Dot(a, b, i % 4, i / 4, 4))
  }

  method MatMul(a: Mat, b: Mat) returns (r: Mat)
    ensures r == Product(a, b)
  {
    r := seq(16, i => 0.0);
    for col := 0 to 4
      invariant forall i :: 0 <= i < col * 4 ==> r[i] == Product(a, b)[i]
    {
      for row := 0 to 4
        invariant forall i :: 0 <= i < col * 4 + row ==> r[i] == Product(a, b)[i]
      {
        var s := 0.0;
        for k := 0 to 4
          invariant s == Dot(a, b, row, col, k)
        {
          s := s + a[k * 4 + row] * b[col * 4 + k];
        }
        assert (col * 4 + row) % 4 == row && (col * 4 + row) / 4 == col;
        r := r[col * 4 + row := s];
      }
    }
  }

  function Row(m: Mat, r: nat, p: Point): real
    requires r < 4
  {
    m[r] * p.x + m[4 + r] * p.y + m[8 + r] * p.z + m[12 + r]
  }

  function Transform(m: Mat, p: Point): Point { Point(Row(m, 0, p), Row(m, 1, p), Row(m, 2, p)) }

  /** The bottom row is 0 0 0 1. */
  predicate Affine(m: Mat) { m[3] == 0.0 && m[7] == 0.0 && m[11] == 0.0 && m[15] == 1.0 }

  predicate NoTranslation(m: Mat) { m[12] == 0.0 && m[13] == 0.0 && m[14] == 0.0 }

  lemma ProductAt(a: Mat, b: Mat, row: nat, col: nat)
    requires row < 4 && col < 4
    ensures Product(a, b)[col * 4 + row]
         == a[row] * b[col * 4] + a[4 + row] * b[col * 4 + 1]
             + a[8 + row] * b[col * 4 + 2] + a[12 + row] * b[col * 4 + 3]
  {
    assert (col * 4 + row) % 4 == row && (col * 4 + row) / 4 == col;
    assert Dot(a, b, row, col, 4) == Dot(a, b, row, col, 3) + a[12 + row] * b[col * 4 + 3];
    assert Dot(a, b, row, col, 3) == Dot(a, b, row, col, 2) + a[8 + row] * b[col * 4 + 2];
    assert Dot(a, b, row, col, 2) == Dot(a, b, row, col, 1) + a[4 + row] * b[col * 4 + 1];
    assert Dot(a, b, row, col, 1) == Dot(a, b, row, col, 0) + a[row] * b[col * 4];
  }

  /** A product kept whole, so that what follows is a sum of such terms. */
  function Mul(x: real, y: real): real { x * y }

  lemma RowAsMuls(m: Mat, r: nat, p: Point)
    requires r < 4
    ensures Row(m, r, p) == Mul(m[r], p.x) + Mul(m[4 + r], p.y) + Mul(m[8 + r], p.z) + m[12 + r]
  {
  }

  /** Column `c` of row `r` of the product, times a coordinate. */
  lemma ColumnTimes(a: Mat, b: Mat, r: nat, c: nat, x: real)
    requires r < 4 && c < 4
    ensures Mul(Product(a, b)[c * 4 + r], x)
         == Mul(a[r], Mul(b[c * 4], x)) + Mul(a[4 + r], Mul(b[c * 4 + 1], x))
            + Mul(a[8 + r], Mul(b[c * 4 + 2], x)) + Mul(a[12 + r], Mul(b[c * 4 + 3], x))
  {
    ProductAt(a, b, r, c);
    hide Product;
    Expand(a[r], a[4 + r], a[8 + r], a[12 + r], b[c * 4], b[c * 4 + 1], b[c * 4 + 2], b[c * 4 + 3], x);
  }

  /** `a` times row `j` of `b`, a column at a time. */
  lemma RowTimes(a: real, b: Mat, j: nat, p: Point)
    requires j < 4
    ensures Mul(a, Row(b, j, p))
         == Mul(a, Mul(b[j], p.x)) + Mul(a, Mul(b[4 + j], p.y)) + Mul(a, Mul(b[8 + j], p.z)) + Mul(a, b[12 + j])
  {
    Gather(a, b[j] * p.x, b[4 + j] * p.y, b[8 + j] * p.z, b[12 + j]);
  }

  /** One row of the product against the factors in turn: they differ by a translation times `b`'s fourth row. */
  lemma RowOfProduct(a: Mat, b: Mat, r: nat, p: Point)
    requires r < 3
    ensures Row(Product(a, b), r, p) == Row(a, r, Transform(b, p)) + Mul(a[12 + r], Row(b, 3, p)) - a[12 + r]
  {
    RowAsMuls(Product(a, b), r, p);
    RowAsMuls(a, r, Transform(b, p));
    ColumnTimes(a, b, r, 0, p.x);
    ColumnTimes(a, b, r, 1, p.y);
    ColumnTimes(a, b, r, 2, p.z);
    ProductAt(a, b, r, 3);
    RowTimes(a[r], b, 0, p);
    RowTimes(a[4 + r], b, 1, p);
    RowTimes(a[8 + r], b, 2, p);
    RowTimes(a[12 + r], b, 3, p);
    assert Product(a, b)[12 + r] == Mul(a[r], b[12]) + Mul(a[4 + r], b[13])
        + Mul(a[8 + r], b[14]) + Mul(a[12 + r], b[15]);
    hide Row;
    hide Product;
    hide Mul;
  }

  lemma Expand(a0: real, a1: real, a2: real, a3: real, b0: real, b1: real, b2: real, b3: real, x: real)
    ensures (a0 * b0 + a1 * b1 + a2 * b2 + a3 * b3) * x
         == a0 * (b0 * x) + a1 * (b1 * x) + a2 * (b2 * x) + a3 * (b3 * x)
  {
  }

  lemma Gather(a: real, x: real, y: real, z: real, w: real)
    ensures a * (x + y + z + w) == a * x + a * y + a * z + a * w
  {
  }

  predicate ComposesAt(a: Mat, b: Mat, p: Point) { Transform(Product(a, b), p) == Transform(a, Transform(b, p)) }

  lemma RowComposesExactly(a: Mat, b: Mat, r: nat, p: Point)
    requires r < 3
    ensures Row(Product(a, b), r, p) == Row(a, r, Transform(b, p)) <==> a[12 + r] == 0.0 || Row(b, 3, p) == 1.0
  {
    RowOfProduct(a, b, r, p);
    hide Row;
    hide Product;
    hide Transform;
    SelfProduct(a[12 + r], Row(b, 3, p));
  }

  lemma ComposesAtExactly(a: Mat, b: Mat, p: Point)
    ensures ComposesAt(a, b, p) <==> NoTranslation(a) || Row(b, 3, p) == 1.0
  {
    RowComposesExactly(a, b, 0, p);
    RowComposesExactly(a, b, 1, p);
    RowComposesExactly(a, b, 2, p);
    hide Row;
    hide Product;
  }

  lemma SelfProduct(a: real, e: real)
    ensures a * e == a <==> a == 0.0 || e == 1.0
  {
  }

  /**
   A matrix product maps every point as its factors in turn do, exactly when `b` is affine or
   `a` translates nothing.
   */
  lemma ComposesExactly(a: Mat, b: Mat)
    ensures (forall p :: ComposesAt(a, b, p)) <==> Affine(b) || NoTranslation(a)
  {
    if Affine(b) || NoTranslation(a) {
      forall p ensures ComposesAt(a, b, p) {
        ComposesAtExactly(a, b, p);
      }
    } else {
      var o, x, y, z := Point(0.0, 0.0, 0.0), Point(1.0, 0.0, 0.0), Point(0.0, 1.0, 0.0), Point(0.0, 0.0, 1.0);
      ComposesAtExactly(a, b, o);
      ComposesAtExactly(a, b, x);
      ComposesAtExactly(a, b, y);
      ComposesAtExactly(a, b, z);
      assert Row(b, 3, o) == b[15] && Row(b, 3, x) == b[3] + b[15];
      assert Row(b, 3, y) == b[7] + b[15] && Row(b, 3, z) == b[11] + b[15];
      hide ComposesAt;
      assert !ComposesAt(a, b, o) || !ComposesAt(a, b, x) || !ComposesAt(a, b, y) || !ComposesAt(a, b, z);
    }
  }

  // ---- up the hierarchy ----------------------------------------------------------------

  /** `_world_matrix`'s fold, root first. */
  function World(chain: seq<Mat>): Mat {
    if chain == [] then Identity() else Product(World(chain[..|chain| - 1]), chain[|chain| - 1])
  }

  /** The leaf's transform first, the root's last. */
  function Climb(chain: seq<Mat>, p: Point): Point {
    if chain == [] then p else Climb(chain[..|chain| - 1], Transform(chain[|chain| - 1], p))
  }

  /**
   The world matrix of a node maps a point as its own transform and then each ancestor's
   do, whatever the root's matrix, as long as those below it are affine.
   */
  lemma {:induction false} WorldComposes(chain: seq<Mat>, p: Point)
    requires forall i :: 1 <= i < |chain| ==> Affine(chain[i])
    ensures Transform(World(chain), p) == Climb(chain, p)
  {
    if chain == [] {
      assert Transform(Identity(), p) == p;
    } else {
      var up, leaf := chain[..|chain| - 1], chain[|chain| - 1];
      if up == [] {
        assert NoTranslation(Identity());
        assert World(up) == Identity();
      }
      ComposesAtExactly(World(up), leaf, p);
      assert Affine(leaf) ==> Row(leaf, 3, p) == 1.0;
      WorldComposes(up, Transform(leaf, p));
    }
  }

  // ---- boxes ------------------------------------------------------------------------------

  datatype Box = Box(lo: Point, hi: Point)

  predicate Inside(p: Point, b: Box) {
    b.lo.x <= p.x <= b.hi.x && b.lo.y <= p.y <= b.hi.y && b.lo.z <= p.z <= b.hi.z
  }

  function MinOf(s: seq<real>): (m: real)
    requires s != []
    ensures m in s && forall x :: x in s ==> m <= x
  {
    assert s == s[..|s| - 1] + [s[|s| - 1]];
    if |s| == 1 then s[0]
    else
      var m := MinOf(s[..|s| - 1]);
      if s[|s| - 1] < m then s[|s| - 1] else m
  }

  function MaxOf(s: seq<real>): (m: real)
    requires s != []
    ensures m in s && forall x :: x in s ==> x <= m
  {
    assert s == s[..|s| - 1] + [s[|s| - 1]];
    if |s| == 1 then s[0]
    else
      var m := MaxOf(s[..|s| - 1]);
      if s[|s| - 1] > m then s[|s| - 1] else m
  }

  /** The corners, the x bound outermost. */
  function Corners(b: Box): (ps: seq<Point>)
    ensures |ps| == 8
  {
    [Point(b.lo.x, b.lo.y, b.lo.z), Point(b.lo.x, b.lo.y, b.hi.z),
     Point(b.lo.x, b.hi.y, b.lo.z), Point(b.lo.x, b.hi.y, b.hi.z),
     Point(b.hi.x, b.lo.y, b.lo.z), Point(b.hi.x, b.lo.y, b.hi.z),
     Point(b.hi.x, b.hi.y, b.lo.z), Point(b.hi.x, b.hi.y, b.hi.z)]
  }

  function Rows(m: Mat, r: nat, ps: seq<Point>): (s: seq<real>)
    requires r < 3
    ensures |s| == |ps|
  {
    seq(|ps|, i requires 0 <= i < |ps| => Row(m, r, ps[i]))
  }

  /** `_transform_aabb`. */
  function TransformAabb(m: Mat, b: Box): Box {
    var ps := Corners(b);
    Box(Point(MinOf(Rows(m, 0, ps)), MinOf(Rows(m, 1, ps)), MinOf(Rows(m, 2, ps))),
        Point(MaxOf(Rows(m, 0, ps)), MaxOf(Rows(m, 1, ps)), MaxOf(Rows(m, 2, ps))))
  }

  /** The corner where `a * x` is no greater than inside. */
  function Low(a: real, lo: real, hi: real): real { if a >= 0.0 then lo else hi }

  lemma LowIsLow(a: real, lo: real, x: real, hi: real)
    requires lo <= x <= hi
    ensures a * Low(a, lo, hi) <= a * x <= a * Low(-a, lo, hi)
  {
    if a >= 0.0 {
      Times(a, lo, x);
      Times(a, x, hi);
    } else {
      Times(-a, lo, x);
      Times(-a, x, hi);
    }
  }

  lemma Times(a: real, x: real, y: real)
    requires a >= 0.0 && x <= y
    ensures a * x <= a * y && (-a) * y <= (-a) * x
  {
  }

  lemma CornerOf(b: Box, x: real, y: real, z: real)
    requires (x == b.lo.x || x == b.hi.x) && (y == b.lo.y || y == b.hi.y) && (z == b.lo.z || z == b.hi.z)
    ensures Point(x, y, z) in Corners(b)
  {
    var ps := Corners(b);
    assert ps[0] in ps && ps[1] in ps && ps[2] in ps && ps[3] in ps
        && ps[4] in ps && ps[5] in ps && ps[6] in ps && ps[7] in ps;
  }

  lemma RowBetween(m: Mat, r: nat, b: Box, p: Point)
    requires r < 3 && Inside(p, b)
    ensures MinOf(Rows(m, r, Corners(b))) <= Row(m, r, p) <= MaxOf(Rows(m, r, Corners(b)))
  {
    var u, v, w := m[r], m[4 + r], m[8 + r];
    LowIsLow(u, b.lo.x, p.x, b.hi.x);
    LowIsLow(v, b.lo.y, p.y, b.hi.y);
    LowIsLow(w, b.lo.z, p.z, b.hi.z);
    var least := Point(Low(u, b.lo.x, b.hi.x), Low(v, b.lo.y, b.hi.y), Low(w, b.lo.z, b.hi.z));
    var most := Point(Low(-u, b.lo.x, b.hi.x), Low(-v, b.lo.y, b.hi.y), Low(-w, b.lo.z, b.hi.z));
    CornerOf(b, least.x, least.y, least.z);
    CornerOf(b, most.x, most.y, most.z);
    RowOrder(m, r, least, p);
    RowOrder(m, r, p, most);
    hide Row;
    hide Low;
    hide Corners;
    RowListed(m, r, Corners(b), least);
    RowListed(m, r, Corners(b), most);
    hide Rows;
  }

  lemma RowOrder(m: Mat, r: nat, p: Point, q: Point)
    requires r < 3 && m[r] * p.x <= m[r] * q.x && m[4 + r] * p.y <= m[4 + r] * q.y && m[8 + r] * p.z <= m[8 + r] * q.z
    ensures Row(m, r, p) <= Row(m, r, q)
  {
  }

  lemma RowListed(m: Mat, r: nat, ps: seq<Point>, p: Point)
    requires r < 3 && p in ps
    ensures Row(m, r, p) in Rows(m, r, ps)
  {
    var i :| 0 <= i < |ps| && ps[i] == p;
    assert Rows(m, r, ps)[i] == Row(m, r, p);
  }

  lemma RowReached(m: Mat, r: nat, b: Box, v: real)
    requires r < 3 && v in Rows(m, r, Corners(b)) && Inside(b.lo, b)
    ensures exists p :: Inside(p, b) && Row(m, r, p) == v
  {
    var i :| 0 <= i < 8 && Rows(m, r, Corners(b))[i] == v;
    var p := Corners(b)[i];
    assert Inside(p, b) && Row(m, r, p) == v;
  }

  ghost predicate Encloses(outer: Box, m: Mat, b: Box) { forall p :: Inside(p, b) ==> Inside(Transform(m, p), outer) }

  /** The box of the transformed corners holds the image of the whole local box. */
  lemma AabbEncloses(m: Mat, b: Box)
    ensures Encloses(TransformAabb(m, b), m, b)
  {
    forall p | Inside(p, b) ensures Inside(Transform(m, p), TransformAabb(m, b)) {
      RowBetween(m, 0, b, p);
      RowBetween(m, 1, b, p);
      RowBetween(m, 2, b, p);
      hide Row;
      hide Corners;
      hide Rows;
    }
  }

  /** And a box holds the image exactly when it holds that one: there is none smaller. */
  lemma EnclosureIsTight(m: Mat, b: Box, outer: Box)
    requires Inside(b.lo, b)
    ensures Encloses(outer, m, b) <==> Inside(TransformAabb(m, b).lo, outer) && Inside(TransformAabb(m, b).hi, outer)
  {
    AabbEncloses(m, b);
    var t := TransformAabb(m, b);
    assert Inside(Transform(m, b.lo), t);
    RowReached(m, 0, b, t.lo.x);
    RowReached(m, 0, b, t.hi.x);
    RowReached(m, 1, b, t.lo.y);
    RowReached(m, 1, b, t.hi.y);
    RowReached(m, 2, b, t.lo.z);
    RowReached(m, 2, b, t.hi.z);
    hide Row;
    hide TransformAabb;
    if Encloses(outer, m, b) {
      var p0 :| Inside(p0, b) && Row(m, 0, p0) == t.lo.x;
      var p1 :| Inside(p1, b) && Row(m, 0, p1) == t.hi.x;
      var p2 :| Inside(p2, b) && Row(m, 1, p2) == t.lo.y;
      var p3 :| Inside(p3, b) && Row(m, 1, p3) == t.hi.y;
      var p4 :| Inside(p4, b) && Row(m, 2, p4) == t.lo.z;
      var p5 :| Inside(p5, b) && Row(m, 2, p5) == t.hi.z;
    }
  }

  /**
   Through the hierarchy: a point of a node's local box, taken by the node's own transform
   and then each ancestor's, lies in the corner box of the node's world matrix; and no box
   smaller than that one holds them all.
   */
  lemma HierarchyEncloses(chain: seq<Mat>, b: Box, outer: Box)
    requires forall i :: 1 <= i < |chain| ==> Affine(chain[i])
    ensures forall p :: Inside(p, b) ==> Inside(Climb(chain, p), TransformAabb(World(chain), b))
    ensures Inside(b.lo, b) ==>
      ((forall p :: Inside(p, b) ==> Inside(Climb(chain, p), outer))
       <==> Inside(TransformAabb(World(chain), b).lo, outer) && Inside(TransformAabb(World(chain), b).hi, outer))
  {
    hide Transform;
    hide TransformAabb;
    hide World;
    hide Climb;
    hide Affine;
    hide Inside;
    forall p ensures Transform(World(chain), p) == Climb(chain, p) {
      WorldComposes(chain, p);
    }
    AabbEncloses(World(chain), b);
    if Inside(b.lo, b) {
      EnclosureIsTight(World(chain), b, outer);
    }
  }
}
