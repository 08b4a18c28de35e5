/**
  `VrbModel.createCube`: eight vertices, twelve triangles, six two-triangle
  faces and one object named "Cube", built through the registries of the
  `Scene`.

  The method itself is straight-line, as in the source. Its contract fixes the
  shape of what it built (`CubeTopology`): which corners each triangle has,
  that each triangle's edges are the ones the edge registry holds for its
  corner pairs, and which triangles each face holds. The lemmas then count:
  18 new edges, four boundary edges per face, and an object with 8 vertices,
  12 edges and 36 buffer entries.
 */
module Cube {
  import opened Lists
  import opened Topology

  /** The corner numbers (into p0 .. p7) of t0 .. t11, in constructor order. */
  const Triangles: seq<(nat, nat, nat)> :=
    [(0, 3, 1), (0, 2, 3), (0, 1, 4), (1, 5, 4), (1, 3, 5), (3, 7, 5),
     (4, 5, 6), (5, 7, 6), (0, 4, 2), (2, 4, 6), (2, 7, 3), (2, 6, 7)]

  /** Corner k of a box of size xl by yl by zl centred on the origin: p0 is
      (+, +, +) and the signs of x, y and z flip at k = 4, 2 and 1. */
  function CornerPos(xl: real, yl: real, zl: real, k: nat): Vec3 {
    Vec3(if k < 4 then xl / 2.0 else -xl / 2.0,
         if k % 4 < 2 then yl / 2.0 else -yl / 2.0,
         if k % 2 == 0 then zl / 2.0 else -zl / 2.0)
  }

  /** The first triangle of `Triangles` that has both corners a and b, in
      either order, or 12 when none has. */
  function FirstUse(a: nat, b: nat): nat {
    var x, y := if a < b then a else b, if a < b then b else a;
    if (x == 0 && y == 1) || (x == 0 && y == 3) || (x == 1 && y == 3) then 0
    else if (x == 0 && y == 2) || (x == 2 && y == 3) then 1
    else if (x == 1 && y == 4) || (x == 0 && y == 4) then 2
    else if (x == 1 && y == 5) || (x == 4 && y == 5) then 3
    else if (x == 3 && y == 5) then 4
    else if (x == 3 && y == 7) || (x == 5 && y == 7) then 5
    else if (x == 4 && y == 6) || (x == 5 && y == 6) then 6
    else if (x == 6 && y == 7) then 7
    else if (x == 2 && y == 4) then 8
    else if (x == 2 && y == 6) then 9
    else if (x == 2 && y == 7) then 10
    else 12
  }

  /** (a, b) is the pair (x, y) in either order. */
  predicate Links(a: nat, b: nat, x: nat, y: nat) {
    (a == x && b == y) || (a == y && b == x)
  }

  /** Triangle n, on corners i, j and k, has its three corner pairs in use by
      then, and the pairs it is the first to use are among them. */
  ghost predicate Step(n: nat, i: nat, j: nat, k: nat) {
    && FirstUse(i, j) <= n && FirstUse(j, k) <= n && FirstUse(i, k) <= n
    && FirstUse(j, i) <= n && FirstUse(k, j) <= n && FirstUse(k, i) <= n
    && forall a: nat, b: nat :: FirstUse(a, b) == n ==> Links(a, b, i, j) || Links(a, b, j, k) || Links(a, b, i, k)
  }

  /** `FirstUse` agrees with `Triangles`: every triangle of the table is a
      step of it. */
  lemma TableSteps(n: nat)
    requires n < 12
    ensures Step(n, Triangles[n].0, Triangles[n].1, Triangles[n].2)
  {
    // The two halves of the table separately.
    if n < 6 {
      assert Step(n, Triangles[n].0, Triangles[n].1, Triangles[n].2);
    } else {
      assert Step(n, Triangles[n].0, Triangles[n].1, Triangles[n].2);
    }
  }

  /** The registry es joins exactly the corner pairs the first n triangles of
      the table use. */
  ghost predicate Joined(es: seq<Edge>, vs: seq<Vertex>, n: nat) {
    forall i: nat, j: nat {:trigger FindEdge(es, vs[i], vs[j])} :: i < |vs| && j < |vs| ==>
      (FindEdge(es, vs[i], vs[j]).Some? <==> FirstUse(i, j) < n)
  }

  /** Each edge of t is the one es finds for its corner pair. */
  predicate Resolved(es: seq<Edge>, t: Triangle) {
    && FindEdge(es, t.v0, t.v1) == Some(t.e0)
    && FindEdge(es, t.v1, t.v2) == Some(t.e1)
    && FindEdge(es, t.v0, t.v2) == Some(t.e2)
  }

  /** 1 when no triangle before triangle n joins corners i and j. */
  function Missing(n: nat, i: nat, j: nat): nat {
    if FirstUse(i, j) < n then 0 else 1
  }

  /** No registered edge touches a vertex that is newer than the registry. */
  lemma FreshPairs(es: seq<Edge>, vs: seq<Vertex>)
    requires forall e, i :: e in es && 0 <= i < |vs| ==> !Touches(e, vs[i])
    ensures Joined(es, vs, 0)
  {
  }

  /** One corner pair a-b across `new VrbTriangle(vs[i], vs[j], vs[k])`,
      triangle n of the table, where u is the first triangle to use a-b. */
  lemma PairJoins(es: seq<Edge>, es': seq<Edge>, vs: seq<Vertex>, n: nat,
                  i: nat, j: nat, k: nat, t: Triangle, a: nat, b: nat, u: nat)
    requires Distinct(vs) && i < |vs| && j < |vs| && k < |vs| && a < |vs| && b < |vs|
    requires t.v0 == vs[i] && t.v1 == vs[j] && t.v2 == vs[k] && Resolved(es', t)
    requires FindEdge(es, vs[a], vs[b]).Some? <==> u < n
    requires u == n ==> Links(a, b, i, j) || Links(a, b, j, k) || Links(a, b, i, k)
    requires Links(a, b, i, j) || Links(a, b, j, k) || Links(a, b, i, k) ==> u <= n
    requires FindEdge(es', vs[a], vs[b])
               == if FindEdge(es, vs[a], vs[b]).Some? then FindEdge(es, vs[a], vs[b])
                  else if Joins(t.e0, vs[a], vs[b]) then Some(t.e0)
                  else if Joins(t.e1, vs[a], vs[b]) then Some(t.e1)
                  else if Joins(t.e2, vs[a], vs[b]) then Some(t.e2) else None
    ensures FindEdge(es', vs[a], vs[b]).Some? <==> u < n + 1
  {
    if Joins(t.e0, vs[a], vs[b]) {
      assert Links(a, b, i, j);
    }
    if Joins(t.e1, vs[a], vs[b]) {
      assert Links(a, b, j, k);
    }
    if Joins(t.e2, vs[a], vs[b]) {
      assert Links(a, b, i, k);
    }
  }

  /** The effect of `new VrbTriangle(vs[i], vs[j], vs[k])`, triangle n of the
      table, on the pairs the registry joins, and the edges it adds. */
  lemma TriangleJoins(es: seq<Edge>, es': seq<Edge>, vs: seq<Vertex>, n: nat,
                      i: nat, j: nat, k: nat, t: Triangle)
    requires Distinct(vs) && i < |vs| && j < |vs| && k < |vs| && i != j && j != k && i != k
    requires Joined(es, vs, n) && Step(n, i, j, k)
    requires t.v0 == vs[i] && t.v1 == vs[j] && t.v2 == vs[k] && Resolved(es', t)
    requires forall x, y :: FindEdge(es', x, y)
               == if FindEdge(es, x, y).Some? then FindEdge(es, x, y)
                  else if Joins(t.e0, x, y) then Some(t.e0)
                  else if Joins(t.e1, x, y) then Some(t.e1)
                  else if Joins(t.e2, x, y) then Some(t.e2) else None
    requires |es'| == |es| + Unjoined(es, vs[i], vs[j], vs[k], t.e0, t.e1)
    ensures Joined(es', vs, n + 1)
    ensures |es'| == |es| + Missing(n, i, j) + Missing(n, j, k) + Missing(n, i, k)
  {
    forall a: nat, b: nat | a < |vs| && b < |vs|
      ensures FindEdge(es', vs[a], vs[b]).Some? <==> FirstUse(a, b) < n + 1
    {
      PairJoins(es, es', vs, n, i, j, k, t, a, b, FirstUse(a, b));
    }
  }

  /** The triangles ts are the first |ts| of the cube, on the corners vs. */
  ghost predicate Placed(vs: seq<Vertex>, ts: seq<Triangle>) {
    && |vs| == 8 && |ts| <= 12
    && forall m :: 0 <= m < |ts| ==>
         ts[m].v0 == vs[Triangles[m].0] && ts[m].v1 == vs[Triangles[m].1] && ts[m].v2 == vs[Triangles[m].2]
  }

  /** The next `new VrbTriangle` of `createCube`, triangle n of the table,
      after the triangles done. */
  method AddTriangle(sc: Scene, vs: seq<Vertex>, ghost base: seq<Triangle>, ghost done: seq<Triangle>,
                     n: nat, i: nat, j: nat, k: nat) returns (t: Triangle)
    requires Distinct(vs) && |vs| == 8 && n == |done| < 12 && Triangles[n] == (i, j, k)
    requires Joined(sc.edgeAll, vs, n)
    requires forall u :: u in done ==> Resolved(sc.edgeAll, u)
    requires sc.triangleAll == base + done
    modifies sc`triangleAll, sc`edgeAll
    ensures fresh(t) && sc.triangleAll == base + (done + [t]) && t.v0 == vs[i] && t.v1 == vs[j] && t.v2 == vs[k]
    ensures Joined(sc.edgeAll, vs, n + 1)
    ensures forall u :: u in done + [t] ==> Resolved(sc.edgeAll, u)
    ensures |sc.edgeAll| == |old(sc.edgeAll)| + Missing(n, i, j) + Missing(n, j, k) + Missing(n, i, k)
    ensures old(sc.edgeAll) <= sc.edgeAll
  {
    t := sc.NewTriangle(vs[i], vs[j], vs[k]);
    assert Joined(sc.edgeAll, vs, n + 1)
        && |sc.edgeAll| == |old(sc.edgeAll)| + Missing(n, i, j) + Missing(n, j, k) + Missing(n, i, k) by {
      TableSteps(n);
      TriangleJoins(old(sc.edgeAll), sc.edgeAll, vs, n, i, j, k, t);
    }
    forall u | u in done + [t] ensures Resolved(sc.edgeAll, u) {
      if u != t {
        assert u in done;
      }
    }
    assert base + (done + [t]) == base + done + [t];
  }

  /** The eight `new VrbVertex` of `createCube`, p0 .. p7. */
  method CubeVertices(sc: Scene, xl: real, yl: real, zl: real) returns (vs: seq<Vertex>)
    modifies sc`vertexAll
    ensures |vs| == 8 && Distinct(vs) && sc.vertexAll == old(sc.vertexAll) + vs
    ensures forall v :: v in vs ==> fresh(v)
    ensures forall k :: 0 <= k < 8 ==> vs[k].pos == CornerPos(xl, yl, zl, k)
  {
    var p0 := sc.NewVertex(CornerPos(xl, yl, zl, 0));
    var p1 := sc.NewVertex(CornerPos(xl, yl, zl, 1));
    var p2 := sc.NewVertex(CornerPos(xl, yl, zl, 2));
    var p3 := sc.NewVertex(CornerPos(xl, yl, zl, 3));
    var p4 := sc.NewVertex(CornerPos(xl, yl, zl, 4));
    var p5 := sc.NewVertex(CornerPos(xl, yl, zl, 5));
    var p6 := sc.NewVertex(CornerPos(xl, yl, zl, 6));
    var p7 := sc.NewVertex(CornerPos(xl, yl, zl, 7));
    vs := [p0, p1, p2, p3, p4, p5, p6, p7];
  }

  /** t0 .. t2 of `createCube`, the first three. */
  method TrianglesA(sc: Scene, vs: seq<Vertex>) returns (ts: seq<Triangle>)
    requires Distinct(vs) && |vs| == 8
    requires Joined(sc.edgeAll, vs, 0)
    modifies sc`triangleAll, sc`edgeAll
    ensures sc.triangleAll == old(sc.triangleAll) + ts && |ts| == 3 && Placed(vs, ts)
    ensures Joined(sc.edgeAll, vs, 3)
    ensures forall u :: u in ts ==> Resolved(sc.edgeAll, u)
    ensures old(sc.edgeAll) <= sc.edgeAll && |sc.edgeAll| == |old(sc.edgeAll)| + 7
  {
    ghost var base := sc.triangleAll;
    ts := [];
    assert sc.triangleAll == base + ts;
    var t0 := AddTriangle(sc, vs, base, ts, 0, 0, 3, 1);
    ts := ts + [t0];
    var t1 := AddTriangle(sc, vs, base, ts, 1, 0, 2, 3);
    ts := ts + [t1];
    var t2 := AddTriangle(sc, vs, base, ts, 2, 0, 1, 4);
    ts := ts + [t2];
  }

  /** t3 .. t5 of `createCube`, after the first 3. */
  method TrianglesB(sc: Scene, vs: seq<Vertex>, ghost base: seq<Triangle>, done: seq<Triangle>)
    returns (ts: seq<Triangle>)
    requires Distinct(vs) && Placed(vs, done) && |done| == 3
    requires Joined(sc.edgeAll, vs, 3)
    requires forall u :: u in done ==> Resolved(sc.edgeAll, u)
    requires sc.triangleAll == base + done
    modifies sc`triangleAll, sc`edgeAll
    ensures sc.triangleAll == base + ts && |ts| == 6 && Placed(vs, ts)
    ensures Joined(sc.edgeAll, vs, 6)
    ensures forall u :: u in ts ==> Resolved(sc.edgeAll, u)
    ensures old(sc.edgeAll) <= sc.edgeAll && |sc.edgeAll| == |old(sc.edgeAll)| + 5
  {
    ts := done;
    var t3 := AddTriangle(sc, vs, base, ts, 3, 1, 5, 4);
    ts := ts + [t3];
    var t4 := AddTriangle(sc, vs, base, ts, 4, 1, 3, 5);
    ts := ts + [t4];
    var t5 := AddTriangle(sc, vs, base, ts, 5, 3, 7, 5);
    ts := ts + [t5];
  }

  /** t6 .. t8 of `createCube`, after the first 6. */
  method TrianglesC(sc: Scene, vs: seq<Vertex>, ghost base: seq<Triangle>, done: seq<Triangle>)
    returns (ts: seq<Triangle>)
    requires Distinct(vs) && Placed(vs, done) && |done| == 6
    requires Joined(sc.edgeAll, vs, 6)
    requires forall u :: u in done ==> Resolved(sc.edgeAll, u)
    requires sc.triangleAll == base + done
    modifies sc`triangleAll, sc`edgeAll
    ensures sc.triangleAll == base + ts && |ts| == 9 && Placed(vs, ts)
    ensures Joined(sc.edgeAll, vs, 9)
    ensures forall u :: u in ts ==> Resolved(sc.edgeAll, u)
    ensures old(sc.edgeAll) <= sc.edgeAll && |sc.edgeAll| == |old(sc.edgeAll)| + 4
  {
    ts := done;
    var t6 := AddTriangle(sc, vs, base, ts, 6, 4, 5, 6);
    ts := ts + [t6];
    var t7 := AddTriangle(sc, vs, base, ts, 7, 5, 7, 6);
    ts := ts + [t7];
    var t8 := AddTriangle(sc, vs, base, ts, 8, 0, 4, 2);
    ts := ts + [t8];
  }

  /** t9 .. t11 of `createCube`, after the first 9. */
  method TrianglesD(sc: Scene, vs: seq<Vertex>, ghost base: seq<Triangle>, done: seq<Triangle>)
    returns (ts: seq<Triangle>)
    requires Distinct(vs) && Placed(vs, done) && |done| == 9
    requires Joined(sc.edgeAll, vs, 9)
    requires forall u :: u in done ==> Resolved(sc.edgeAll, u)
    requires sc.triangleAll == base + done
    modifies sc`triangleAll, sc`edgeAll
    ensures sc.triangleAll == base + ts && |ts| == 12 && Placed(vs, ts)
    ensures Joined(sc.edgeAll, vs, 12)
    ensures forall u :: u in ts ==> Resolved(sc.edgeAll, u)
    ensures old(sc.edgeAll) <= sc.edgeAll && |sc.edgeAll| == |old(sc.edgeAll)| + 2
  {
    ts := done;
    var t9 := AddTriangle(sc, vs, base, ts, 9, 2, 4, 6);
    ts := ts + [t9];
    var t10 := AddTriangle(sc, vs, base, ts, 10, 2, 7, 3);
    ts := ts + [t10];
    var t11 := AddTriangle(sc, vs, base, ts, 11, 2, 6, 7);
    ts := ts + [t11];
  }

  /** The twelve `new VrbTriangle` of `createCube`, t0 .. t11, on corners
      vs that no registered edge touches yet. */
  method CubeTriangles(sc: Scene, vs: seq<Vertex>) returns (ts: seq<Triangle>)
    requires |vs| == 8 && Distinct(vs)
    requires forall e, i :: e in sc.edgeAll && 0 <= i < 8 ==> !Touches(e, vs[i])
    modifies sc`triangleAll, sc`edgeAll
    ensures sc.triangleAll == old(sc.triangleAll) + ts && |ts| == 12 && Placed(vs, ts)
    ensures forall m :: 0 <= m < 12 ==> Resolved(sc.edgeAll, ts[m])
    ensures old(sc.edgeAll) <= sc.edgeAll && |sc.edgeAll| == |old(sc.edgeAll)| + 18
  {
    FreshPairs(sc.edgeAll, vs);
    ghost var base := sc.triangleAll;
    ts := TrianglesA(sc, vs);
    ts := TrianglesB(sc, vs, base, ts);
    ts := TrianglesC(sc, vs, base, ts);
    ts := TrianglesD(sc, vs, base, ts);
    forall m | 0 <= m < 12 ensures Resolved(sc.edgeAll, ts[m]) {
      assert ts[m] in ts;
    }
  }

  /** The edge face k of the cube has as diagonal, given its first triangle t. */
  function Diagonal(t: Triangle, k: nat): Edge {
    if k == 0 || k == 5 then t.e0 else t.e1
  }

  /** The four outer edges of face k of the cube, given its triangles t, u. */
  function Outer(t: Triangle, u: Triangle, k: nat): seq<Edge> {
    if k == 0 || k == 5 then [t.e1, t.e2, u.e0, u.e1]
    else if k == 4 then [t.e0, t.e2, u.e1, u.e2]
    else [t.e0, t.e2, u.e0, u.e1]
  }

  /** Triangles of the cube on the corners vs, each resolved against es. */
  ghost predicate Wired(vs: seq<Vertex>, ts: seq<Triangle>, es: seq<Edge>) {
    && Distinct(vs) && Placed(vs, ts) && |ts| == 12
    && forall m :: 0 <= m < 12 ==> Resolved(es, ts[m])
  }

  /** The corners of a resolved triangle are joined by its edges. */
  lemma ResolvedJoins(es: seq<Edge>, t: Triangle)
    requires Resolved(es, t)
    ensures Joins(t.e0, t.v0, t.v1) && Joins(t.e1, t.v1, t.v2) && Joins(t.e2, t.v0, t.v2)
  {
  }

  /** Four different vertices. */
  predicate Apart(a: Vertex, b: Vertex, c: Vertex, d: Vertex) {
    a != b && a != c && a != d && b != c && b != d && c != d
  }

  /** Edges around a cycle a-b-c-d of four different corners, and the
      diagonal a-c, are five different edges. */
  lemma Cycle(ab: Edge, bc: Edge, cd: Edge, da: Edge, ac: Edge, a: Vertex, b: Vertex, c: Vertex, d: Vertex)
    requires Apart(a, b, c, d)
    requires Joins(ab, a, b) && Joins(bc, b, c) && Joins(cd, c, d) && Joins(da, d, a) && Joins(ac, a, c)
    ensures ab != bc && ab != cd && ab != da && bc != cd && bc != da && cd != da
    ensures ac != ab && ac != bc && ac != cd && ac != da
  {
  }

  /** Two triangles (a, c, b) and (a, d, c) sharing their edge a-c form a quad. */
  lemma QuadFirst(t: Triangle, u: Triangle)
    requires t.v0 == u.v0 && t.v1 == u.v2 && u.e2 == t.e0
    requires Apart(t.v0, t.v1, t.v2, u.v1)
    requires Joins(t.e0, t.v0, t.v1) && Joins(t.e1, t.v1, t.v2) && Joins(t.e2, t.v0, t.v2)
    requires Joins(u.e0, u.v0, u.v1) && Joins(u.e1, u.v1, u.v2)
    ensures Quad(t, u, t.e0, [t.e1, t.e2, u.e0, u.e1])
  {
    assert Distinct([t.e1, t.e2, u.e0, u.e1]) && t.e0 !in [t.e1, t.e2, u.e0, u.e1] by {
      Cycle(t.e2, t.e1, u.e1, u.e0, t.e0, t.v0, t.v2, t.v1, u.v1);
      DistinctFour(t.e1, t.e2, u.e0, u.e1);
    }
    assert multiset([t.e0, t.e1, t.e2, u.e0, u.e1, u.e2]) == multiset([t.e1, t.e2, u.e0, u.e1]) + multiset{t.e0, t.e0} by {
      assert [t.e0, t.e1, t.e2, u.e0, u.e1, u.e2] == [] + [t.e0] + [t.e1, t.e2, u.e0, u.e1] + [t.e0] + [];
      assert [] + [t.e1, t.e2, u.e0, u.e1] + [] == [t.e1, t.e2, u.e0, u.e1];
      TwoOut([], [t.e1, t.e2, u.e0, u.e1], [], t.e0);
    }
  }

  /** Two triangles (b, a, c) and (a, d, c) sharing their edge a-c form a quad. */
  lemma QuadSecond(t: Triangle, u: Triangle)
    requires t.v1 == u.v0 && t.v2 == u.v2 && u.e2 == t.e1
    requires Apart(t.v0, t.v1, t.v2, u.v1)
    requires Joins(t.e0, t.v0, t.v1) && Joins(t.e1, t.v1, t.v2) && Joins(t.e2, t.v0, t.v2)
    requires Joins(u.e0, u.v0, u.v1) && Joins(u.e1, u.v1, u.v2)
    ensures Quad(t, u, t.e1, [t.e0, t.e2, u.e0, u.e1])
  {
    assert Distinct([t.e0, t.e2, u.e0, u.e1]) && t.e1 !in [t.e0, t.e2, u.e0, u.e1] by {
      Cycle(t.e0, t.e2, u.e1, u.e0, t.e1, t.v1, t.v0, t.v2, u.v1);
      DistinctFour(t.e0, t.e2, u.e0, u.e1);
    }
    assert multiset([t.e0, t.e1, t.e2, u.e0, u.e1, u.e2]) == multiset([t.e0, t.e2, u.e0, u.e1]) + multiset{t.e1, t.e1} by {
      assert [t.e0, t.e1, t.e2, u.e0, u.e1, u.e2] == [t.e0] + [t.e1] + [t.e2, u.e0, u.e1] + [t.e1] + [];
      assert [t.e0] + [t.e2, u.e0, u.e1] + [] == [t.e0, t.e2, u.e0, u.e1];
      TwoOut([t.e0], [t.e2, u.e0, u.e1], [], t.e1);
    }
  }

  /** Two triangles (b, a, c) and (c, a, d) sharing their edge a-c form a quad. */
  lemma QuadThird(t: Triangle, u: Triangle)
    requires t.v2 == u.v0 && t.v1 == u.v1 && u.e0 == t.e1
    requires Apart(t.v0, t.v1, t.v2, u.v2)
    requires Joins(t.e0, t.v0, t.v1) && Joins(t.e1, t.v1, t.v2) && Joins(t.e2, t.v0, t.v2)
    requires Joins(u.e1, u.v1, u.v2) && Joins(u.e2, u.v0, u.v2)
    ensures Quad(t, u, t.e1, [t.e0, t.e2, u.e1, u.e2])
  {
    assert Distinct([t.e0, t.e2, u.e1, u.e2]) && t.e1 !in [t.e0, t.e2, u.e1, u.e2] by {
      Cycle(t.e0, t.e2, u.e2, u.e1, t.e1, t.v1, t.v0, t.v2, u.v2);
      DistinctFour(t.e0, t.e2, u.e1, u.e2);
    }
    assert multiset([t.e0, t.e1, t.e2, u.e0, u.e1, u.e2]) == multiset([t.e0, t.e2, u.e1, u.e2]) + multiset{t.e1, t.e1} by {
      assert [t.e0, t.e1, t.e2, u.e0, u.e1, u.e2] == [t.e0] + [t.e1] + [t.e2] + [t.e1] + [u.e1, u.e2];
      assert [t.e0] + [t.e2] + [u.e1, u.e2] == [t.e0, t.e2, u.e1, u.e2];
      TwoOut([t.e0], [t.e2], [u.e1, u.e2], t.e1);
    }
  }

  /** Faces 0 and 5 of the cube have the pattern of `QuadFirst`. */
  lemma CubeQuadFirst(vs: seq<Vertex>, ts: seq<Triangle>, es: seq<Edge>, k: nat)
    requires Distinct(vs) && Placed(vs, ts) && |ts| == 12 && (k == 0 || k == 5)
    requires Resolved(es, ts[2 * k]) && Resolved(es, ts[2 * k + 1])
    ensures Quad(ts[2 * k], ts[2 * k + 1], ts[2 * k].e0, [ts[2 * k].e1, ts[2 * k].e2, ts[2 * k + 1].e0, ts[2 * k + 1].e1])
  {
    var t, u := ts[2 * k], ts[2 * k + 1];
    ResolvedJoins(es, t);
    ResolvedJoins(es, u);
    QuadFirst(t, u);
  }

  /** Faces 1, 2 and 3 of the cube have the pattern of `QuadSecond`. */
  lemma CubeQuadSecond(vs: seq<Vertex>, ts: seq<Triangle>, es: seq<Edge>, k: nat)
    requires Distinct(vs) && Placed(vs, ts) && |ts| == 12 && 1 <= k <= 3
    requires Resolved(es, ts[2 * k]) && Resolved(es, ts[2 * k + 1])
    ensures Quad(ts[2 * k], ts[2 * k + 1], ts[2 * k].e1, [ts[2 * k].e0, ts[2 * k].e2, ts[2 * k + 1].e0, ts[2 * k + 1].e1])
  {
    var t, u := ts[2 * k], ts[2 * k + 1];
    ResolvedJoins(es, t);
    ResolvedJoins(es, u);
    QuadSecond(t, u);
  }

  /** Face 4 of the cube has the pattern of `QuadThird`. */
  lemma CubeQuadThird(vs: seq<Vertex>, ts: seq<Triangle>, es: seq<Edge>)
    requires Distinct(vs) && Placed(vs, ts) && |ts| == 12
    requires Resolved(es, ts[8]) && Resolved(es, ts[9])
    ensures Quad(ts[8], ts[9], ts[8].e1, [ts[8].e0, ts[8].e2, ts[9].e1, ts[9].e2])
  {
    var t, u := ts[8], ts[9];
    ResolvedJoins(es, t);
    ResolvedJoins(es, u);
    FindEdgeSymmetric(es, vs[4], vs[2]);
    QuadThird(t, u);
  }

  /** Each face of the cube is a quad: its two triangles share the diagonal
      and nothing else. */
  lemma CubeQuad(vs: seq<Vertex>, ts: seq<Triangle>, es: seq<Edge>, k: nat)
    requires Distinct(vs) && Placed(vs, ts) && |ts| == 12 && k < 6
    requires Resolved(es, ts[2 * k]) && Resolved(es, ts[2 * k + 1])
    ensures Quad(ts[2 * k], ts[2 * k + 1], Diagonal(ts[2 * k], k), Outer(ts[2 * k], ts[2 * k + 1], k))
  {
    if k == 0 || k == 5 {
      CubeQuadFirst(vs, ts, es, k);
    } else if k == 4 {
      CubeQuadThird(vs, ts, es);
    } else {
      CubeQuadSecond(vs, ts, es, k);
    }
  }

  /** f is face k of the cube, on its triangles t and u: four boundary
      edges, the outer edges of the quad, and the corners of t and u. */
  ghost predicate QuadFace(f: Face, t: Triangle, u: Triangle, outer: seq<Edge>) {
    && f.ftOriginal == [t, u] && |f.fEdges| == 4
    && (forall e :: e in f.fEdges ==> e in outer)
    && (forall e :: e in outer ==> e in f.fEdges)
    && (forall v :: v in f.fVertices ==> v in Corners([t, u]))
    && (forall v :: v in Corners([t, u]) ==> v in f.fVertices)
  }

  /** The faces fs are the first |fs| quads of the cube built on ts. */
  ghost predicate Made(ts: seq<Triangle>, fs: seq<Face>) {
    && |ts| == 12 && |fs| <= 6
    && forall k :: 0 <= k < |fs| ==> QuadFace(fs[k], ts[2 * k], ts[2 * k + 1], Outer(ts[2 * k], ts[2 * k + 1], k))
  }

  /** A computed face over a quad's two triangles has the quad's outer edges
      as its boundary. */
  lemma FaceIsQuad(f: Face, t: Triangle, u: Triangle, s: Edge, outer: seq<Edge>)
    requires f.ftOriginal == [t, u]
    requires f.fVertices == Dedup(Corners([t, u])) && f.fEdges == Boundary([t, u])
    requires Quad(t, u, s, outer)
    ensures QuadFace(f, t, u, outer)
  {
    QuadBoundary(t, u, s, outer);
  }

  /** `new VrbFace(list)` after the faces done: the vertex list and boundary
      of the new face. */
  method AddFace(sc: Scene, ts: seq<Triangle>, ghost base: seq<Face>, ghost done: seq<Face>) returns (f: Face)
    requires sc.faceAll == base + done
    modifies sc`faceAll
    ensures sc.faceAll == base + (done + [f]) && f.ftOriginal == ts
    ensures f.fVertices == Dedup(Corners(ts)) && f.fEdges == Boundary(ts)
  {
    f := sc.NewFace(ts);
    assert sc.faceAll == base + (done + [f]);
  }

  /** `new VrbFace(list)` on the two triangles of a quad, after the faces
      done. */
  method AddQuadFace(sc: Scene, t: Triangle, u: Triangle, ghost s: Edge, ghost outer: seq<Edge>,
                     ghost base: seq<Face>, ghost done: seq<Face>) returns (f: Face)
    requires Quad(t, u, s, outer) && sc.faceAll == base + done
    modifies sc`faceAll
    ensures sc.faceAll == base + (done + [f]) && QuadFace(f, t, u, outer)
  {
    f := AddFace(sc, [t, u], base, done);
    FaceIsQuad(f, t, u, s, outer);
  }

  /** Made grows by one face at a time. */
  lemma MadeSnoc(ts: seq<Triangle>, done: seq<Face>, f: Face, k: nat)
    requires Made(ts, done) && k == |done| < 6
    requires QuadFace(f, ts[2 * k], ts[2 * k + 1], Outer(ts[2 * k], ts[2 * k + 1], k))
    ensures Made(ts, done + [f])
  {
    forall j | 0 <= j < |done| + 1
      ensures QuadFace((done + [f])[j], ts[2 * j], ts[2 * j + 1], Outer(ts[2 * j], ts[2 * j + 1], j))
    {
      if j < |done| {
        assert (done + [f])[j] == done[j];
      }
    }
  }

  /** The next `new VrbFace(list)` of `createCube`, after the faces done: the
      list holds the next two triangles. */
  method MakeFace(sc: Scene, vs: seq<Vertex>, ts: seq<Triangle>, ghost es: seq<Edge>,
                  ghost base: seq<Face>, ghost done: seq<Face>, k: nat) returns (f: Face)
    requires Distinct(vs) && Placed(vs, ts) && |ts| == 12
    requires Made(ts, done) && k == |done| < 6
    requires Resolved(es, ts[2 * k]) && Resolved(es, ts[2 * k + 1])
    requires sc.faceAll == base + done
    modifies sc`faceAll
    ensures sc.faceAll == base + (done + [f]) && Made(ts, done + [f])
  {
    var t, u := ts[2 * k], ts[2 * k + 1];
    CubeQuad(vs, ts, es, k);
    f := AddQuadFace(sc, t, u, Diagonal(t, k), Outer(t, u, k), base, done);
    MadeSnoc(ts, done, f, k);
  }

  /** The six `new VrbFace` of `createCube`, two triangles each. */
  method CubeFaces(sc: Scene, vs: seq<Vertex>, ts: seq<Triangle>, ghost es: seq<Edge>) returns (fs: seq<Face>)
    requires Wired(vs, ts, es)
    modifies sc`faceAll
    ensures sc.faceAll == old(sc.faceAll) + fs && |fs| == 6 && Made(ts, fs)
  {
    ghost var base := sc.faceAll;
    fs := [];
    assert sc.faceAll == base + fs;
    var f0 := MakeFace(sc, vs, ts, es, base, fs, 0);
    fs := fs + [f0];
    var f1 := MakeFace(sc, vs, ts, es, base, fs, 1);
    fs := fs + [f1];
    var f2 := MakeFace(sc, vs, ts, es, base, fs, 2);
    fs := fs + [f2];
    var f3 := MakeFace(sc, vs, ts, es, base, fs, 3);
    fs := fs + [f3];
    var f4 := MakeFace(sc, vs, ts, es, base, fs, 4);
    fs := fs + [f4];
    var f5 := MakeFace(sc, vs, ts, es, base, fs, 5);
    fs := fs + [f5];
  }

  /** What `createCube` builds: the triangles ts on the corners vs, resolved
      against the edge registry es, and the six quads fs over them. */
  ghost predicate CubeTopology(vs: seq<Vertex>, ts: seq<Triangle>, fs: seq<Face>, es: seq<Edge>) {
    Wired(vs, ts, es) && |fs| == 6 && Made(ts, fs)
  }

  /** The twelve edges of the box, one per pair of corners that differ in one
      coordinate, as the triangles of the cube hold them. */
  function Rim(ts: seq<Triangle>): seq<Edge>
    requires |ts| == 12
  {
    [ts[0].e1, ts[0].e2, ts[1].e0, ts[1].e1, ts[2].e2, ts[3].e0,
     ts[3].e1, ts[5].e0, ts[5].e1, ts[6].e2, ts[7].e1, ts[9].e2]
  }

  /** Every face of the cube has two triangles and four boundary edges. */
  lemma CubeFaceShape(ts: seq<Triangle>, fs: seq<Face>, k: nat)
    requires Made(ts, fs) && k < |fs|
    ensures |fs[k].ftOriginal| == 2 && |fs[k].fEdges| == 4
    ensures forall e :: e in fs[k].fEdges ==> e in EdgeUses(fs[k].ftOriginal)
  {
    EdgeUsesPair(ts[2 * k], ts[2 * k + 1]);
  }

  /** The corners of a quad face are those of its two triangles. */
  lemma QuadCorners(f: Face, t: Triangle, u: Triangle, outer: seq<Edge>)
    requires QuadFace(f, t, u, outer)
    ensures forall v :: v in f.fVertices <==> v == t.v0 || v == t.v1 || v == t.v2 || v == u.v0 || v == u.v1 || v == u.v2
  {
    CornersPair(t, u);
  }

  /** Every corner number of the table is one of p0 .. p7. */
  lemma TableCorners()
    ensures forall m :: 0 <= m < 12 ==> Triangles[m].0 < 8 && Triangles[m].1 < 8 && Triangles[m].2 < 8
  {
  }

  /** The cube object lists its eight corners. */
  lemma CubeVertexCount(vs: seq<Vertex>, ts: seq<Triangle>, fs: seq<Face>)
    requires Distinct(vs) && Placed(vs, ts) && |ts| == 12 && |fs| == 6 && Made(ts, fs)
    ensures |Dedup(FaceVertices(fs))| == 8
  {
    FaceCornersIn(vs, ts, fs);
    CornersInFaces(vs, ts, fs);
    forall v ensures v in Dedup(FaceVertices(fs)) <==> v in vs {
      FaceVerticesHas(fs, v);
      if v in vs {
        var i :| 0 <= i < 8 && vs[i] == v;
        var k := if i < 4 then 0 else 3;
        assert v in fs[k].fVertices;
      }
    }
    SameElements(Dedup(FaceVertices(fs)), vs);
  }

  /** Every corner of every face of the cube is one of p0 .. p7. */
  lemma FaceCornersIn(vs: seq<Vertex>, ts: seq<Triangle>, fs: seq<Face>)
    requires Placed(vs, ts) && |ts| == 12 && |fs| == 6 && Made(ts, fs)
    ensures forall k, v :: 0 <= k < 6 && v in fs[k].fVertices ==> v in vs
  {
    TableCorners();
    forall k, v | 0 <= k < 6 && v in fs[k].fVertices ensures v in vs {
      QuadCorners(fs[k], ts[2 * k], ts[2 * k + 1], Outer(ts[2 * k], ts[2 * k + 1], k));
    }
  }

  /** Faces 0 and 3 of the cube, on opposite sides, hold all eight corners
      between them. */
  lemma CornersInFaces(vs: seq<Vertex>, ts: seq<Triangle>, fs: seq<Face>)
    requires Placed(vs, ts) && |ts| == 12 && |fs| == 6 && Made(ts, fs)
    ensures forall i :: 0 <= i < 4 ==> vs[i] in fs[0].fVertices
    ensures forall i :: 4 <= i < 8 ==> vs[i] in fs[3].fVertices
  {
    QuadCorners(fs[0], ts[0], ts[1], Outer(ts[0], ts[1], 0));
    QuadCorners(fs[3], ts[6], ts[7], Outer(ts[6], ts[7], 3));
  }

  /** The outer edges of the later faces, resolved again for the same corner
      pair, are the edges of the earlier triangles. */
  ghost predicate Shared(ts: seq<Triangle>)
    requires |ts| == 12
  {
    && ts[2].e0 == ts[0].e2 && ts[4].e0 == ts[0].e1 && ts[4].e2 == ts[3].e0
    && ts[6].e0 == ts[3].e1 && ts[7].e0 == ts[5].e1
    && ts[8].e0 == ts[2].e2 && ts[8].e2 == ts[1].e0 && ts[9].e1 == ts[6].e2
    && ts[10].e1 == ts[5].e0 && ts[10].e2 == ts[1].e1 && ts[11].e0 == ts[9].e2 && ts[11].e1 == ts[7].e1
  }

  /** The cube object lists the twelve edges of the box, not the diagonals. */
  lemma CubeEdgeCount(vs: seq<Vertex>, ts: seq<Triangle>, fs: seq<Face>, es: seq<Edge>)
    requires Wired(vs, ts, es) && |fs| == 6 && Made(ts, fs)
    ensures |Dedup(FaceEdges(fs))| == 12
  {
    RimShared(vs, ts, es);
    RimDistinct(vs, ts, es);
    EdgesInRim(ts, fs);
    RimInEdges(ts, fs);
    SameElements(Dedup(FaceEdges(fs)), Rim(ts));
  }

  /** Every boundary edge of a face of the cube is a box edge. */
  lemma EdgesInRim(ts: seq<Triangle>, fs: seq<Face>)
    requires |ts| == 12 && Shared(ts) && |fs| == 6 && Made(ts, fs)
    ensures forall e :: e in FaceEdges(fs) ==> e in Rim(ts)
  {
    forall e | e in FaceEdges(fs) ensures e in Rim(ts) {
      FaceEdgesHas(fs, e);
      var k :| 0 <= k < 6 && e in fs[k].fEdges;
      OuterInRim(ts, k);
    }
  }

  /** Every box edge is a boundary edge of a face of the cube. */
  lemma RimInEdges(ts: seq<Triangle>, fs: seq<Face>)
    requires |fs| == 6 && Made(ts, fs)
    ensures forall e :: e in Rim(ts) ==> e in FaceEdges(fs)
  {
    RimInOuter(ts);
    forall m | 0 <= m < 12 ensures Rim(ts)[m] in FaceEdges(fs) {
      FaceEdgesHas(fs, Rim(ts)[m]);
      assert Rim(ts)[m] in fs[RimFace[m]].fEdges;
    }
  }

  /** Each outer edge of face k is a box edge. */
  lemma OuterInRim(ts: seq<Triangle>, k: nat)
    requires |ts| == 12 && Shared(ts) && k < 6
    ensures forall e :: e in Outer(ts[2 * k], ts[2 * k + 1], k) ==> e in Rim(ts)
  {
  }

  /** The face, among 0 .. 4, that has each box edge as an outer edge. */
  const RimFace: seq<nat> := [0, 0, 0, 0, 1, 1, 1, 2, 2, 3, 3, 4]

  /** Each box edge is an outer edge of the face `RimFace` names. */
  lemma RimInOuter(ts: seq<Triangle>)
    requires |ts| == 12
    ensures forall m :: 0 <= m < 12 ==>
              RimFace[m] < 5 && Rim(ts)[m] in Outer(ts[2 * RimFace[m]], ts[2 * RimFace[m] + 1], RimFace[m])
  {
  }

  /** An outer edge of a later face is the same edge as the one an earlier
      triangle resolved for the same pair of corners. */
  lemma RimShared(vs: seq<Vertex>, ts: seq<Triangle>, es: seq<Edge>)
    requires Placed(vs, ts) && |ts| == 12
    requires forall m :: 0 <= m < 12 ==> Resolved(es, ts[m])
    ensures Shared(ts)
  {
    RimSharedFront(vs, ts, es);
    RimSharedBack(vs, ts, es);
  }

  /** The shared edges of faces 1 .. 3. */
  lemma RimSharedFront(vs: seq<Vertex>, ts: seq<Triangle>, es: seq<Edge>)
    requires Placed(vs, ts) && |ts| == 12
    requires forall m :: 0 <= m < 12 ==> Resolved(es, ts[m])
    ensures ts[2].e0 == ts[0].e2 && ts[4].e0 == ts[0].e1 && ts[4].e2 == ts[3].e0
    ensures ts[6].e0 == ts[3].e1 && ts[7].e0 == ts[5].e1
  {
    FindEdgeSymmetric(es, vs[1], vs[3]);
    FindEdgeSymmetric(es, vs[4], vs[5]);
    FindEdgeSymmetric(es, vs[5], vs[7]);
  }

  /** The shared edges of faces 4 and 5. */
  lemma RimSharedBack(vs: seq<Vertex>, ts: seq<Triangle>, es: seq<Edge>)
    requires Placed(vs, ts) && |ts| == 12
    requires forall m :: 0 <= m < 12 ==> Resolved(es, ts[m])
    ensures ts[8].e0 == ts[2].e2 && ts[8].e2 == ts[1].e0 && ts[9].e1 == ts[6].e2
    ensures ts[10].e1 == ts[5].e0 && ts[10].e2 == ts[1].e1 && ts[11].e0 == ts[9].e2 && ts[11].e1 == ts[7].e1
  {
    FindEdgeSymmetric(es, vs[3], vs[7]);
    FindEdgeSymmetric(es, vs[6], vs[7]);
  }

  /** The twelve box edges are twelve different edges: each joins its own
      pair of corners. */
  lemma RimDistinct(vs: seq<Vertex>, ts: seq<Triangle>, es: seq<Edge>)
    requires Distinct(vs) && Placed(vs, ts) && |ts| == 12
    requires forall m :: 0 <= m < 12 ==> Resolved(es, ts[m])
    ensures Distinct(Rim(ts))
  {
    RimJoins(vs, ts, es);
    BoxPairsDistinct();
    JoinsApart(vs, Rim(ts), BoxPairs);
  }

  /** The corner pairs of the twelve box edges, lower corner first, in the
      order of `Rim`. */
  const BoxPairs: seq<(nat, nat)> :=
    [(1, 3), (0, 1), (0, 2), (2, 3), (0, 4), (1, 5), (4, 5), (3, 7), (5, 7), (4, 6), (6, 7), (2, 6)]

  /** The box edges join twelve different corner pairs. */
  lemma BoxPairsDistinct()
    ensures Distinct(BoxPairs) && |BoxPairs| == 12
    ensures forall m :: 0 <= m < 12 ==> BoxPairs[m].0 < BoxPairs[m].1 < 8
  {
  }

  /** Each box edge joins its pair of corners. */
  lemma RimJoins(vs: seq<Vertex>, ts: seq<Triangle>, es: seq<Edge>)
    requires Placed(vs, ts) && |ts| == 12
    requires forall m :: 0 <= m < 12 ==> Resolved(es, ts[m])
    ensures forall m :: 0 <= m < 12 ==> Joins(Rim(ts)[m], vs[BoxPairs[m].0], vs[BoxPairs[m].1])
  {
  }

  /** Edges joining different pairs of different vertices are different. */
  lemma JoinsApart(vs: seq<Vertex>, r: seq<Edge>, ps: seq<(nat, nat)>)
    requires Distinct(vs) && Distinct(ps) && |r| == |ps|
    requires forall m :: 0 <= m < |ps| ==> ps[m].0 < ps[m].1 < |vs|
    requires forall m :: 0 <= m < |ps| ==> Joins(r[m], vs[ps[m].0], vs[ps[m].1])
    ensures Distinct(r)
  {
    forall i, j | 0 <= i < j < |r| ensures r[i] != r[j] {
    }
  }

  /** The object over the six faces of the cube lists 8 vertices and 12
      edges, and its faces hold 12 triangles. */
  lemma CubeCounts(vs: seq<Vertex>, ts: seq<Triangle>, fs: seq<Face>, es: seq<Edge>)
    requires CubeTopology(vs, ts, fs, es)
    ensures |Dedup(FaceVertices(fs))| == 8 && |Dedup(FaceEdges(fs))| == 12 && |FaceTriangles(fs)| == 12
  {
    CubeVertexCount(vs, ts, fs);
    CubeEdgeCount(vs, ts, fs, es);
    forall k | 0 <= k < 6 ensures |fs[k].ftOriginal| == 2 {
      CubeFaceShape(ts, fs, k);
    }
    FaceTrianglesCount(fs, 2);
  }

  /** The registry part of `createCube`: its vertices, triangles and faces,
      before the object is made. */
  method CubeMesh(sc: Scene, xl: real, yl: real, zl: real)
    returns (vs: seq<Vertex>, ts: seq<Triangle>, fs: seq<Face>)
    modifies sc`vertexAll, sc`edgeAll, sc`triangleAll, sc`faceAll
    ensures sc.vertexAll == old(sc.vertexAll) + vs && |vs| == 8
    ensures forall v :: v in vs ==> fresh(v)
    ensures forall k :: 0 <= k < 8 ==> vs[k].pos == CornerPos(xl, yl, zl, k)
    ensures sc.triangleAll == old(sc.triangleAll) + ts && |ts| == 12
    ensures old(sc.edgeAll) <= sc.edgeAll && |sc.edgeAll| == |old(sc.edgeAll)| + 18
    ensures sc.faceAll == old(sc.faceAll) + fs
    ensures CubeTopology(vs, ts, fs, sc.edgeAll)
  {
    vs := CubeVertices(sc, xl, yl, zl);
    forall e, i | e in sc.edgeAll && 0 <= i < 8 ensures !Touches(e, vs[i]) {
      assert vs[i] in vs;
    }
    ts := CubeTriangles(sc, vs);
    fs := CubeFaces(sc, vs, ts, sc.edgeAll);
  }

  /** `VrbModel.createCube(xp, yp, zp, xl, yl, zl)`: vs and ts are the
      vertices and triangles it registers. */
  method CreateCube(sc: Scene, xp: real, yp: real, zp: real, xl: real, yl: real, zl: real)
    returns (o: Obj, ghost vs: seq<Vertex>, ghost ts: seq<Triangle>)
    modifies sc`vertexAll, sc`edgeAll, sc`triangleAll, sc`faceAll, sc`objectAll
    ensures sc.vertexAll == old(sc.vertexAll) + vs && |vs| == 8
    ensures forall v :: v in vs ==> fresh(v)
    ensures forall k :: 0 <= k < 8 ==> vs[k].pos == CornerPos(xl, yl, zl, k)
    ensures sc.triangleAll == old(sc.triangleAll) + ts && |ts| == 12
    ensures old(sc.edgeAll) <= sc.edgeAll && |sc.edgeAll| == |old(sc.edgeAll)| + 18
    ensures sc.faceAll == old(sc.faceAll) + o.faces
    ensures CubeTopology(vs, ts, o.faces, sc.edgeAll)
    ensures fresh(o) && sc.objectAll == old(sc.objectAll) + [o]
    ensures o.name == "Cube" && o.position == Vec3(xp, yp, zp) && o.Computed()
    ensures |o.vertices| == 8 && |o.edges| == 12 && |o.vectors| == 36 && |o.triangles| == 36
  {
    var fList;
    vs, ts, fList := CubeMesh(sc, xl, yl, zl);
    o := sc.NewObject(Vec3(xp, yp, zp), fList, "Cube");
    CubeCounts(vs, ts, fList, sc.edgeAll);
  }
}
