/**
  The editable mesh topology: vertices, edges (deduplicated by their unordered
  vertex pair), triangles, faces (triangle sets with derived local buffers and
  boundary edges) and objects (face sets with derived global buffers), and the
  process-wide registries that hold them together with the "editing object"
  slot.

  Every entity is a class, so "the same vertex" is reference equality as in the
  source. The static `all` lists of the five entity classes and the static
  `VrbObject.editingObject` live in one `Scene` object.
 */
module Topology {
  import opened Lists

  /** A position; the source's float `Vector3`, read as exact reals. */
  datatype Vec3 = Vec3(x: real, y: real, z: real)

  class Vertex {
    const index: int
    const pos: Vec3
    var constructed: bool
    var displayed: bool

    constructor (index: int, pos: Vec3)
      ensures this.index == index && this.pos == pos
      ensures !constructed && !displayed
    {
      this.index := index;
      this.pos := pos;
      constructed, displayed := false, false;
    }

    /** Builds the visual on first use, otherwise re-activates it. */
    method DisplayModel()
      modifies this`constructed, this`displayed
      ensures constructed && displayed
    {
      if !constructed {
        constructed := true;
      }
      displayed := true;
    }

    method HideModel()
      modifies this`displayed
      ensures !displayed
    {
      displayed := false;
    }
  }

  class Edge {
    const index: int
    const v0: Vertex
    const v1: Vertex
    var constructed: bool
    var displayed: bool

    constructor (index: int, v0: Vertex, v1: Vertex)
      ensures this.index == index && this.v0 == v0 && this.v1 == v1
      ensures !constructed && !displayed
    {
      this.index, this.v0, this.v1 := index, v0, v1;
      constructed, displayed := false, false;
    }

    method DisplayModel()
      modifies this`constructed, this`displayed
      ensures constructed && displayed
    {
      if !constructed {
        constructed := true;
      }
      displayed := true;
    }

    method HideModel()
      modifies this`displayed
      ensures !displayed
    {
      displayed := false;
    }
  }

  /** Three corners (their order is the winding) and the three edges resolved
      for them when the triangle was made. */
  class Triangle {
    const index: int
    const v0: Vertex
    const v1: Vertex
    const v2: Vertex
    const e0: Edge
    const e1: Edge
    const e2: Edge

    constructor (index: int, v0: Vertex, v1: Vertex, v2: Vertex, e0: Edge, e1: Edge, e2: Edge)
      ensures this.index == index && this.v0 == v0 && this.v1 == v1 && this.v2 == v2
      ensures this.e0 == e0 && this.e1 == e1 && this.e2 == e2
    {
      this.index, this.v0, this.v1, this.v2 := index, v0, v1, v2;
      this.e0, this.e1, this.e2 := e0, e1, e2;
    }
  }

  predicate Joins(e: Edge, a: Vertex, b: Vertex) {
    (e.v0 == a && e.v1 == b) || (e.v0 == b && e.v1 == a)
  }

  predicate Touches(e: Edge, v: Vertex) {
    e.v0 == v || e.v1 == v
  }

  predicate HasCorner(t: Triangle, v: Vertex) {
    t.v0 == v || t.v1 == v || t.v2 == v
  }

  function Corner(t: Triangle, k: nat): Vertex
    requires k < 3
  {
    if k == 0 then t.v0 else if k == 1 then t.v1 else t.v2
  }

  function EdgeOf(t: Triangle, k: nat): Edge
    requires k < 3
  {
    if k == 0 then t.e0 else if k == 1 then t.e1 else t.e2
  }

  /** `VrbEdge.findEdgeByVertices`: the first edge of es that joins a and b,
      in either order. */
  function FindEdge(es: seq<Edge>, a: Vertex, b: Vertex): (r: Option<Edge>)
    ensures r.None? ==> forall e :: e in es ==> !Joins(e, a, b)
    ensures r.Some? ==> r.value in es && Joins(r.value, a, b)
    decreases |es|
  {
    if es == [] then None
    else if Joins(es[0], a, b) then Some(es[0])
    else FindEdge(es[1..], a, b)
  }

  /** The lookup ignores the order of the two vertices. */
  lemma {:induction false} FindEdgeSymmetric(es: seq<Edge>, a: Vertex, b: Vertex)
    ensures FindEdge(es, a, b) == FindEdge(es, b, a)
    decreases |es|
  {
    if es != [] {
      FindEdgeSymmetric(es[1..], a, b);
    }
  }

  /** Appending an edge changes a lookup only when nothing matched before. */
  lemma {:induction false} FindEdgeAppend(es: seq<Edge>, e: Edge, a: Vertex, b: Vertex)
    ensures FindEdge(es + [e], a, b)
         == if FindEdge(es, a, b).Some? then FindEdge(es, a, b)
            else if Joins(e, a, b) then Some(e) else None
    decreases |es|
  {
    if es == [] {
      assert [e][1..] == [];
    } else {
      assert (es + [e])[1..] == es[1..] + [e];
      FindEdgeAppend(es[1..], e, a, b);
    }
  }

  /** The edge found is the first one joining a and b. */
  lemma {:induction false} FindEdgeFirst(es: seq<Edge>, a: Vertex, b: Vertex)
    requires FindEdge(es, a, b).Some?
    ensures forall k :: 0 <= k < IndexOf(es, FindEdge(es, a, b).value) ==> !Joins(es[k], a, b)
    decreases |es|
  {
    if !Joins(es[0], a, b) {
      FindEdgeFirst(es[1..], a, b);
      var e := FindEdge(es, a, b).value;
      assert es[0] != e;
      forall k | 0 <= k < IndexOf(es, e) ensures !Joins(es[k], a, b) {
        if k > 0 {
          assert es[k] == es[1..][k - 1];
        }
      }
    }
  }

  /** The registry after `addEdge(a, b)` returned e. */
  predicate AddedEdge(es: seq<Edge>, es': seq<Edge>, a: Vertex, b: Vertex, e: Edge) {
    && FindEdge(es', a, b) == Some(e)
    && es' == if FindEdge(es, a, b).Some? then es else es + [e]
  }

  /** How many of the pairs (a, b), (b, c) and (a, c), resolved in that order
      to e0, e1 and a third edge, had no edge yet: a pair counts once even
      when an earlier edge of the same triangle already joins it. */
  function Unjoined(es: seq<Edge>, a: Vertex, b: Vertex, c: Vertex, e0: Edge, e1: Edge): nat {
    (if FindEdge(es, a, b).None? then 1 else 0)
    + (if FindEdge(es, b, c).None? && !Joins(e0, b, c) then 1 else 0)
    + (if FindEdge(es, a, c).None? && !Joins(e0, a, c) && !Joins(e1, a, c) then 1 else 0)
  }

  /** After `addEdge` has resolved three pairs in a row, as `new VrbTriangle`
      does, the old lookups stay and every other pair finds the first of the
      three edges that joins it. */
  lemma TriangleLookups(es0: seq<Edge>, es1: seq<Edge>, es2: seq<Edge>, es3: seq<Edge>,
                        a: Vertex, b: Vertex, c: Vertex, e0: Edge, e1: Edge, e2: Edge)
    requires AddedEdge(es0, es1, a, b, e0) && AddedEdge(es1, es2, b, c, e1) && AddedEdge(es2, es3, a, c, e2)
    ensures forall x, y :: FindEdge(es3, x, y)
              == if FindEdge(es0, x, y).Some? then FindEdge(es0, x, y)
                 else if Joins(e0, x, y) then Some(e0)
                 else if Joins(e1, x, y) then Some(e1)
                 else if Joins(e2, x, y) then Some(e2) else None
  {
    forall x, y
      ensures FindEdge(es3, x, y)
           == if FindEdge(es0, x, y).Some? then FindEdge(es0, x, y)
              else if Joins(e0, x, y) then Some(e0)
              else if Joins(e1, x, y) then Some(e1)
              else if Joins(e2, x, y) then Some(e2) else None
    {
      FindEdgeAppend(es0, e0, x, y);
      FindEdgeAppend(es1, e1, x, y);
      FindEdgeAppend(es2, e2, x, y);
    }
  }

  /** The registry grows by the pairs that were missing; a pair counts once
      even when an earlier edge of the same triangle already joins it. */
  lemma TriangleGrowth(es0: seq<Edge>, es1: seq<Edge>, es2: seq<Edge>, es3: seq<Edge>,
                       a: Vertex, b: Vertex, c: Vertex, e0: Edge, e1: Edge, e2: Edge)
    requires AddedEdge(es0, es1, a, b, e0) && AddedEdge(es1, es2, b, c, e1) && AddedEdge(es2, es3, a, c, e2)
    ensures |es3| == |es0| + Unjoined(es0, a, b, c, e0, e1)
    ensures es0 <= es3 && |es3| <= |es0| + 3
  {
    FindEdgeAppend(es0, e0, b, c);
    FindEdgeAppend(es0, e0, a, c);
    FindEdgeAppend(es1, e1, a, c);
  }

  /** Each pair of the triangle still finds the edge resolved for it. */
  lemma TriangleKeepsPairs(es0: seq<Edge>, es1: seq<Edge>, es2: seq<Edge>, es3: seq<Edge>,
                           a: Vertex, b: Vertex, c: Vertex, e0: Edge, e1: Edge, e2: Edge)
    requires AddedEdge(es0, es1, a, b, e0) && AddedEdge(es1, es2, b, c, e1) && AddedEdge(es2, es3, a, c, e2)
    ensures FindEdge(es3, a, b) == Some(e0) && FindEdge(es3, b, c) == Some(e1) && FindEdge(es3, a, c) == Some(e2)
  {
    FindEdgeAppend(es1, e1, a, b);
    FindEdgeAppend(es2, e2, a, b);
    FindEdgeAppend(es2, e2, b, c);
  }

  /** `addEdge(a, b)` followed by `addEdge(b, a)` gives the same edge, and
      the second call leaves the registry as the first left it. */
  lemma AddEdgeTwice(es: seq<Edge>, es': seq<Edge>, es'': seq<Edge>, a: Vertex, b: Vertex, e: Edge, e': Edge)
    requires AddedEdge(es, es', a, b, e) && AddedEdge(es', es'', b, a, e')
    ensures e' == e && es'' == es'
  {
    FindEdgeSymmetric(es', a, b);
  }

  /** `VrbVertex.isIsolate`: no triangle of ts has v as a corner. */
  function IsIsolate(ts: seq<Triangle>, v: Vertex): (r: bool)
    ensures !r ==> exists k :: 0 <= k < |ts| && HasCorner(ts[k], v)
    decreases |ts|
  {
    if ts == [] then true
    else if HasCorner(ts[0], v) then false
    else IsIsolate(ts[1..], v)
  }

  /** The scan answers true exactly when no triangle of ts uses v. */
  lemma {:induction false} IsIsolateExactly(ts: seq<Triangle>, v: Vertex)
    ensures IsIsolate(ts, v) <==> forall t :: t in ts ==> !HasCorner(t, v)
    decreases |ts|
  {
    if ts != [] {
      IsIsolateExactly(ts[1..], v);
      assert forall t :: t in ts <==> t == ts[0] || t in ts[1..] by {
        assert ts == [ts[0]] + ts[1..];
      }
    }
  }

  /** A vertex no triangle of b uses is used by no triangle of a sub-multiset
      of b either: removing triangles never makes a vertex less isolated. */
  lemma IsIsolateShrinks(a: seq<Triangle>, b: seq<Triangle>, v: Vertex)
    requires multiset(a) <= multiset(b) && IsIsolate(b, v)
    ensures IsIsolate(a, v)
  {
    IsIsolateExactly(a, v);
    IsIsolateExactly(b, v);
    forall t | t in a ensures !HasCorner(t, v) {
      assert t in multiset(a);
    }
  }

  /** The corners of ts, three per triangle, in order. */
  function Corners(ts: seq<Triangle>): (r: seq<Vertex>)
    ensures |r| == 3 * |ts|
    decreases |ts|
  {
    if ts == [] then []
    else
      var n := |ts| - 1;
      Corners(ts[..n]) + [ts[n].v0, ts[n].v1, ts[n].v2]
  }

  /** The edge references of ts, e0, e1, e2 per triangle, in order. */
  function EdgeUses(ts: seq<Triangle>): (r: seq<Edge>)
    ensures |r| == 3 * |ts|
    decreases |ts|
  {
    if ts == [] then []
    else
      var n := |ts| - 1;
      EdgeUses(ts[..n]) + [ts[n].e0, ts[n].e1, ts[n].e2]
  }

  /** The index buffer of a face: six slots per triangle; the first three hold
      the positions of its corners in vs, the other three stay 0. */
  function LocalIndices(vs: seq<Vertex>, ts: seq<Triangle>): (r: seq<int>)
    ensures |r| == 6 * |ts|
    decreases |ts|
  {
    if ts == [] then []
    else
      var n := |ts| - 1;
      var t := ts[n];
      LocalIndices(vs, ts[..n]) + [IndexOf(vs, t.v0), IndexOf(vs, t.v1), IndexOf(vs, t.v2), 0, 0, 0]
  }

  /** The boundary of a triangle set: the edges used by exactly one of its
      triangles, each once, in order of first use. */
  function Boundary(ts: seq<Triangle>): (r: seq<Edge>)
    ensures |r| <= 3 * |ts|
  {
    KeepOnce(Dedup(EdgeUses(ts)), EdgeUses(ts))
  }

  /** An edge is on the boundary exactly when one triangle of ts uses it, and
      the boundary lists no edge twice. */
  lemma BoundaryExactly(ts: seq<Triangle>)
    ensures Distinct(Boundary(ts))
    ensures forall e :: e in Boundary(ts) <==> e in EdgeUses(ts) && multiset(EdgeUses(ts))[e] == 1
  {
    var uses := EdgeUses(ts);
    KeepOnceDistinct(Dedup(uses), uses);
  }

  /** t and u are glued along the edge s, as the two triangles of a quad
      face are: between them they use s twice and each outer edge once. */
  predicate Quad(t: Triangle, u: Triangle, s: Edge, outer: seq<Edge>) {
    && |outer| == 4 && Distinct(outer) && s !in outer
    && multiset([t.e0, t.e1, t.e2, u.e0, u.e1, u.e2]) == multiset(outer) + multiset{s, s}
  }

  lemma CornersPair(t: Triangle, u: Triangle)
    ensures Corners([t, u]) == [t.v0, t.v1, t.v2, u.v0, u.v1, u.v2]
  {
    assert [t, u][..1] == [t] && [t][..0] == [];
    assert Corners([t]) == [t.v0, t.v1, t.v2];
  }

  lemma EdgeUsesPair(t: Triangle, u: Triangle)
    ensures EdgeUses([t, u]) == [t.e0, t.e1, t.e2, u.e0, u.e1, u.e2]
  {
    assert [t, u][..1] == [t] && [t][..0] == [];
    assert EdgeUses([t]) == [t.e0, t.e1, t.e2];
  }

  /** The boundary of a quad is its four outer edges. */
  lemma QuadBoundary(t: Triangle, u: Triangle, s: Edge, outer: seq<Edge>)
    requires Quad(t, u, s, outer)
    ensures |Boundary([t, u])| == 4
    ensures forall e :: e in Boundary([t, u]) <==> e in outer
  {
    EdgeUsesPair(t, u);
    BoundaryExactly([t, u]);
    OnceExceptPair(EdgeUses([t, u]), s, outer);
    SameElements(Boundary([t, u]), outer);
  }

  /** The triangles of fs, face after face. */
  function FaceTriangles(fs: seq<Face>): seq<Triangle>
    decreases |fs|
  {
    if fs == [] then [] else FaceTriangles(fs[..|fs| - 1]) + fs[|fs| - 1].ftOriginal
  }

  /** The boundary lists its edges in the order of their first use. */
  lemma BoundaryOrder(ts: seq<Triangle>, i: nat, j: nat)
    requires i < j < |Boundary(ts)|
    ensures IndexOf(EdgeUses(ts), Boundary(ts)[i]) < IndexOf(EdgeUses(ts), Boundary(ts)[j])
  {
    var uses := EdgeUses(ts);
    var d := Dedup(uses);
    var b := Boundary(ts);
    KeepOnceOrder(d, uses, i, j);
    var a, c := IndexOf(d, b[i]), IndexOf(d, b[j]);
    DedupOrder(uses, a, c);
  }

  /** Slot 3i + k of the corner list is corner k of triangle i. */
  lemma {:induction false} CornersAt(ts: seq<Triangle>, i: nat, k: nat)
    requires i < |ts| && k < 3
    ensures Corners(ts)[3 * i + k] == Corner(ts[i], k)
    decreases |ts|
  {
    var n := |ts| - 1;
    if i < n {
      assert ts[..n][i] == ts[i];
      CornersAt(ts[..n], i, k);
    }
  }

  /** Slot 6i + k of the index buffer: the position of corner k of triangle i
      in vs for k < 3, and 0 for the three padding slots. */
  lemma {:induction false} LocalIndicesAt(vs: seq<Vertex>, ts: seq<Triangle>, i: nat, k: nat)
    requires i < |ts| && k < 6
    ensures LocalIndices(vs, ts)[6 * i + k] == if k < 3 then IndexOf(vs, Corner(ts[i], k)) else 0
    decreases |ts|
  {
    var n := |ts| - 1;
    if i < n {
      assert ts[..n][i] == ts[i];
      LocalIndicesAt(vs, ts[..n], i, k);
    }
  }

  /** Every triangle of a face of fs is among the triangles of fs. */
  lemma {:induction false} FaceTrianglesHas(fs: seq<Face>, f: Face, t: Triangle)
    requires f in fs && t in f.ftOriginal
    ensures t in FaceTriangles(fs)
    decreases |fs|
  {
    var n := |fs| - 1;
    if fs[n] != f {
      assert f in fs[..n] by {
        assert fs == fs[..n] + [fs[n]];
      }
      FaceTrianglesHas(fs[..n], f, t);
    }
  }

  /** The local vertex lists of fs, concatenated. */
  function FaceVertices(fs: seq<Face>): seq<Vertex>
    decreases |fs|
  {
    if fs == [] then [] else FaceVertices(fs[..|fs| - 1]) + fs[|fs| - 1].fVertices
  }

  /** The boundary-edge lists of fs, concatenated. */
  function FaceEdges(fs: seq<Face>): seq<Edge>
    decreases |fs|
  {
    if fs == [] then [] else FaceEdges(fs[..|fs| - 1]) + fs[|fs| - 1].fEdges
  }
  /** A vertex is in the concatenated local lists exactly when some face
      lists it. */
  lemma {:induction false} FaceVerticesHas(fs: seq<Face>, v: Vertex)
    ensures v in FaceVertices(fs) <==> exists k :: 0 <= k < |fs| && v in fs[k].fVertices
    decreases |fs|
  {
    if fs != [] {
      var n := |fs| - 1;
      FaceVerticesHas(fs[..n], v);
      assert forall k :: 0 <= k < n ==> fs[..n][k] == fs[k];
    }
  }

  /** An edge is in the concatenated boundary lists exactly when some face
      lists it. */
  lemma {:induction false} FaceEdgesHas(fs: seq<Face>, e: Edge)
    ensures e in FaceEdges(fs) <==> exists k :: 0 <= k < |fs| && e in fs[k].fEdges
    decreases |fs|
  {
    if fs != [] {
      var n := |fs| - 1;
      FaceEdgesHas(fs[..n], e);
      assert forall k :: 0 <= k < n ==> fs[..n][k] == fs[k];
    }
  }

  /** Faces of n triangles each hold n triangles per face between them. */
  lemma {:induction false} FaceTrianglesCount(fs: seq<Face>, n: nat)
    requires forall k :: 0 <= k < |fs| ==> |fs[k].ftOriginal| == n
    ensures |FaceTriangles(fs)| == n * |fs|
    decreases |fs|
  {
    if fs != [] {
      var m := |fs| - 1;
      assert forall k :: 0 <= k < m ==> fs[..m][k] == fs[k];
      FaceTrianglesCount(fs[..m], n);
      assert |FaceTriangles(fs)| == |FaceTriangles(fs[..m])| + n;
      assert n * |fs| == n * m + n;
    }
  }


  /** The `IndexOf` / `Add` / `count[i] += 1` bookkeeping of a face: seen lists
      the distinct edges of uses in first-use order and counts[k] says how
      often seen[k] occurs in uses. */
  ghost predicate Tally(seen: seq<Edge>, counts: seq<int>, uses: seq<Edge>) {
    && seen == Dedup(uses)
    && |counts| == |seen|
    && forall k :: 0 <= k < |seen| ==> counts[k] == multiset(uses)[seen[k]]
  }

  /** One tally step of `VrbFace.calSelf` for the edge reference e. */
  method TallyEdge(seen: seq<Edge>, counts: seq<int>, ghost uses: seq<Edge>, e: Edge)
      returns (seen': seq<Edge>, counts': seq<int>)
    requires Tally(seen, counts, uses)
    ensures Tally(seen', counts', uses + [e])
  {
    DedupSnoc(uses, e);
    var k := IndexOf(seen, e);
    if k == -1 {
      seen' := seen + [e];
      counts' := counts + [1];
      assert multiset(uses)[e] == 0;
    } else {
      seen' := seen;
      counts' := counts[k := counts[k] + 1];
      forall m | 0 <= m < |seen| && m != k ensures seen[m] != e {
        assert Distinct(seen);
      }
    }
  }

  /** ps lists the positions of vs, one for one. */
  ghost predicate Parallel(vs: seq<Vertex>, ps: seq<Vec3>)
  {
    |ps| == |vs| && forall k :: 0 <= k < |vs| ==> ps[k] == vs[k].pos
  }

  /** One `if (fVertices.IndexOf(v) == -1)` step of `VrbFace.calSelf`. */
  method AddCorner(vs: seq<Vertex>, ps: seq<Vec3>, ghost seen: seq<Vertex>, v: Vertex)
      returns (vs': seq<Vertex>, ps': seq<Vec3>)
    requires vs == Dedup(seen) && Parallel(vs, ps)
    ensures vs' == Dedup(seen + [v]) && Parallel(vs', ps')
  {
    DedupSnoc(seen, v);
    vs', ps' := vs, ps;
    if IndexOf(vs, v) == -1 {
      vs', ps' := vs + [v], ps + [v.pos];
    }
  }

  /** The first loop of `VrbFace.calSelf`: the distinct corners of ts in
      first-use order, with their positions alongside. */
  method CollectCorners(ts: seq<Triangle>) returns (vs: seq<Vertex>, ps: seq<Vec3>)
    ensures vs == Dedup(Corners(ts))
    ensures Parallel(vs, ps)
  {
    vs, ps := [], [];
    for i := 0 to |ts|
      invariant vs == Dedup(Corners(ts[..i])) && Parallel(vs, ps)
    {
      var t := ts[i];
      ghost var before := Corners(ts[..i]);
      assert ts[..i + 1][..i] == ts[..i];
      assert Corners(ts[..i + 1]) == before + [t.v0] + [t.v1] + [t.v2];
      vs, ps := AddCorner(vs, ps, before, t.v0);
      vs, ps := AddCorner(vs, ps, before + [t.v0], t.v1);
      vs, ps := AddCorner(vs, ps, before + [t.v0] + [t.v1], t.v2);
    }
    assert ts[..|ts|] == ts;
  }

  /** The three tally steps of `VrbFace.calSelf` for one triangle. */
  method TallyTriangle(seen: seq<Edge>, counts: seq<int>, ghost uses: seq<Edge>, t: Triangle)
      returns (seen': seq<Edge>, counts': seq<int>)
    requires Tally(seen, counts, uses)
    ensures Tally(seen', counts', uses + [t.e0, t.e1, t.e2])
  {
    seen', counts' := TallyEdge(seen, counts, uses, t.e0);
    seen', counts' := TallyEdge(seen', counts', uses + [t.e0], t.e1);
    seen', counts' := TallyEdge(seen', counts', uses + [t.e0] + [t.e1], t.e2);
    assert uses + [t.e0] + [t.e1] + [t.e2] == uses + [t.e0, t.e1, t.e2];
  }

  /** The three `temp[6 * i + k] = fVertices.IndexOf(...)` writes of
      `VrbFace.calSelf` for triangle i. */
  method WriteCorners(temp: array<int>, vs: seq<Vertex>, ts: seq<Triangle>, i: nat)
    modifies temp
    requires i < |ts| && temp.Length == 6 * |ts|
    requires forall j :: 0 <= j < 6 * i ==> temp[j] == LocalIndices(vs, ts[..i])[j]
    requires forall j :: 6 * i <= j < temp.Length ==> temp[j] == 0
    ensures forall j :: 0 <= j < 6 * (i + 1) ==> temp[j] == LocalIndices(vs, ts[..i + 1])[j]
    ensures forall j :: 6 * (i + 1) <= j < temp.Length ==> temp[j] == 0
  {
    var t := ts[i];
    temp[6 * i] := IndexOf(vs, t.v0);
    temp[6 * i + 1] := IndexOf(vs, t.v1);
    temp[6 * i + 2] := IndexOf(vs, t.v2);
    assert ts[..i + 1][..i] == ts[..i];
  }

  /** The second loop of `VrbFace.calSelf`: fills the zero-initialised
      `temp` array of 6 slots per triangle while tallying the edge uses. */
  method FillAndTally(temp: array<int>, vs: seq<Vertex>, ts: seq<Triangle>)
      returns (seen: seq<Edge>, counts: seq<int>)
    modifies temp
    requires temp.Length == 6 * |ts|
    requires forall j :: 0 <= j < temp.Length ==> temp[j] == 0
    ensures forall j :: 0 <= j < temp.Length ==> temp[j] == LocalIndices(vs, ts)[j]
    ensures Tally(seen, counts, EdgeUses(ts))
  {
    seen, counts := [], [];
    for i := 0 to |ts|
      invariant forall j :: 0 <= j < 6 * i ==> temp[j] == LocalIndices(vs, ts[..i])[j]
      invariant forall j :: 6 * i <= j < temp.Length ==> temp[j] == 0
      invariant Tally(seen, counts, EdgeUses(ts[..i]))
    {
      WriteCorners(temp, vs, ts, i);
      var t := ts[i];
      assert ts[..i + 1][..i] == ts[..i];
      seen, counts := TallyTriangle(seen, counts, EdgeUses(ts[..i]), t);
      assert EdgeUses(ts[..i + 1]) == EdgeUses(ts[..i]) + [t.e0, t.e1, t.e2];
    }
    assert ts[..|ts|] == ts;
  }

  /** The second and third loops of `VrbFace.calSelf`: the index buffer and
      the edges used once. */
  method IndexAndBoundary(vs: seq<Vertex>, ts: seq<Triangle>)
      returns (buf: seq<int>, es: seq<Edge>)
    ensures buf == LocalIndices(vs, ts)
    ensures es == Boundary(ts)
  {
    var temp := new int[|ts| * 6](_ => 0);
    var seen, counts := FillAndTally(temp, vs, ts);
    buf := temp[..];
    es := UsedOnce(seen, counts, EdgeUses(ts));
  }

  /** The last loop of `VrbFace.calSelf`: the tallied edges whose count is 1. */
  method UsedOnce(seen: seq<Edge>, counts: seq<int>, ghost uses: seq<Edge>) returns (es: seq<Edge>)
    requires Tally(seen, counts, uses)
    ensures es == KeepOnce(Dedup(uses), uses)
  {
    es := [];
    for i := 0 to |seen|
      invariant es == KeepOnce(seen[..i], uses)
    {
      assert seen[..i + 1][..i] == seen[..i];
      if counts[i] == 1 {
        es := es + [seen[i]];
      }
    }
    assert seen[..|seen|] == seen;
  }

  /** What `VrbFace.calSelf` derives from the triangles ts: the distinct
      corners in first-use order with their positions alongside, the six-slot
      index buffer and the boundary edges. */
  ghost predicate FaceDerived(ts: seq<Triangle>, vs: seq<Vertex>, ps: seq<Vec3>, buf: seq<int>, es: seq<Edge>) {
    && vs == Dedup(Corners(ts)) && Parallel(vs, ps)
    && buf == LocalIndices(vs, ts) && es == Boundary(ts)
  }

  /** The body of `VrbFace.calSelf`: its first loop, then the second and
      third, on the triangles ts. */
  method DeriveFace(ts: seq<Triangle>) returns (vs: seq<Vertex>, ps: seq<Vec3>, buf: seq<int>, es: seq<Edge>)
    ensures FaceDerived(ts, vs, ps, buf, es)
  {
    vs, ps := CollectCorners(ts);
    buf, es := IndexAndBoundary(vs, ts);
  }

  class Face {
    const index: int
    const ftOriginal: seq<Triangle>
    const fVertices: seq<Vertex>
    const fVectors: seq<Vec3>
    const fEdges: seq<Edge>
    const fTriangles: seq<int>
    var constructed: bool
    var displayed: bool

    /** Every derived list agrees with ftOriginal. */
    ghost predicate Computed() {
      FaceDerived(ftOriginal, fVertices, fVectors, fTriangles, fEdges)
    }

    /** `new VrbFace(t)`, whose last step is `calSelf`: the first loop
        rebuilds the local vertex list and positions, the second and third
        the six-slot index buffer and the boundary edges. */
    constructor (index: int, t: seq<Triangle>)
      ensures this.index == index && ftOriginal == t
      ensures !constructed && !displayed
      ensures Computed()
    {
      var vs, ps, buf, es := DeriveFace(t);
      this.index := index;
      ftOriginal := t;
      fVertices, fVectors, fTriangles, fEdges := vs, ps, buf, es;
      constructed, displayed := false, false;
    }

    method DisplayModel()
      modifies this`constructed, this`displayed
      ensures constructed && displayed
    {
      if !constructed {
        constructed := true;
      }
      displayed := true;
    }

    method HideModel()
      modifies this`displayed
      ensures !displayed
    {
      displayed := false;
    }
  }

  /** The local vertex list, position list and index buffer of a computed
      face fit together: six slots per triangle, the first three pointing at
      the triangle's corners in fVertices, the other three left at 0. */
  lemma FaceIndexBuffer(f: Face, i: nat, k: nat)
    requires f.Computed() && i < |f.ftOriginal| && k < 3
    ensures |f.fTriangles| == 6 * |f.ftOriginal| && |f.fVectors| == |f.fVertices|
    ensures 0 <= f.fTriangles[6 * i + k] < |f.fVertices|
    ensures f.fVertices[f.fTriangles[6 * i + k]] == Corner(f.ftOriginal[i], k)
    ensures f.fVectors[f.fTriangles[6 * i + k]] == Corner(f.ftOriginal[i], k).pos
    ensures f.fTriangles[6 * i + 3 + k] == 0
  {
    var ts, vs := f.ftOriginal, f.fVertices;
    var c := Corner(ts[i], k);
    assert 6 * i + 6 <= 6 * |ts|;
    assert c in vs by {
      CornersAt(ts, i, k);
      assert c in Corners(ts);
    }
    assert f.fTriangles[6 * i + k] == IndexOf(vs, c) by {
      LocalIndicesAt(vs, ts, i, k);
    }
    assert f.fTriangles[6 * i + 3 + k] == 0 by {
      LocalIndicesAt(vs, ts, i, 3 + k);
    }
  }

  /** The derived lists are a function of the triangles: running the
      derivation again on the same triangles gives the same lists. */
  lemma FaceDerivedUnique(ts: seq<Triangle>, vs: seq<Vertex>, ps: seq<Vec3>, buf: seq<int>, es: seq<Edge>,
                          vs': seq<Vertex>, ps': seq<Vec3>, buf': seq<int>, es': seq<Edge>)
    requires FaceDerived(ts, vs, ps, buf, es) && FaceDerived(ts, vs', ps', buf', es')
    ensures vs' == vs && ps' == ps && buf' == buf && es' == es
  {
    assert forall k :: 0 <= k < |ps| ==> ps[k] == ps'[k];
  }

  /** Each slot of ts holds its own position: the unwelded index buffer. */
  predicate SelfIndexed(ts: seq<int>) {
    forall k :: 0 <= k < |ts| ==> ts[k] == k
  }

  /** The inner triangle loop of `VrbObject.calSelf`: one position and one
      index per corner of ts, the index being the position's own slot. */
  method AppendCorners(vectors: seq<Vec3>, triangles: seq<int>, ghost done: seq<Triangle>, ts: seq<Triangle>)
      returns (vectors': seq<Vec3>, triangles': seq<int>)
    requires Parallel(Corners(done), vectors) && |triangles| == |vectors| && SelfIndexed(triangles)
    ensures Parallel(Corners(done + ts), vectors') && |triangles'| == |vectors'| && SelfIndexed(triangles')
  {
    vectors', triangles' := vectors, triangles;
    assert done + ts[..0] == done;
    for j := 0 to |ts|
      invariant Parallel(Corners(done + ts[..j]), vectors')
      invariant |triangles'| == |vectors'| && SelfIndexed(triangles')
    {
      var t := ts[j];
      assert (done + ts[..j + 1])[..|done| + j] == done + ts[..j];
      assert Corners(done + ts[..j + 1]) == Corners(done + ts[..j]) + [t.v0, t.v1, t.v2];
      vectors' := vectors' + [t.v0.pos];
      triangles' := triangles' + [|vectors'| - 1];
      vectors' := vectors' + [t.v1.pos];
      triangles' := triangles' + [|vectors'| - 1];
      vectors' := vectors' + [t.v2.pos];
      triangles' := triangles' + [|vectors'| - 1];
    }
    assert ts[..|ts|] == ts;
  }

  /** The buffers of `VrbObject.calSelf` once the faces fs are done. */
  ghost predicate ObjBuffers(tris: seq<Triangle>, boundaries: seq<Edge>, ps: seq<Vec3>, ts: seq<int>, es: seq<Edge>) {
    && Parallel(Corners(tris), ps)
    && |ts| == |ps| && SelfIndexed(ts)
    && es == Dedup(boundaries)
  }

  /** One pass of the second loop of `VrbObject.calSelf`, for face f. */
  method AddFaceBuffers(ps: seq<Vec3>, ts: seq<int>, es: seq<Edge>, ghost done: seq<Face>, f: Face)
      returns (ps': seq<Vec3>, ts': seq<int>, es': seq<Edge>)
    requires ObjBuffers(FaceTriangles(done), FaceEdges(done), ps, ts, es)
    ensures ObjBuffers(FaceTriangles(done + [f]), FaceEdges(done + [f]), ps', ts', es')
  {
    assert (done + [f])[..|done|] == done;
    ps', ts' := AppendCorners(ps, ts, FaceTriangles(done), f.ftOriginal);
    es' := AppendNew(es, FaceEdges(done), f.fEdges);
  }

  /** The loop over the faces fs in the second half of `VrbObject.calSelf`. */
  method FaceBuffers(fs: seq<Face>) returns (ps: seq<Vec3>, ts: seq<int>, es: seq<Edge>)
    ensures ObjBuffers(FaceTriangles(fs), FaceEdges(fs), ps, ts, es)
  {
    ps, ts, es := [], [], [];
    for i := 0 to |fs|
      invariant ObjBuffers(FaceTriangles(fs[..i]), FaceEdges(fs[..i]), ps, ts, es)
    {
      assert fs[..i + 1][..i] == fs[..i];
      ps, ts, es := AddFaceBuffers(ps, ts, es, fs[..i], fs[i]);
    }
    assert fs[..|fs|] == fs;
  }

  class Obj {
    const index: int
    const name: string
    var position: Vec3
    var faces: seq<Face>
    var vertices: seq<Vertex>
    var edges: seq<Edge>
    var vectors: seq<Vec3>
    var triangles: seq<int>
    var constructed: bool
    var displayed: bool

    /** The vertex list is the distinct vertices of the faces, in order. */
    ghost predicate VerticesComputed()
      reads this`faces, this`vertices
    {
      vertices == Dedup(FaceVertices(faces))
    }

    /** One position and one index per triangle corner (no welding), and the
        distinct boundary edges of the faces, in order. */
    ghost predicate BuffersComputed()
      reads this`faces, this`edges, this`vectors, this`triangles
    {
      ObjBuffers(FaceTriangles(faces), FaceEdges(faces), vectors, triangles, edges)
    }

    /** Every derived list agrees with the faces. */
    ghost predicate Computed()
      reads this`faces, this`vertices, this`edges, this`vectors, this`triangles
    {
      VerticesComputed() && BuffersComputed()
    }

    constructor (index: int, name: string, position: Vec3, faces: seq<Face>)
      ensures this.index == index && this.name == name && this.position == position
      ensures this.faces == faces
      ensures !constructed && !displayed
      ensures Computed()
    {
      this.index, this.name, this.position, this.faces := index, name, position, faces;
      vertices, edges, vectors, triangles := [], [], [], [];
      constructed, displayed := false, false;
      new;
      CalSelf();
    }

    /** `VrbObject.calSelf`. */
    method CalSelf()
      modifies this`vertices, this`edges, this`vectors, this`triangles
      ensures Computed()
    {
      CalVertices();
      CalBuffers();
    }

    /** The first loop of `VrbObject.calSelf`. */
    method CalVertices()
      modifies this`vertices
      ensures VerticesComputed()
    {
      var vs: seq<Vertex> := [];
      for i := 0 to |faces|
        invariant vs == Dedup(FaceVertices(faces[..i]))
      {
        assert faces[..i + 1][..i] == faces[..i];
        vs := AppendNew(vs, FaceVertices(faces[..i]), faces[i].fVertices);
      }
      assert faces[..|faces|] == faces;
      vertices := vs;
    }

    /** The second loop of `VrbObject.calSelf`. */
    method CalBuffers()
      modifies this`edges, this`vectors, this`triangles
      ensures BuffersComputed()
    {
      vectors, triangles, edges := FaceBuffers(faces);
    }

    method DisplayModel()
      modifies this`constructed, this`displayed
      ensures constructed && displayed
    {
      if !constructed {
        constructed := true;
      }
      displayed := true;
    }

    method HideModel()
      modifies this`displayed
      ensures !displayed
    {
      displayed := false;
    }
  }

  /** The face loop of `VrbObject.enterEdit`. */
  method DisplayFaces(fs: seq<Face>)
    modifies (set f | f in fs)`constructed, (set f | f in fs)`displayed
    ensures forall f :: f in fs ==> f.constructed && f.displayed
  {
    for i := 0 to |fs|
      invariant forall k :: 0 <= k < i ==> fs[k].constructed && fs[k].displayed
    {
      fs[i].DisplayModel();
    }
  }

  /** The vertex loop of `VrbObject.enterEdit`. */
  method DisplayVertices(vs: seq<Vertex>)
    modifies (set v | v in vs)`constructed, (set v | v in vs)`displayed
    ensures forall v :: v in vs ==> v.constructed && v.displayed
  {
    for i := 0 to |vs|
      invariant forall k :: 0 <= k < i ==> vs[k].constructed && vs[k].displayed
    {
      vs[i].DisplayModel();
    }
  }

  /** The edge loop of `VrbObject.enterEdit`. */
  method DisplayEdges(es: seq<Edge>)
    modifies (set e | e in es)`constructed, (set e | e in es)`displayed
    ensures forall e :: e in es ==> e.constructed && e.displayed
  {
    for i := 0 to |es|
      invariant forall k :: 0 <= k < i ==> es[k].constructed && es[k].displayed
    {
      es[i].DisplayModel();
    }
  }

  /** The face loop of `VrbObject.exitEdit`. */
  method HideFaces(fs: seq<Face>)
    modifies (set f | f in fs)`displayed
    ensures forall f :: f in fs ==> !f.displayed
  {
    for i := 0 to |fs|
      invariant forall k :: 0 <= k < i ==> !fs[k].displayed
    {
      fs[i].HideModel();
    }
  }

  /** The vertex loop of `VrbObject.exitEdit`. */
  method HideVertices(vs: seq<Vertex>)
    modifies (set v | v in vs)`displayed
    ensures forall v :: v in vs ==> !v.displayed
  {
    for i := 0 to |vs|
      invariant forall k :: 0 <= k < i ==> !vs[k].displayed
    {
      vs[i].HideModel();
    }
  }

  /** The edge loop of `VrbObject.exitEdit`. */
  method HideEdges(es: seq<Edge>)
    modifies (set e | e in es)`displayed
    ensures forall e :: e in es ==> !e.displayed
  {
    for i := 0 to |es|
      invariant forall k :: 0 <= k < i ==> !es[k].displayed
    {
      es[i].HideModel();
    }
  }

  /** The loop of `VrbObject.hideAll`. */
  method HideObjects(xs: seq<Obj>)
    modifies (set x | x in xs)`displayed
    ensures forall x :: x in xs ==> !x.displayed
  {
    for i := 0 to |xs|
      invariant forall k :: 0 <= k < i ==> !xs[k].displayed
    {
      xs[i].HideModel();
    }
  }

  /** The loop of `VrbObject.displayAll`. */
  method DisplayObjects(xs: seq<Obj>)
    modifies (set x | x in xs)`constructed, (set x | x in xs)`displayed
    ensures forall x :: x in xs ==> x.constructed && x.displayed
  {
    for i := 0 to |xs|
      invariant forall k :: 0 <= k < i ==> xs[k].constructed && xs[k].displayed
    {
      xs[i].DisplayModel();
    }
  }

  /** The hiding loops of `VrbObject.exitEdit`. */
  method HideParts(o: Obj)
    modifies (set f | f in o.faces)`displayed
    modifies (set v | v in o.vertices)`displayed
    modifies (set e | e in o.edges)`displayed
    ensures forall f :: f in o.faces ==> !f.displayed
    ensures forall v :: v in o.vertices ==> !v.displayed
    ensures forall e :: e in o.edges ==> !e.displayed
  {
    HideFaces(o.faces);
    HideVertices(o.vertices);
    HideEdges(o.edges);
  }

  /** The end of `VrbObject.exitEdit` for the editing object o: drops its
      built visual, recomputes it and shows it again. */
  method Refresh(o: Obj)
    modifies o`vertices, o`edges, o`vectors, o`triangles, o`constructed, o`displayed
    ensures o.Computed() && o.constructed && o.displayed
  {
    o.constructed := false;
    o.CalSelf();
    o.DisplayModel();
  }

  /** The tail of `VrbObject.exitEdit`: refreshes o, then shows every object
      of xs (`displayAll`). */
  method Finish(o: Obj, xs: seq<Obj>)
    modifies o`vertices, o`edges, o`vectors, o`triangles, o`constructed, o`displayed
    modifies (set x | x in xs)`constructed, (set x | x in xs)`displayed
    ensures o.Computed() && o.constructed && o.displayed
    ensures forall x :: x in xs ==> x.constructed && x.displayed
  {
    Refresh(o);
    DisplayObjects(xs);
  }

  /** The static registries and the single editing slot. */
  class Scene {
    var vertexAll: seq<Vertex>
    var edgeAll: seq<Edge>
    var triangleAll: seq<Triangle>
    var faceAll: seq<Face>
    var objectAll: seq<Obj>
    var editing: Obj?

    constructor ()
      ensures vertexAll == [] && edgeAll == [] && triangleAll == []
      ensures faceAll == [] && objectAll == [] && editing == null
    {
      vertexAll, edgeAll, triangleAll, faceAll, objectAll := [], [], [], [], [];
      editing := null;
    }

    /** The editing object, as a frame. */
    ghost function Editing(): set<Obj>
      reads this
    {
      if editing == null then {} else {editing}
    }

    /** `new VrbVertex(x, y, z)`: `addToStatic` gives it the current count as
        index, then appends it. */
    method NewVertex(p: Vec3) returns (v: Vertex)
      modifies this`vertexAll
      ensures fresh(v) && v.index == |old(vertexAll)| && v.pos == p
      ensures !v.constructed && !v.displayed
      ensures vertexAll == old(vertexAll) + [v]
    {
      v := new Vertex(|vertexAll|, p);
      vertexAll := vertexAll + [v];
    }

    /** `VrbEdge.addEdge`: the registered edge joining a and b if there is one,
        otherwise a new edge, registered with the current count as index. */
    method AddEdge(a: Vertex, b: Vertex) returns (e: Edge)
      modifies this`edgeAll
      ensures AddedEdge(old(edgeAll), edgeAll, a, b, e)
      ensures FindEdge(old(edgeAll), a, b).None? ==>
                && fresh(e) && e.index == |old(edgeAll)| && e.v0 == a && e.v1 == b
                && !e.constructed && !e.displayed
    {
      var found := FindEdge(edgeAll, a, b);
      if found.None? {
        e := new Edge(|edgeAll|, a, b);
        FindEdgeAppend(edgeAll, e, a, b);
        edgeAll := edgeAll + [e];
      } else {
        e := found.value;
      }
    }

    /** `new VrbTriangle(v0, v1, v2)`: registers the triangle, then resolves
        e0 = (v0, v1), e1 = (v1, v2) and e2 = (v0, v2) through `addEdge`. */
    method NewTriangle(a: Vertex, b: Vertex, c: Vertex) returns (t: Triangle)
      modifies this`triangleAll, this`edgeAll
      ensures fresh(t) && t.index == |old(triangleAll)| && triangleAll == old(triangleAll) + [t]
      ensures t.v0 == a && t.v1 == b && t.v2 == c
      ensures FindEdge(edgeAll, a, b) == Some(t.e0)
      ensures FindEdge(edgeAll, b, c) == Some(t.e1)
      ensures FindEdge(edgeAll, a, c) == Some(t.e2)
      ensures forall x, y :: FindEdge(edgeAll, x, y)
                == if FindEdge(old(edgeAll), x, y).Some? then FindEdge(old(edgeAll), x, y)
                   else if Joins(t.e0, x, y) then Some(t.e0)
                   else if Joins(t.e1, x, y) then Some(t.e1)
                   else if Joins(t.e2, x, y) then Some(t.e2) else None
      ensures |edgeAll| == |old(edgeAll)| + Unjoined(old(edgeAll), a, b, c, t.e0, t.e1)
      ensures old(edgeAll) <= edgeAll
      ensures forall k :: |old(edgeAll)| <= k < |edgeAll| ==>
                fresh(edgeAll[k]) && edgeAll[k].index == k && !edgeAll[k].constructed && !edgeAll[k].displayed
    {
      var index := |triangleAll|;
      ghost var es0 := edgeAll;
      var e0 := AddEdge(a, b);
      ghost var es1 := edgeAll;
      var e1 := AddEdge(b, c);
      ghost var es2 := edgeAll;
      var e2 := AddEdge(a, c);
      t := new Triangle(index, a, b, c, e0, e1, e2);
      triangleAll := triangleAll + [t];
      TriangleLookups(es0, es1, es2, edgeAll, a, b, c, t.e0, t.e1, t.e2);
      TriangleGrowth(es0, es1, es2, edgeAll, a, b, c, t.e0, t.e1, t.e2);
      TriangleKeepsPairs(es0, es1, es2, edgeAll, a, b, c, t.e0, t.e1, t.e2);
    }

    /** `new VrbFace(list)`: registers the face, then computes its buffers. */
    method NewFace(ts: seq<Triangle>) returns (f: Face)
      modifies this`faceAll
      ensures fresh(f) && f.index == |old(faceAll)| && f.ftOriginal == ts
      ensures faceAll == old(faceAll) + [f]
      ensures !f.constructed && !f.displayed && f.Computed()
    {
      f := new Face(|faceAll|, ts);
      faceAll := faceAll + [f];
    }

    /** `new VrbObject(x, y, z, faces, name)`: registers the object, then
        computes its buffers. */
    method NewObject(p: Vec3, fs: seq<Face>, name: string) returns (o: Obj)
      modifies this`objectAll
      ensures fresh(o) && o.index == |old(objectAll)| && o.faces == fs
      ensures o.name == name && o.position == p
      ensures objectAll == old(objectAll) + [o]
      ensures !o.constructed && !o.displayed && o.Computed()
    {
      o := new Obj(|objectAll|, name, p, fs);
      objectAll := objectAll + [o];
    }

    /** `VrbObject.hideAll`. */
    method HideAll()
      modifies (set x | x in objectAll)`displayed
      ensures forall x :: x in objectAll ==> !x.displayed
    {
      HideObjects(objectAll);
    }

    /** `VrbObject.displayAll`. */
    method DisplayAll()
      modifies (set x | x in objectAll)`constructed, (set x | x in objectAll)`displayed
      ensures forall x :: x in objectAll ==> x.constructed && x.displayed
    {
      DisplayObjects(objectAll);
    }

    /** `VrbObject.enterEdit`: hides every registered object, shows the faces,
        vertices and edges of o, and makes o the editing object (whatever was
        there before). */
    method EnterEdit(o: Obj)
      modifies this`editing
      modifies (set x | x in objectAll)`displayed
      modifies (set f | f in o.faces)`constructed, (set f | f in o.faces)`displayed
      modifies (set v | v in o.vertices)`constructed, (set v | v in o.vertices)`displayed
      modifies (set e | e in o.edges)`constructed, (set e | e in o.edges)`displayed
      ensures editing == o
      ensures forall x :: x in objectAll ==> !x.displayed
      ensures forall f :: f in o.faces ==> f.constructed && f.displayed
      ensures forall v :: v in o.vertices ==> v.constructed && v.displayed
      ensures forall e :: e in o.edges ==> e.constructed && e.displayed
    {
      HideAll();
      DisplayFaces(o.faces);
      DisplayVertices(o.vertices);
      DisplayEdges(o.edges);
      editing := o;
    }

    /** `VrbObject.exitEdit`: with an editing object, hides its faces, vertices
        and edges (the lists as they were on entry), recomputes it, shows every
        registered object and the editing object itself, and empties the slot.
        Without one it does nothing. */
    method ExitEdit()
      modifies this`editing
      modifies Editing()`vertices, Editing()`edges, Editing()`vectors, Editing()`triangles
      modifies Editing()`constructed, Editing()`displayed
      modifies (set f | editing != null && f in editing.faces)`displayed
      modifies (set v | editing != null && v in editing.vertices)`displayed
      modifies (set e | editing != null && e in editing.edges)`displayed
      modifies (set x | editing != null && x in objectAll)`constructed
      modifies (set x | editing != null && x in objectAll)`displayed
      ensures editing == null
      ensures old(editing) != null ==>
                && (forall f :: f in old(editing.faces) ==> !f.displayed)
                && (forall v :: v in old(editing.vertices) ==> !v.displayed)
                && (forall e :: e in old(editing.edges) ==> !e.displayed)
                && old(editing).Computed()
                && old(editing).constructed && old(editing).displayed
                && (forall x :: x in objectAll ==> x.constructed && x.displayed)
    {
      var o := editing;
      if o != null {
        HideParts(o);
        Finish(o, objectAll);
        editing := null;
      }
    }
  }
}
