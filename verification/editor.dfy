/**
  The cascading deletes of the mesh editor (`VrbModel.deleteVertex`,
  `deleteEdge`, `deleteFace`, `deleteObject`).

  Each delete is a method over the `Scene` that changes the registries in
  place, as the source does, and is proved equal to a function of the
  registries as values (`AfterDeleteVertex` and its siblings). The lemmas
  below state what those functions guarantee, including the places where the
  source does less than its comments suggest: the forward `RemoveAt` loop
  skips the face after a removed one, `deleteVertex` leaves the vertex itself
  registered, and `deleteEdge` unregisters the edge only through an
  endpoint's cascade.
 */
module Editor {
  import opened Lists
  import opened Topology

  /** The registries as values: the editing object's face list (empty when
      there is no editing object), then the five static lists. */
  datatype Registries = Registries(edit: seq<Face>, vertices: seq<Vertex>, edges: seq<Edge>,
                                   triangles: seq<Triangle>, faces: seq<Face>, objects: seq<Obj>)

  ghost function Snapshot(sc: Scene): Registries
    reads sc, sc.editing
  {
    Registries(if sc.editing == null then [] else sc.editing.faces,
               sc.vertexAll, sc.edgeAll, sc.triangleAll, sc.faceAll, sc.objectAll)
  }

  /** The faces of fs whose local vertex list holds v, in order. */
  ghost function FacesWithVertex(fs: seq<Face>, v: Vertex): (r: seq<Face>)
    ensures |r| <= |fs|
    decreases |fs|
  {
    if fs == [] then []
    else
      var n := |fs| - 1;
      FacesWithVertex(fs[..n], v) + (if v in fs[n].fVertices then [fs[n]] else [])
  }

  /** The faces of fs whose boundary holds e, in order. */
  ghost function FacesWithEdge(fs: seq<Face>, e: Edge): (r: seq<Face>)
    ensures |r| <= |fs|
    decreases |fs|
  {
    if fs == [] then []
    else
      var n := |fs| - 1;
      FacesWithEdge(fs[..n], e) + (if e in fs[n].fEdges then [fs[n]] else [])
  }

  /** Exactly the faces of fs that hold v are collected. */
  lemma {:induction false} FacesWithVertexExactly(fs: seq<Face>, v: Vertex, f: Face)
    ensures f in FacesWithVertex(fs, v) <==> f in fs && v in f.fVertices
    decreases |fs|
  {
    if fs != [] {
      var n := |fs| - 1;
      assert fs == fs[..n] + [fs[n]];
      FacesWithVertexExactly(fs[..n], v, f);
    }
  }

  /** Exactly the faces of fs whose boundary holds e are collected. */
  lemma {:induction false} FacesWithEdgeExactly(fs: seq<Face>, e: Edge, f: Face)
    ensures f in FacesWithEdge(fs, e) <==> f in fs && e in f.fEdges
    decreases |fs|
  {
    if fs != [] {
      var n := |fs| - 1;
      assert fs == fs[..n] + [fs[n]];
      FacesWithEdgeExactly(fs[..n], e, f);
    }
  }

  lemma FacesWithVertexPrefix(fs: seq<Face>, v: Vertex, i: nat)
    requires i < |fs|
    ensures FacesWithVertex(fs[..i + 1], v)
         == FacesWithVertex(fs[..i], v) + (if v in fs[i].fVertices then [fs[i]] else [])
  {
    assert fs[..i + 1][..i] == fs[..i];
  }

  lemma FacesWithEdgePrefix(fs: seq<Face>, e: Edge, i: nat)
    requires i < |fs|
    ensures FacesWithEdge(fs[..i + 1], e)
         == FacesWithEdge(fs[..i], e) + (if e in fs[i].fEdges then [fs[i]] else [])
  {
    assert fs[..i + 1][..i] == fs[..i];
  }

  /** The two face loops shared by `deleteVertex` and `deleteEdge`: every
      doomed face leaves the editing object's list (first occurrence), the
      forward `RemoveAt` loop sweeps the face registry, and each face it does
      remove takes its triangles out of the triangle registry. */
  function DropFaces(r: Registries, doomed: seq<Face>): (r': Registries)
    ensures r'.vertices == r.vertices && r'.edges == r.edges && r'.objects == r.objects
    ensures |r'.faces| <= |r.faces| && |r'.triangles| <= |r.triangles|
    ensures |r'.edit| <= |r.edit|
  {
    r.(edit := RemoveEach(r.edit, doomed),
       faces := Sweep(r.faces, doomed),
       triangles := RemoveEach(r.triangles, FaceTriangles(SweptOut(r.faces, doomed))))
  }

  /** The edge registry after `RemoveAll(e => e.v0 == v || e.v1 == v)`: the
      edges with no endpoint v, in order. */
  function EdgesAvoiding(es: seq<Edge>, v: Vertex): (r: seq<Edge>)
    ensures |r| <= |es|
    decreases |es|
  {
    if es == [] then []
    else
      var n := |es| - 1;
      EdgesAvoiding(es[..n], v) + (if Touches(es[n], v) then [] else [es[n]])
  }

  /** Exactly the edges without endpoint v survive. */
  lemma {:induction false} EdgesAvoidingExactly(es: seq<Edge>, v: Vertex, e: Edge)
    ensures e in EdgesAvoiding(es, v) <==> e in es && !Touches(e, v)
    decreases |es|
  {
    if es != [] {
      var n := |es| - 1;
      assert es == es[..n] + [es[n]];
      EdgesAvoidingExactly(es[..n], v, e);
    }
  }

  /** Dropping faces shrinks the face and triangle registries and leaves the
      vertex, edge and object registries alone. */
  lemma DropFacesShrinks(r: Registries, doomed: seq<Face>)
    ensures DropFaces(r, doomed).vertices == r.vertices
    ensures DropFaces(r, doomed).edges == r.edges
    ensures DropFaces(r, doomed).objects == r.objects
    ensures multiset(DropFaces(r, doomed).faces) <= multiset(r.faces)
    ensures multiset(DropFaces(r, doomed).triangles) <= multiset(r.triangles)
    ensures forall f :: f in DropFaces(r, doomed).faces ==> f in r.faces
  {
    SweepPartition(r.faces, doomed);
    RemoveEachCounts(r.triangles, FaceTriangles(SweptOut(r.faces, doomed)));
  }

  /** `deleteVertex(v)` on the registries r. */
  ghost function AfterDeleteVertex(r: Registries, v: Vertex): (r': Registries)
    ensures r'.vertices == r.vertices && r'.objects == r.objects
    ensures forall f :: f in r'.faces ==> f in r.faces
  {
    DropFacesShrinks(r, FacesWithVertex(r.faces, v));
    var r1 := DropFaces(r, FacesWithVertex(r.faces, v));
    r1.(edges := EdgesAvoiding(r1.edges, v))
  }

  /** `deleteEdge(e)` on the registries r: drop the faces whose boundary
      holds e, then delete each endpoint that no registered triangle uses. */
  ghost function AfterDeleteEdge(r: Registries, e: Edge): (r': Registries)
    ensures r'.vertices == r.vertices && r'.objects == r.objects
  {
    DropFacesShrinks(r, FacesWithEdge(r.faces, e));
    var r1 := DropFaces(r, FacesWithEdge(r.faces, e));
    var r2 := if IsIsolate(r1.triangles, e.v0) then AfterDeleteVertex(r1, e.v0) else r1;
    if IsIsolate(r2.triangles, e.v1) then AfterDeleteVertex(r2, e.v1) else r2
  }

  /** The loop of `deleteFace` over the face's vertices: each vertex that no
      registered triangle uses any more is deleted, in order. */
  ghost function CascadeIsolated(r: Registries, vs: seq<Vertex>): (r': Registries)
    ensures r'.vertices == r.vertices && r'.objects == r.objects
    ensures forall f :: f in r'.faces ==> f in r.faces
    decreases |vs|
  {
    if vs == [] then r
    else
      var n := |vs| - 1;
      var r1 := CascadeIsolated(r, vs[..n]);
      if IsIsolate(r1.triangles, vs[n]) then AfterDeleteVertex(r1, vs[n]) else r1
  }

  /** `deleteFace(f)` on the registries r. */
  ghost function AfterDeleteFace(r: Registries, f: Face): (r': Registries)
    ensures r'.vertices == r.vertices && r'.objects == r.objects
  {
    var r1 := r.(edit := RemoveFirst(r.edit, f), triangles := RemoveEach(r.triangles, f.ftOriginal));
    var r2 := CascadeIsolated(r1, f.fVertices);
    r2.(faces := RemoveFirst(r2.faces, f))
  }

  /** `deleteObject(o)` on the registries r. */
  ghost function AfterDeleteObject(r: Registries, o: Obj): (r': Registries)
    reads o
    ensures r'.edit == r.edit
  {
    r.(triangles := RemoveEach(r.triangles, FaceTriangles(o.faces)),
       edges := RemoveEach(r.edges, FaceEdges(o.faces)),
       faces := RemoveEach(r.faces, o.faces),
       vertices := RemoveEach(r.vertices, o.vertices),
       objects := RemoveFirst(r.objects, o))
  }

  // ---------------------------------------------------------------------
  // The deletes, in place

  /** The first loop of `deleteVertex`: collects the faces of fs whose vertex
      list holds v; each one is also removed from the editing object's face
      list, whose contents are passed in as kept0 and returned as kept. */
  method CollectWithVertex(kept0: seq<Face>, fs: seq<Face>, v: Vertex)
      returns (doomed: seq<Face>, kept: seq<Face>)
    ensures doomed == FacesWithVertex(fs, v)
    ensures kept == RemoveEach(kept0, doomed)
  {
    kept := kept0;
    doomed := [];
    for i := 0 to |fs|
      invariant doomed == FacesWithVertex(fs[..i], v)
      invariant kept == RemoveEach(kept0, doomed)
    {
      FacesWithVertexPrefix(fs, v, i);
      if v in fs[i].fVertices {
        RemoveEachSnoc(kept0, doomed, fs[i]);
        kept := RemoveFirst(kept, fs[i]);
        doomed := doomed + [fs[i]];
      }
    }
    assert fs[..|fs|] == fs;
  }

  /** The first loop of `deleteEdge`: collects the faces of fs whose boundary
      holds e, removing each from the editing object's face list kept0. */
  method CollectWithEdge(kept0: seq<Face>, fs: seq<Face>, e: Edge)
      returns (doomed: seq<Face>, kept: seq<Face>)
    ensures doomed == FacesWithEdge(fs, e)
    ensures kept == RemoveEach(kept0, doomed)
  {
    kept := kept0;
    doomed := [];
    for i := 0 to |fs|
      invariant doomed == FacesWithEdge(fs[..i], e)
      invariant kept == RemoveEach(kept0, doomed)
    {
      FacesWithEdgePrefix(fs, e, i);
      if e in fs[i].fEdges {
        RemoveEachSnoc(kept0, doomed, fs[i]);
        kept := RemoveFirst(kept, fs[i]);
        doomed := doomed + [fs[i]];
      }
    }
    assert fs[..|fs|] == fs;
  }

  /** The second loop of `deleteVertex` and `deleteEdge`: a forward `for`
      over the face registry that, on a doomed face, removes its triangles
      from the triangle registry and calls `RemoveAt(i)`, so the next face
      slides into slot i and is stepped over. */
  method SweepLoop(faces: seq<Face>, triangles: seq<Triangle>, doomed: seq<Face>)
      returns (fs: seq<Face>, ts: seq<Triangle>)
    ensures fs == Sweep(faces, doomed)
    ensures ts == RemoveEach(triangles, FaceTriangles(SweptOut(faces, doomed)))
  {
    fs, ts := faces, triangles;
    ghost var out: seq<Face> := [];
    var i := 0;
    while i < |fs|
      invariant SweepFrom(fs, i, doomed) == SweepFrom(faces, 0, doomed)
      invariant out + SweptFrom(fs, i, doomed) == SweptFrom(faces, 0, doomed)
      invariant ts == RemoveEach(triangles, FaceTriangles(out))
      decreases |fs| - i
    {
      if fs[i] in doomed {
        var f := fs[i];
        assert (out + [f])[..|out|] == out;
        RemoveEachAppend(triangles, FaceTriangles(out), f.ftOriginal);
        ts := RemoveEvery(ts, f.ftOriginal);
        fs := fs[..i] + fs[i + 1..];
        out := out + [f];
      }
      i := i + 1;
    }
    assert out + SweptFrom(fs, i, doomed) == out + [] == out;
    assert [] + faces == faces;
    SweepFromPrefix([], faces, doomed);
    SweptFromPrefix([], faces, doomed);
    assert out == SweptOut(faces, doomed);
  }

  /** `VrbModel.deleteVertex(v)`. The vertex itself stays registered. The
      editing object is dereferenced only when some face holds v. */
  method DeleteVertex(sc: Scene, v: Vertex)
    requires sc.editing != null || FacesWithVertex(sc.faceAll, v) == []
    modifies sc`faceAll, sc`triangleAll, sc`edgeAll, sc.Editing()`faces
    ensures Snapshot(sc) == AfterDeleteVertex(old(Snapshot(sc)), v)
  {
    var ed := sc.editing;
    var doomed, kept := CollectWithVertex(if ed == null then [] else ed.faces, sc.faceAll, v);
    if ed != null {
      ed.faces := kept;
    }
    sc.faceAll, sc.triangleAll := SweepLoop(sc.faceAll, sc.triangleAll, doomed);
    sc.edgeAll := EdgesAvoiding(sc.edgeAll, v);
  }

  /** `VrbModel.deleteEdge(e)`. */
  method DeleteEdge(sc: Scene, e: Edge)
    requires sc.editing != null
    modifies sc`faceAll, sc`triangleAll, sc`edgeAll, sc.editing`faces
    ensures Snapshot(sc) == AfterDeleteEdge(old(Snapshot(sc)), e)
  {
    var doomed, kept := CollectWithEdge(sc.editing.faces, sc.faceAll, e);
    sc.editing.faces := kept;
    sc.faceAll, sc.triangleAll := SweepLoop(sc.faceAll, sc.triangleAll, doomed);
    if IsIsolate(sc.triangleAll, e.v0) {
      DeleteVertex(sc, e.v0);
    }
    if IsIsolate(sc.triangleAll, e.v1) {
      DeleteVertex(sc, e.v1);
    }
  }

  /** `VrbModel.deleteFace(f)`. */
  method DeleteFace(sc: Scene, f: Face)
    requires sc.editing != null
    modifies sc`faceAll, sc`triangleAll, sc`edgeAll, sc.editing`faces
    ensures Snapshot(sc) == AfterDeleteFace(old(Snapshot(sc)), f)
  {
    sc.editing.faces := RemoveFirst(sc.editing.faces, f);
    sc.triangleAll := RemoveEvery(sc.triangleAll, f.ftOriginal);
    ghost var r1 := Snapshot(sc);
    var vs := f.fVertices;
    for i := 0 to |vs|
      invariant Snapshot(sc) == CascadeIsolated(r1, vs[..i])
    {
      assert vs[..i + 1][..i] == vs[..i];
      if IsIsolate(sc.triangleAll, vs[i]) {
        DeleteVertex(sc, vs[i]);
      }
    }
    assert vs[..|vs|] == vs;
    sc.faceAll := RemoveFirst(sc.faceAll, f);
  }

  /** The three lists the face loop of `deleteObject` changes, once the faces
      done have been handled. */
  ghost predicate FacesDropped(triangles: seq<Triangle>, edges: seq<Edge>, faces: seq<Face>, done: seq<Face>,
                               ts: seq<Triangle>, es: seq<Edge>, fs: seq<Face>) {
    && ts == RemoveEach(triangles, FaceTriangles(done))
    && es == RemoveEach(edges, FaceEdges(done))
    && fs == RemoveEach(faces, done)
  }

  /** One pass of the face loop of `deleteObject`, for face f. */
  method DropObjectFace(ghost triangles: seq<Triangle>, ghost edges: seq<Edge>, ghost faces: seq<Face>,
                        ghost done: seq<Face>, ts: seq<Triangle>, es: seq<Edge>, fs: seq<Face>, f: Face)
      returns (ts': seq<Triangle>, es': seq<Edge>, fs': seq<Face>)
    requires FacesDropped(triangles, edges, faces, done, ts, es, fs)
    ensures FacesDropped(triangles, edges, faces, done + [f], ts', es', fs')
  {
    assert (done + [f])[..|done|] == done;
    RemoveEachAppend(triangles, FaceTriangles(done), f.ftOriginal);
    RemoveEachAppend(edges, FaceEdges(done), f.fEdges);
    RemoveEachSnoc(faces, done, f);
    ts' := RemoveEvery(ts, f.ftOriginal);
    es' := RemoveEvery(es, f.fEdges);
    fs' := RemoveFirst(fs, f);
  }

  /** `VrbModel.deleteObject(o)`. */
  method DeleteObject(sc: Scene, o: Obj)
    modifies sc`triangleAll, sc`edgeAll, sc`faceAll, sc`vertexAll, sc`objectAll
    ensures Snapshot(sc) == AfterDeleteObject(old(Snapshot(sc)), o)
  {
    var ts, es, fs := sc.triangleAll, sc.edgeAll, sc.faceAll;
    ghost var r := Snapshot(sc);
    var ofs := o.faces;
    for i := 0 to |ofs|
      invariant FacesDropped(r.triangles, r.edges, r.faces, ofs[..i], ts, es, fs)
      invariant Snapshot(sc) == r
    {
      assert ofs[..i + 1] == ofs[..i] + [ofs[i]];
      ts, es, fs := DropObjectFace(r.triangles, r.edges, r.faces, ofs[..i], ts, es, fs, ofs[i]);
    }
    assert ofs[..|ofs|] == ofs;
    var vs := RemoveEvery(sc.vertexAll, o.vertices);
    sc.triangleAll, sc.edgeAll, sc.faceAll := ts, es, fs;
    sc.vertexAll := vs;
    sc.objectAll := RemoveFirst(sc.objectAll, o);
    assert Snapshot(sc) == AfterDeleteObject(r, o);
  }

  // ---------------------------------------------------------------------
  // What the deletes guarantee

  /** After `deleteVertex(v)` an edge is registered exactly when it was
      before and has no endpoint v. */
  lemma DeleteVertexUnlinks(r: Registries, v: Vertex, e: Edge)
    ensures e in AfterDeleteVertex(r, v).edges <==> e in r.edges && !Touches(e, v)
  {
    DropFacesShrinks(r, FacesWithVertex(r.faces, v));
    EdgesAvoidingExactly(r.edges, v, e);
  }

  /** A face the removal loop actually takes out has each of its triangles
      unregistered, provided the triangle was registered at most once. */
  lemma DeleteVertexDropsTriangles(r: Registries, v: Vertex, f: Face, t: Triangle)
    requires f in SweptOut(r.faces, FacesWithVertex(r.faces, v)) && t in f.ftOriginal
    requires multiset(r.triangles)[t] <= 1
    ensures t !in AfterDeleteVertex(r, v).triangles
  {
    var out := SweptOut(r.faces, FacesWithVertex(r.faces, v));
    FaceTrianglesHas(out, f, t);
    RemoveEachGone(r.triangles, FaceTriangles(out), t);
  }

  /** When no two faces holding v are neighbours in the face registry, the
      removal loop skips none of them: a face stays exactly when it does not
      hold v, and every face holding v loses its (singly registered)
      triangles. */
  lemma DeleteVertexDropsFaces(r: Registries, v: Vertex, f: Face)
    requires NoAdjacentMarked(r.faces, FacesWithVertex(r.faces, v))
    ensures f in AfterDeleteVertex(r, v).faces <==> f in r.faces && v !in f.fVertices
    ensures f in r.faces && v in f.fVertices ==>
              forall t :: t in f.ftOriginal && multiset(r.triangles)[t] <= 1 ==>
                t !in AfterDeleteVertex(r, v).triangles
  {
    var doomed := FacesWithVertex(r.faces, v);
    SweepWithoutNeighbours(r.faces, doomed);
    FacesWithVertexExactly(r.faces, v, f);
    if f in r.faces && v in f.fVertices {
      forall t | t in f.ftOriginal && multiset(r.triangles)[t] <= 1
        ensures t !in AfterDeleteVertex(r, v).triangles
      {
        DeleteVertexDropsTriangles(r, v, f, t);
      }
    }
  }

  /** The forward `RemoveAt` loop steps over the face right after a removed
      one: with two neighbouring faces that both hold v, the second one stays
      registered. */
  lemma DeleteVertexSkipsNeighbour(r: Registries, v: Vertex, f: Face, g: Face)
    requires r.faces == [f, g] && f != g
    requires v in f.fVertices && v in g.fVertices
    ensures AfterDeleteVertex(r, v).faces == [g]
  {
    assert [f, g][..1] == [f];
    assert FacesWithVertex([f], v) == [f] by {
      assert [f][..0] == [];
    }
    assert FacesWithVertex(r.faces, v) == [f, g];
    SweepSkipsMarkedNeighbour(f, g);
  }

  /** Every face holding v leaves the editing object's face list, provided
      that list held it at most once. */
  lemma DeleteVertexLeavesEdit(r: Registries, v: Vertex, f: Face)
    requires f in r.faces && v in f.fVertices
    requires multiset(r.edit)[f] <= 1
    ensures f !in AfterDeleteVertex(r, v).edit
  {
    FacesWithVertexExactly(r.faces, v, f);
    RemoveEachGone(r.edit, FacesWithVertex(r.faces, v), f);
  }

  /** `deleteVertex` only ever takes entries out of the editing list and of
      the face and triangle registries. */
  lemma DeleteVertexShrinks(r: Registries, v: Vertex)
    ensures multiset(AfterDeleteVertex(r, v).edit) <= multiset(r.edit)
    ensures multiset(AfterDeleteVertex(r, v).faces) <= multiset(r.faces)
    ensures multiset(AfterDeleteVertex(r, v).triangles) <= multiset(r.triangles)
  {
    DropFacesShrinks(r, FacesWithVertex(r.faces, v));
    RemoveEachCounts(r.edit, FacesWithVertex(r.faces, v));
  }

  /** So does a cascade of vertex deletes. */
  lemma {:induction false} CascadeShrinks(r: Registries, vs: seq<Vertex>)
    ensures multiset(CascadeIsolated(r, vs).edit) <= multiset(r.edit)
    ensures multiset(CascadeIsolated(r, vs).faces) <= multiset(r.faces)
    ensures multiset(CascadeIsolated(r, vs).triangles) <= multiset(r.triangles)
    decreases |vs|
  {
    if vs != [] {
      var n := |vs| - 1;
      var r1 := CascadeIsolated(r, vs[..n]);
      CascadeShrinks(r, vs[..n]);
      if IsIsolate(r1.triangles, vs[n]) {
        DeleteVertexShrinks(r1, vs[n]);
      }
    }
  }

  /** A vertex of vs that no triangle of r uses has no edge left once the
      cascade has run: it is still unused when its turn comes, so it is
      deleted, and later steps only remove edges. */
  lemma {:induction false} CascadeUnlinks(r: Registries, vs: seq<Vertex>, j: nat, e: Edge)
    requires j < |vs| && IsIsolate(r.triangles, vs[j])
    ensures e in CascadeIsolated(r, vs).edges ==> !Touches(e, vs[j])
    decreases |vs|
  {
    var n := |vs| - 1;
    var r1 := CascadeIsolated(r, vs[..n]);
    if j == n {
      CascadeShrinks(r, vs[..n]);
      IsIsolateShrinks(r1.triangles, r.triangles, vs[n]);
      DeleteVertexUnlinks(r1, vs[n], e);
    } else {
      assert vs[..n][j] == vs[j];
      CascadeUnlinks(r, vs[..n], j, e);
      if IsIsolate(r1.triangles, vs[n]) {
        DeleteVertexUnlinks(r1, vs[n], e);
      }
    }
  }

  /** `deleteEdge(e)` unregisters e itself exactly when one of its endpoints
      is left unused by the triangles once the faces bounded by e are gone;
      otherwise e stays registered. */
  lemma DeleteEdgeUnregisters(r: Registries, e: Edge)
    ensures var ts := DropFaces(r, FacesWithEdge(r.faces, e)).triangles;
            e in AfterDeleteEdge(r, e).edges <==> e in r.edges && !IsIsolate(ts, e.v0) && !IsIsolate(ts, e.v1)
  {
    var r1 := DropFaces(r, FacesWithEdge(r.faces, e));
    DropFacesShrinks(r, FacesWithEdge(r.faces, e));
    if IsIsolate(r1.triangles, e.v0) {
      var r2 := AfterDeleteVertex(r1, e.v0);
      DeleteVertexUnlinks(r1, e.v0, e);
      if IsIsolate(r2.triangles, e.v1) {
        DeleteVertexUnlinks(r2, e.v1, e);
      }
    } else if IsIsolate(r1.triangles, e.v1) {
      DeleteVertexUnlinks(r1, e.v1, e);
    }
  }

  /** An edge that shares no endpoint with e keeps its registration. */
  lemma DeleteEdgeKeepsOthers(r: Registries, e: Edge, x: Edge)
    requires !Touches(x, e.v0) && !Touches(x, e.v1)
    ensures x in AfterDeleteEdge(r, e).edges <==> x in r.edges
  {
    var r1 := DropFaces(r, FacesWithEdge(r.faces, e));
    DropFacesShrinks(r, FacesWithEdge(r.faces, e));
    var r2 := if IsIsolate(r1.triangles, e.v0) then AfterDeleteVertex(r1, e.v0) else r1;
    DeleteVertexUnlinks(r1, e.v0, x);
    DeleteVertexUnlinks(r2, e.v1, x);
  }

  /** When no two faces bounded by e are neighbours in the face registry,
      every one of them is unregistered. */
  lemma DeleteEdgeDropsFaces(r: Registries, e: Edge, f: Face)
    requires NoAdjacentMarked(r.faces, FacesWithEdge(r.faces, e))
    requires f in r.faces && e in f.fEdges
    ensures f !in AfterDeleteEdge(r, e).faces
  {
    SweepWithoutNeighbours(r.faces, FacesWithEdge(r.faces, e));
    FacesWithEdgeExactly(r.faces, e, f);
  }

  /** `deleteFace(f)` takes f out of an editing list that held it once. */
  lemma DeleteFaceLeavesEdit(r: Registries, f: Face)
    requires Distinct(r.edit)
    ensures f !in AfterDeleteFace(r, f).edit
  {
    var r1 := r.(edit := RemoveFirst(r.edit, f), triangles := RemoveEach(r.triangles, f.ftOriginal));
    CascadeShrinks(r1, f.fVertices);
    RemoveFirstCounts(r.edit, f);
    DistinctCountsOnce(r.edit, f);
  }

  /** `deleteFace(f)` unregisters f from a face registry that held it once. */
  lemma DeleteFaceUnregisters(r: Registries, f: Face)
    requires Distinct(r.faces)
    ensures f !in AfterDeleteFace(r, f).faces
  {
    var r1 := r.(edit := RemoveFirst(r.edit, f), triangles := RemoveEach(r.triangles, f.ftOriginal));
    var r2 := CascadeIsolated(r1, f.fVertices);
    CascadeShrinks(r1, f.fVertices);
    DistinctCountsOnce(r.faces, f);
    RemoveFirstCounts(r2.faces, f);
  }

  /** `deleteFace(f)` unregisters each triangle of f from a triangle registry
      that held it once. */
  lemma DeleteFaceDropsTriangles(r: Registries, f: Face, t: Triangle)
    requires Distinct(r.triangles) && t in f.ftOriginal
    ensures t !in AfterDeleteFace(r, f).triangles
  {
    var r1 := r.(edit := RemoveFirst(r.edit, f), triangles := RemoveEach(r.triangles, f.ftOriginal));
    CascadeShrinks(r1, f.fVertices);
    DistinctCountsOnce(r.triangles, t);
    RemoveEachGone(r.triangles, f.ftOriginal, t);
    assert multiset(CascadeIsolated(r1, f.fVertices).triangles)[t] == 0;
  }

  /** Every vertex of f that no registered triangle uses once f's triangles
      are gone has no registered edge after `deleteFace(f)`. */
  lemma DeleteFaceUnlinks(r: Registries, f: Face, v: Vertex, e: Edge)
    requires v in f.fVertices && IsIsolate(RemoveEach(r.triangles, f.ftOriginal), v)
    ensures e in AfterDeleteFace(r, f).edges ==> !Touches(e, v)
  {
    var r1 := r.(edit := RemoveFirst(r.edit, f), triangles := RemoveEach(r.triangles, f.ftOriginal));
    CascadeUnlinks(r1, f.fVertices, IndexOf(f.fVertices, v), e);
  }

  /** `deleteObject(o)` unregisters only the boundary edges of o's faces: an
      edge that is no face's boundary, such as a diagonal inside a face, is
      registered as often as before. */
  lemma DeleteObjectKeepsDiagonals(r: Registries, o: Obj, e: Edge)
    requires e !in FaceEdges(o.faces)
    ensures multiset(AfterDeleteObject(r, o).edges)[e] == multiset(r.edges)[e]
  {
    RemoveEachKeeps(r.edges, FaceEdges(o.faces), e);
  }

  /** On registries that hold each entry once, `deleteObject(o)` unregisters
      the triangles, boundary edges and faces of o's faces, every vertex of
      o, and o itself. */
  lemma DeleteObjectRemoves(r: Registries, o: Obj)
    ensures Distinct(r.triangles) ==>
              forall t :: t in FaceTriangles(o.faces) ==> t !in AfterDeleteObject(r, o).triangles
    ensures Distinct(r.edges) ==> forall e :: e in FaceEdges(o.faces) ==> e !in AfterDeleteObject(r, o).edges
    ensures Distinct(r.faces) ==> forall f :: f in o.faces ==> f !in AfterDeleteObject(r, o).faces
    ensures Distinct(r.vertices) ==> forall v :: v in o.vertices ==> v !in AfterDeleteObject(r, o).vertices
    ensures Distinct(r.objects) ==> o !in AfterDeleteObject(r, o).objects
  {
    if Distinct(r.triangles) {
      forall t | t in FaceTriangles(o.faces) ensures t !in AfterDeleteObject(r, o).triangles {
        DistinctCountsOnce(r.triangles, t);
        RemoveEachGone(r.triangles, FaceTriangles(o.faces), t);
      }
    }
    if Distinct(r.edges) {
      forall e | e in FaceEdges(o.faces) ensures e !in AfterDeleteObject(r, o).edges {
        DistinctCountsOnce(r.edges, e);
        RemoveEachGone(r.edges, FaceEdges(o.faces), e);
      }
    }
    if Distinct(r.faces) {
      forall f | f in o.faces ensures f !in AfterDeleteObject(r, o).faces {
        DistinctCountsOnce(r.faces, f);
        RemoveEachGone(r.faces, o.faces, f);
      }
    }
    if Distinct(r.vertices) {
      forall v | v in o.vertices ensures v !in AfterDeleteObject(r, o).vertices {
        DistinctCountsOnce(r.vertices, v);
        RemoveEachGone(r.vertices, o.vertices, v);
      }
    }
    if Distinct(r.objects) {
      DistinctCountsOnce(r.objects, o);
      RemoveFirstCounts(r.objects, o);
    }
  }
}
