# VR modeler mesh topology, in Dafny

This project models the editable mesh topology of a Unity VR box modeler (`Assets/Core/VrbModel.cs`). Its entities are:

- vertices;
- edges, shared between triangles and looked up by their unordered vertex pair;
- triangles, each with its three corners and three resolved edges;
- faces, which are lists of triangles with derived local buffers and a boundary;
- objects, which are lists of faces with derived global buffers.

Each entity class registers itself in a process-wide static `all` list. Its `addToStatic` sets `index` to the current count, then appends. The static `VrbObject.editingObject` holds the object being edited. The operations change these lists in place.

The model keeps that form:

- **`Topology`** holds the entities as classes and the registries as the `Scene` class.
  - Reference equality of entities is Dafny reference equality.
  - `Scene` has one `seq` field per static list and the `editing` slot.
  - `addToStatic`, `VrbEdge.addEdge`/`findEdgeByVertices`, the triangle constructor and `VrbVertex.isIsolate` are modelled here.
  - `VrbFace.calSelf` and `VrbObject.calSelf` are modelled with their loops (the face's index buffer is a zero-initialised `array`), each proved against a specification function.
  - `enterEdit`/`exitEdit` and the `displayModel`/`hideModel` flags are modelled as methods on the flags.
- **`Lists`** gives the .NET `List<T>` calls the source uses their meaning:
  - `IndexOf`;
  - `Remove`, which removes only the first occurrence;
  - the "add when `IndexOf` is -1" deduplication idiom;
  - the count-then-keep-once boundary scan;
  - the forward `for` loop that calls `RemoveAt(i)` on a hit and therefore skips the element after each removal.
- **`Editor`** holds the cascading deletes `deleteVertex`, `deleteEdge`, `deleteFace` and `deleteObject`.
  - Each is an in-place method on the `Scene`.
  - Each is proved equal to a function of the registries taken as values (`Registries`).
  - Lemmas state what these functions guarantee. This includes the places where the source does less than its comments suggest:
    - a skipped neighbour face;
    - `deleteVertex` leaving the vertex registered;
    - `deleteEdge` removing the edge only through an endpoint's cascade;
    - `deleteObject` keeping the face diagonals registered.
- **`Exporter`** models `MeshToString`, the Wavefront OBJ writer.
  - The method appends records as the source's loops do.
  - It is proved to produce `ObjText`.
  - Lemmas read that text back line by line and place every `v`, `vn`, `vt`, `f` and blank record.
  - `IntToString` is read back by `ParseInt`.
- **`Cube`** models `createCube`.
  - The method is straight-line, as in the source: 8 vertices, 12 triangles, 6 faces and 1 object.
  - Its contract states the topology it built: which corners each triangle has, the edges each triangle resolves, and the two triangles of each face.
  - Lemmas derive the counts from that topology: 18 new edges, 4 boundary edges per face, and an object with 8 vertices, 12 edges and 36 buffer entries.

The source's quirks are reproduced, not fixed.

## Model

| member | source | states |
|---|---|---|
| Lists.IndexOf | Assets/Core/VrbModel.cs:406-422 | `List.IndexOf`: -1 exactly when the value is absent; otherwise a position that holds the value, with no earlier copy |
| Lists.RemoveFirst | Assets/Core/VrbModel.cs:1262 | `List.Remove` leaves a list without the value unchanged, and otherwise shortens it by one |
| Lists.RemoveFirstAt | Assets/Core/VrbModel.cs:1262 | `List.Remove` removes the first copy of the value and keeps the rest in order: on a list p + [x] + q where p has no x, it gives p + q |
| Lists.RemoveFirstCounts | Assets/Core/VrbModel.cs:1262 | `List.Remove` takes away exactly one copy of the value, if there is one |
| Lists.RemoveEach | Assets/Core/VrbModel.cs:1264-1267 | the `foreach ... Remove` loop takes away at most one entry per listed value, so the list shrinks by at most the number of values named |
| Lists.RemoveEachCounts | Assets/Core/VrbModel.cs:1264-1267 | removing each element of a list in turn takes away one copy per occurrence (multiset difference) |
| Lists.RemoveEachAppend | Assets/Core/VrbModel.cs:1282-1295 | removing the elements of a + b is removing those of a, then those of b, so the face-by-face loop equals one removal of the concatenation |
| Lists.RemoveEachGone | Assets/Core/VrbModel.cs:1264-1267 | a value registered at most once is absent after it has been removed |
| Lists.RemoveEachKeeps | Assets/Core/VrbModel.cs:1284-1292 | a value never named keeps every one of its occurrences |
| Lists.RemoveEvery | Assets/Core/VrbModel.cs:1264-1267 | the `foreach ... Remove` loop computes the removal of each element in order |
| Lists.Dedup | Assets/Core/VrbModel.cs:399-423 | the "add when IndexOf is -1" list holds no repeats, has the same elements as its input, and is no longer |
| Lists.DedupSnoc | Assets/Core/VrbModel.cs:406-410 | one step of the idiom appends the value exactly when it was not yet listed |
| Lists.DedupOrder | Assets/Core/VrbModel.cs:399-423 | the deduplicated list keeps the order of first occurrence |
| Lists.DedupCountsOnce | Assets/Core/VrbModel.cs:716-725 | every element of the input appears exactly once in the deduplicated list |
| Lists.DedupDistinct | Assets/Core/VrbModel.cs:716-725 | deduplicating a list without repeats changes nothing |
| Lists.DedupIdempotent | Assets/Core/VrbModel.cs:399-423 | deduplicating twice gives the same list as once |
| Lists.AppendNew | Assets/Core/VrbModel.cs:716-725 | the "add when IndexOf is -1" loop over a further list extends the deduplication of what was seen by that list |
| Lists.KeepOnce | Assets/Core/VrbModel.cs:475-481 | an element is kept exactly when it is listed and occurs exactly once among the uses (both directions) |
| Lists.KeepOnceDistinct | Assets/Core/VrbModel.cs:475-481 | the kept elements of a list without repeats have no repeats |
| Lists.KeepOnceOrder | Assets/Core/VrbModel.cs:475-481 | the kept elements keep the order of the list they came from |
| Lists.Sweep | Assets/Core/VrbModel.cs:1183-1197 | the forward `RemoveAt(i)` loop leaves only elements of its input, and no more of them |
| Lists.SweptOut | Assets/Core/VrbModel.cs:1183-1197 | what that loop removes was in the list and marked for deletion |
| Lists.SweepPartition | Assets/Core/VrbModel.cs:1183-1197 | the loop splits the list: what stays and what is removed together make up the input (multisets) |
| Lists.SweepFromPrefix | Assets/Core/VrbModel.cs:1183-1197 | run from slot i, the loop keeps the first i elements and sweeps the rest |
| Lists.SweptFromPrefix | Assets/Core/VrbModel.cs:1183-1197 | run from slot i, the loop removes exactly what sweeping the rest removes |
| Lists.SweepWithoutNeighbours | Assets/Core/VrbModel.cs:1183-1197 | when no two neighbours are marked, the loop keeps exactly the unmarked elements and removes exactly the marked ones |
| Lists.SweepSkipsMarkedNeighbour | Assets/Core/VrbModel.cs:1193 | two marked neighbours: the second survives the loop (the skipped-element quirk) |
| Topology.Vertex.constructor | Assets/Core/VrbModel.cs:48-53 | a vertex keeps its index and position, and starts neither constructed nor displayed |
| Topology.Vertex.DisplayModel | Assets/Core/VrbModel.cs:95-106 | afterwards the vertex is constructed and displayed |
| Topology.Vertex.HideModel | Assets/Core/VrbModel.cs:108-115 | afterwards the vertex is not displayed |
| Topology.Edge.constructor | Assets/Core/VrbModel.cs:221-226 | an edge keeps its index and endpoints, and starts neither constructed nor displayed |
| Topology.Edge.DisplayModel | Assets/Core/VrbModel.cs:282-293 | afterwards the edge is constructed and displayed |
| Topology.Edge.HideModel | Assets/Core/VrbModel.cs:295-302 | afterwards the edge is not displayed |
| Topology.Triangle.constructor | Assets/Core/VrbModel.cs:181-192 | a triangle keeps its index, its three corners in order and its three edges |
| Topology.FindEdge | Assets/Core/VrbModel.cs:239-253 | `findEdgeByVertices`: null exactly when no registered edge joins the pair in either order; otherwise a registered edge joining it |
| Topology.FindEdgeSymmetric | Assets/Core/VrbModel.cs:239-253 | the lookup does not depend on the order of the two vertices |
| Topology.FindEdgeFirst | Assets/Core/VrbModel.cs:241-251 | the edge found is the first registered edge joining the pair |
| Topology.FindEdgeAppend | Assets/Core/VrbModel.cs:227-237 | appending an edge changes a lookup only for a pair that found nothing before, and that pair then finds the new edge |
| Topology.TriangleLookups | Assets/Core/VrbModel.cs:189-191 | after the three `addEdge` calls of a triangle, a pair that found an edge before finds the same one; any other pair finds the first of the three resolved edges that joins it, or nothing |
| Topology.TriangleGrowth | Assets/Core/VrbModel.cs:181-192 | the edge registry is only extended, and grows by the number of corner pairs that had no edge: at most 3 |
| Topology.TriangleKeepsPairs | Assets/Core/VrbModel.cs:189-191 | each corner pair of the triangle finds afterwards the edge resolved for it |
| Topology.AddEdgeTwice | Assets/Core/VrbModel.cs:227-253 | `addEdge(a, b)` followed by `addEdge(b, a)` returns the same edge and leaves the registry unchanged the second time |
| Topology.IsIsolate | Assets/Core/VrbModel.cs:73-83 | `isIsolate` is false only when some triangle of the list has the vertex as a corner |
| Topology.IsIsolateExactly | Assets/Core/VrbModel.cs:73-83 | `isIsolate` is true exactly when no registered triangle has the vertex as a corner |
| Topology.IsIsolateShrinks | Assets/Core/VrbModel.cs:1269-1275 | a vertex isolated in a triangle list stays isolated after triangles are removed |
| Topology.Corners | Assets/Core/VrbModel.cs:402-423 | the corner list has three entries per triangle |
| Topology.EdgeUses | Assets/Core/VrbModel.cs:441-471 | the edge-reference list has three entries per triangle |
| Topology.Boundary | Assets/Core/VrbModel.cs:441-481 | `fEdges` holds at most three edges per triangle of the face |
| Topology.LocalIndices | Assets/Core/VrbModel.cs:426-439 | the face index buffer has six slots per triangle |
| Topology.BoundaryExactly | Assets/Core/VrbModel.cs:427-481 | `fEdges` has no repeats, and an edge is in it exactly when it occurs once among the triangles' e0/e1/e2 |
| Topology.BoundaryOrder | Assets/Core/VrbModel.cs:475-481 | `fEdges` lists boundary edges in the order of their first use |
| Topology.QuadBoundary | Assets/Core/VrbModel.cs:427-481 | two triangles glued along one edge have their four outer edges as the boundary |
| Topology.LocalIndicesAt | Assets/Core/VrbModel.cs:434-439 | slot 6i+k holds the local position of corner k of triangle i for k < 3, and 0 for k >= 3 |
| Topology.FaceTrianglesHas | Assets/Core/VrbModel.cs:728-741 | every triangle of a face is among the triangles the object loop visits |
| Topology.FaceVerticesHas | Assets/Core/VrbModel.cs:716-725 | a vertex is among the faces' concatenated `fVertices` exactly when some face lists it |
| Topology.FaceEdgesHas | Assets/Core/VrbModel.cs:742-748 | an edge is among the faces' concatenated `fEdges` exactly when some face lists it |
| Topology.FaceTrianglesCount | Assets/Core/VrbModel.cs:728-741 | faces of n triangles each give n triangles per face |
| Topology.TallyEdge | Assets/Core/VrbModel.cs:441-449 | one `IndexOf`/`Add`/`count += 1` step keeps the tally invariant: the listed edges are the distinct uses in order, each with its number of uses |
| Topology.AddCorner | Assets/Core/VrbModel.cs:406-410 | one corner step extends the deduplicated vertex list by the corner, with positions kept parallel |
| Topology.CollectCorners | Assets/Core/VrbModel.cs:399-423 | the first loop gives the distinct corners in first-occurrence order, and a parallel position list |
| Topology.TallyTriangle | Assets/Core/VrbModel.cs:441-471 | the three tally steps of one triangle keep the tally invariant for e0, e1 and e2 |
| Topology.WriteCorners | Assets/Core/VrbModel.cs:434-436 | the three writes for triangle i extend the filled prefix of the buffer by six slots; the rest stays 0 |
| Topology.FillAndTally | Assets/Core/VrbModel.cs:426-472 | the second loop fills the zero-initialised buffer with the local index buffer and tallies every edge use |
| Topology.IndexAndBoundary | Assets/Core/VrbModel.cs:426-481 | the second and third loops give the local index buffer and the edges used exactly once |
| Topology.UsedOnce | Assets/Core/VrbModel.cs:475-481 | the last loop keeps the tallied edges with count 1, in tally order |
| Topology.DeriveFace | Assets/Core/VrbModel.cs:397-481 | `calSelf` computes the face's derived lists from its triangles |
| Topology.Face.constructor | Assets/Core/VrbModel.cs:389-395 | a face keeps its index and triangles, starts hidden and unconstructed, and has its derived lists computed |
| Topology.Face.DisplayModel | Assets/Core/VrbModel.cs:526-537 | afterwards the face is constructed and displayed |
| Topology.Face.HideModel | Assets/Core/VrbModel.cs:539-546 | afterwards the face is not displayed |
| Topology.FaceIndexBuffer | Assets/Core/VrbModel.cs:426-439 | `fTriangles` has 6 slots per triangle and `fVectors` is as long as `fVertices`; `fVertices[fTriangles[6i+k]]` is corner k of triangle i, and `fVectors` there holds its position; slots 6i+3..6i+5 are 0 |
| Topology.FaceDerivedUnique | Assets/Core/VrbModel.cs:397-481 | the derived lists are determined by the triangles, so recomputing with no change in between gives identical lists |
| Topology.AppendCorners | Assets/Core/VrbModel.cs:730-741 | the inner triangle loop appends one position per corner and one index per position, each index equal to its own slot |
| Topology.AddFaceBuffers | Assets/Core/VrbModel.cs:728-748 | one face pass extends the unwelded buffers by the face's corners and the edge list by its new boundary edges |
| Topology.FaceBuffers | Assets/Core/VrbModel.cs:728-749 | the second loop of the object's `calSelf` gives the unwelded buffers and the deduplicated boundary edges of all faces |
| Topology.Obj.constructor | Assets/Core/VrbModel.cs:695-702 | an object keeps its index, name, position and faces, starts hidden and unconstructed, and has its derived lists computed |
| Topology.Obj.CalSelf | Assets/Core/VrbModel.cs:709-757 | afterwards `vertices` is the deduplicated faces' vertices; `vectors` holds three positions per triangle with `triangles[k] == k`; `edges` is the deduplicated union of the faces' `fEdges` |
| Topology.Obj.CalVertices | Assets/Core/VrbModel.cs:716-725 | the first loop makes `vertices` the deduplication of the faces' `fVertices` |
| Topology.Obj.CalBuffers | Assets/Core/VrbModel.cs:728-749 | the second loop makes the unwelded buffers and the edge union |
| Topology.Obj.DisplayModel | Assets/Core/VrbModel.cs:808-819 | afterwards the object is constructed and displayed |
| Topology.Obj.HideModel | Assets/Core/VrbModel.cs:821-828 | afterwards the object is not displayed |
| Topology.DisplayFaces | Assets/Core/VrbModel.cs:833-836 | every listed face is constructed and displayed |
| Topology.DisplayVertices | Assets/Core/VrbModel.cs:837-840 | every listed vertex is constructed and displayed |
| Topology.DisplayEdges | Assets/Core/VrbModel.cs:841-844 | every listed edge is constructed and displayed |
| Topology.HideFaces | Assets/Core/VrbModel.cs:852-855 | every listed face is hidden |
| Topology.HideVertices | Assets/Core/VrbModel.cs:856-859 | every listed vertex is hidden |
| Topology.HideEdges | Assets/Core/VrbModel.cs:860-863 | every listed edge is hidden |
| Topology.HideObjects | Assets/Core/VrbModel.cs:876-879 | every listed object is hidden |
| Topology.DisplayObjects | Assets/Core/VrbModel.cs:884-887 | every listed object is constructed and displayed |
| Topology.HideParts | Assets/Core/VrbModel.cs:852-863 | the editing object's faces, vertices and edges are all hidden |
| Topology.Refresh | Assets/Core/VrbModel.cs:864-868 | the object is recomputed, rebuilt and displayed |
| Topology.Finish | Assets/Core/VrbModel.cs:864-869 | the object is recomputed and displayed, and so is every registered object |
| Topology.Scene.constructor | Assets/Core/VrbModel.cs:624-625 | all registries start empty and the editing slot starts null |
| Topology.Scene.NewVertex | Assets/Core/VrbModel.cs:34-53 | `addToStatic`: the new vertex gets the old count as index and is appended, with nothing else changed |
| Topology.Scene.AddEdge | Assets/Core/VrbModel.cs:227-237 | `addEdge` returns the edge the lookup finds and leaves the registry alone; otherwise it appends a new edge on (a, b) with the old count as index |
| Topology.Scene.NewTriangle | Assets/Core/VrbModel.cs:181-192 | the triangle is appended with the old count as index; each corner pair finds its edge; other lookups change only for new pairs; the edge registry grows by the pairs that had no edge; each appended edge is fresh, has its slot as index and starts unconstructed and hidden |
| Topology.Scene.NewFace | Assets/Core/VrbModel.cs:389-395 | the face is appended with the old count as index, and its derived lists are computed |
| Topology.Scene.NewObject | Assets/Core/VrbModel.cs:695-702 | the object is appended with the old count as index, and its derived lists are computed |
| Topology.Scene.HideAll | Assets/Core/VrbModel.cs:874-880 | every registered object is hidden |
| Topology.Scene.DisplayAll | Assets/Core/VrbModel.cs:882-888 | every registered object is constructed and displayed |
| Topology.Scene.EnterEdit | Assets/Core/VrbModel.cs:830-846 | the object becomes the editing object; every registered object is hidden; its faces, vertices and edges are displayed |
| Topology.Scene.ExitEdit | Assets/Core/VrbModel.cs:848-872 | the slot ends null. With an editing object: its parts are hidden, it is recomputed and displayed, and every registered object is displayed. Without one, no flag of any object, face, vertex or edge changes (its frame is empty) |
| Editor.FacesWithVertexExactly | Assets/Core/VrbModel.cs:1169-1181 | the faces collected by `deleteVertex` are exactly the registered faces whose `fVertices` hold v |
| Editor.FacesWithEdgeExactly | Assets/Core/VrbModel.cs:1216-1228 | the faces collected by `deleteEdge` are exactly the registered faces whose `fEdges` hold e |
| Editor.FacesWithVertex | Assets/Core/VrbModel.cs:1169-1181 | the faces `deleteVertex` collects are no more than the registered faces |
| Editor.FacesWithEdge | Assets/Core/VrbModel.cs:1216-1228 | the faces `deleteEdge` collects are no more than the registered faces |
| Editor.DropFaces | Assets/Core/VrbModel.cs:1169-1197 | removing the collected faces leaves the vertex, edge and object registries as they were and never lengthens the editing list or the face and triangle registries |
| Editor.EdgesAvoiding | Assets/Core/VrbModel.cs:1208 | `RemoveAll` on the edges never lengthens the registry |
| Editor.EdgesAvoidingExactly | Assets/Core/VrbModel.cs:1208 | an edge survives `RemoveAll` exactly when it was registered and has no endpoint v |
| Editor.DropFacesShrinks | Assets/Core/VrbModel.cs:1183-1197 | the face-removal loop leaves vertices, edges and objects alone, and only takes entries out of the faces and triangles |
| Editor.AfterDeleteVertex | Assets/Core/VrbModel.cs:1165-1211 | `deleteVertex` keeps the vertex and object registries unchanged, and keeps only faces that were registered |
| Editor.AfterDeleteEdge | Assets/Core/VrbModel.cs:1213-1257 | `deleteEdge` keeps the vertex and object registries unchanged |
| Editor.CascadeIsolated | Assets/Core/VrbModel.cs:1269-1275 | the isolated-vertex cascade keeps the vertex and object registries unchanged, and keeps only faces that were registered |
| Editor.AfterDeleteFace | Assets/Core/VrbModel.cs:1259-1277 | `deleteFace` keeps the vertex and object registries unchanged |
| Editor.AfterDeleteObject | Assets/Core/VrbModel.cs:1279-1305 | `deleteObject` leaves the editing object's face list alone |
| Editor.CollectWithVertex | Assets/Core/VrbModel.cs:1168-1181 | the first loop of `deleteVertex` collects the faces holding v, in order, and removes each of them once from the editing list |
| Editor.CollectWithEdge | Assets/Core/VrbModel.cs:1215-1228 | the first loop of `deleteEdge` collects the faces bounded by e, in order, and removes each of them once from the editing list |
| Editor.SweepLoop | Assets/Core/VrbModel.cs:1183-1197 | the second loop leaves the face registry the forward `RemoveAt` loop leaves, and removes once each triangle of each face actually removed |
| Editor.DeleteVertex | Assets/Core/VrbModel.cs:1165-1211 | the registries afterwards are `AfterDeleteVertex` of the registries before |
| Editor.DeleteEdge | Assets/Core/VrbModel.cs:1213-1257 | the registries afterwards are `AfterDeleteEdge` of the registries before |
| Editor.DeleteFace | Assets/Core/VrbModel.cs:1259-1277 | the registries afterwards are `AfterDeleteFace` of the registries before |
| Editor.DropObjectFace | Assets/Core/VrbModel.cs:1282-1295 | one face pass of `deleteObject` removes that face's triangles, boundary edges and the face itself |
| Editor.DeleteObject | Assets/Core/VrbModel.cs:1279-1305 | the registries afterwards are `AfterDeleteObject` of the registries before |
| Editor.DeleteVertexUnlinks | Assets/Core/VrbModel.cs:1200-1208 | after `deleteVertex(v)` an edge is registered exactly when it was before and does not touch v |
| Editor.DeleteVertexDropsTriangles | Assets/Core/VrbModel.cs:1189-1193 | every triangle of a face the loop actually removes leaves a registry that held it once |
| Editor.DeleteVertexDropsFaces | Assets/Core/VrbModel.cs:1168-1197 | when no two faces holding v are neighbours, a face stays exactly when it does not hold v, and the faces holding v lose their triangles |
| Editor.DeleteVertexSkipsNeighbour | Assets/Core/VrbModel.cs:1183-1197 | with two neighbouring faces that both hold v, the second stays registered (the skipped-element quirk) |
| Editor.DeleteVertexLeavesEdit | Assets/Core/VrbModel.cs:1176 | every face holding v leaves an editing list that held it once |
| Editor.DeleteVertexShrinks | Assets/Core/VrbModel.cs:1165-1211 | `deleteVertex` only takes entries out of the editing list and the face and triangle registries |
| Editor.CascadeShrinks | Assets/Core/VrbModel.cs:1269-1275 | so does a cascade of vertex deletes |
| Editor.CascadeUnlinks | Assets/Core/VrbModel.cs:1269-1275 | a vertex of the face left unused by every triangle has no registered edge after the cascade |
| Editor.DeleteEdgeUnregisters | Assets/Core/VrbModel.cs:1247-1256 | e leaves the edge registry exactly when an endpoint is isolated once the faces bounded by e are gone; otherwise it stays (both directions) |
| Editor.DeleteEdgeKeepsOthers | Assets/Core/VrbModel.cs:1213-1257 | an edge sharing no endpoint with e keeps its registration |
| Editor.DeleteEdgeDropsFaces | Assets/Core/VrbModel.cs:1215-1244 | when no two faces bounded by e are neighbours, every face bounded by e is unregistered |
| Editor.DeleteFaceLeavesEdit | Assets/Core/VrbModel.cs:1262 | f leaves an editing list without repeats |
| Editor.DeleteFaceUnregisters | Assets/Core/VrbModel.cs:1276 | f leaves a face registry without repeats |
| Editor.DeleteFaceDropsTriangles | Assets/Core/VrbModel.cs:1264-1267 | every triangle of f leaves a triangle registry without repeats |
| Editor.DeleteFaceUnlinks | Assets/Core/VrbModel.cs:1269-1275 | every vertex of f left unused once f's triangles are gone has no registered edge afterwards |
| Editor.DeleteObjectKeepsDiagonals | Assets/Core/VrbModel.cs:1288-1292 | an edge that is not a boundary edge of o's faces, such as a face diagonal, keeps every registration |
| Editor.DeleteObjectRemoves | Assets/Core/VrbModel.cs:1279-1305 | on registries without repeats, o's face triangles, boundary edges, faces and vertices, and o itself, are all unregistered |
| Exporter.Digits | Assets/Core/VrbModel.cs:1158 | a number's decimal text is never empty |
| Exporter.DigitsRoundTrip | Assets/Core/VrbModel.cs:1158 | the digits read back as the number, and start with '0' only for 0 |
| Exporter.IntToString | Assets/Core/VrbModel.cs:1158 | an integer's text is never empty and starts with a minus sign exactly when the integer is negative |
| Exporter.IntToStringRoundTrip | Assets/Core/VrbModel.cs:1158 | an integer's text reads back as the integer, with no leading zero |
| Exporter.VertexRecords | Assets/Core/VrbModel.cs:1138-1141 | one `v` record per vertex |
| Exporter.NormalRecords | Assets/Core/VrbModel.cs:1144-1147 | one `vn` record per normal |
| Exporter.TexRecords | Assets/Core/VrbModel.cs:1150-1153 | one `vt` record per vertex |
| Exporter.FaceRecords | Assets/Core/VrbModel.cs:1156-1159 | one `f` record per index triple |
| Exporter.Records | Assets/Core/VrbModel.cs:1136-1162 | the record list has two records per vertex, one per normal, one per index triple and four blank separators |
| Exporter.Join | Assets/Core/VrbModel.cs:1136-1162 | joining records, each ended by a newline, gives at least one character per record |
| Exporter.ObjText | Assets/Core/VrbModel.cs:1136-1162 | the OBJ text has at least one line per `v`, `vt`, `vn` and `f` record plus the four blank lines |
| Exporter.SplitJoin | Assets/Core/VrbModel.cs:1136-1162 | records without newlines, each ended by a newline, read back line by line as themselves |
| Exporter.VertexLine | Assets/Core/VrbModel.cs:1138-1142 | record k is the `v` record of vertex k |
| Exporter.NormalLine | Assets/Core/VrbModel.cs:1144-1148 | after the vertices and a blank record come the `vn` records |
| Exporter.TexLine | Assets/Core/VrbModel.cs:1150-1154 | after the normals and a blank record come `vt 0.29 0.74` records, one per vertex |
| Exporter.FaceLine | Assets/Core/VrbModel.cs:1156-1160 | after the texture records and a blank record comes the `f a/a/a b/b/b c/c/c` record of each triple, each index plus 1 |
| Exporter.BlankLines | Assets/Core/VrbModel.cs:1142-1160 | each group is followed by one blank record, and there are 2|v| + |vn| + |triangles|/3 + 4 records |
| Exporter.IntToStringNoNewline | Assets/Core/VrbModel.cs:1158 | an index's text holds no newline |
| Exporter.ObjTextLines | Assets/Core/VrbModel.cs:1136-1162 | the text splits into exactly the records, in that count |
| Exporter.WriteVertices | Assets/Core/VrbModel.cs:1138-1141 | the vertex loop appends the `v` records |
| Exporter.WriteNormals | Assets/Core/VrbModel.cs:1144-1147 | the normal loop appends the `vn` records |
| Exporter.WriteTex | Assets/Core/VrbModel.cs:1150-1153 | the texture loop appends one `vt` record per vertex |
| Exporter.WriteFace | Assets/Core/VrbModel.cs:1158 | one pass of the `i += 3` loop appends the record of the next triple |
| Exporter.WriteFaces | Assets/Core/VrbModel.cs:1156-1159 | the `i += 3` loop appends one `f` record per triple |
| Exporter.WriteBlank | Assets/Core/VrbModel.cs:1142 | `Append("\n")` appends a blank record |
| Exporter.MeshToString | Assets/Core/VrbModel.cs:1130-1163 | `"####Error####"` without a mesh; otherwise the OBJ text of the mesh |
| Cube.TableSteps | Assets/Core/VrbModel.cs:1055-1066 | each corner pair of triangle n is first used by a triangle no later than n, and the pairs first used by n are among its three |
| Cube.FreshPairs | Assets/Core/VrbModel.cs:1046-1055 | before the first triangle, no corner pair of the new vertices has an edge |
| Cube.TriangleJoins | Assets/Core/VrbModel.cs:1055-1066 | after triangle n, exactly the pairs first used by triangles 0..n have edges, and the registry grew by the pairs new at n |
| Cube.AddTriangle | Assets/Core/VrbModel.cs:1055-1066 | the next triangle is appended on its table corners and resolved, and the edge registry grows by its new pairs |
| Cube.CubeVertices | Assets/Core/VrbModel.cs:1046-1053 | eight different fresh vertices p0..p7 are appended, at the half-extent corners |
| Cube.TrianglesA | Assets/Core/VrbModel.cs:1055-1057 | t0..t2 are appended and resolved, with 7 new edges |
| Cube.TrianglesB | Assets/Core/VrbModel.cs:1058-1060 | t3..t5 are appended and resolved, with 5 new edges |
| Cube.TrianglesC | Assets/Core/VrbModel.cs:1061-1063 | t6..t8 are appended and resolved, with 4 new edges |
| Cube.TrianglesD | Assets/Core/VrbModel.cs:1064-1066 | t9..t11 are appended and resolved, with 2 new edges |
| Cube.CubeTriangles | Assets/Core/VrbModel.cs:1055-1066 | the twelve triangles are appended on their table corners, each resolved, with 18 new edges |
| Cube.ResolvedJoins | Assets/Core/VrbModel.cs:189-191 | a resolved triangle's e0, e1 and e2 join its corner pairs |
| Cube.CubeQuad | Assets/Core/VrbModel.cs:1068-1096 | the two triangles of each cube face use their diagonal twice and each of four distinct outer edges once |
| Cube.FaceIsQuad | Assets/Core/VrbModel.cs:1068-1071 | a face built on a quad's two triangles has exactly the quad's four outer edges as `fEdges` |
| Cube.AddFace | Assets/Core/VrbModel.cs:1068-1071 | the new face is appended, with its distinct corners and boundary |
| Cube.AddQuadFace | Assets/Core/VrbModel.cs:1068-1071 | the new face over a quad is appended, with four boundary edges: the quad's outer edges |
| Cube.MakeFace | Assets/Core/VrbModel.cs:1073-1076 | the next face of the cube is appended as the quad over its two triangles |
| Cube.CubeFaces | Assets/Core/VrbModel.cs:1068-1096 | six faces are appended, face k over triangles 2k and 2k+1 |
| Cube.CubeFaceShape | Assets/Core/VrbModel.cs:1068-1096 | every face of the cube has 2 triangles and 4 boundary edges, each used by its triangles |
| Cube.QuadCorners | Assets/Core/VrbModel.cs:402-423 | a quad face's `fVertices` are exactly the corners of its two triangles |
| Cube.CubeVertexCount | Assets/Core/VrbModel.cs:716-725 | the cube object's vertex list has 8 entries |
| Cube.CubeEdgeCount | Assets/Core/VrbModel.cs:742-748 | the cube object's edge list has 12 entries: the box edges, without the diagonals |
| Cube.EdgesInRim | Assets/Core/VrbModel.cs:742-748 | every boundary edge of a cube face is a box edge |
| Cube.RimInEdges | Assets/Core/VrbModel.cs:742-748 | every box edge is a boundary edge of some cube face |
| Cube.RimShared | Assets/Core/VrbModel.cs:1055-1066 | a later triangle resolves the same edge as an earlier one for a shared corner pair |
| Cube.RimDistinct | Assets/Core/VrbModel.cs:1055-1066 | the twelve box edges are twelve different edges |
| Cube.CubeCounts | Assets/Core/VrbModel.cs:1100-1107 | the object over the six faces has 8 vertices, 12 edges and 12 triangles |
| Cube.CubeMesh | Assets/Core/VrbModel.cs:1046-1096 | 8 vertices, 12 triangles and 6 faces are appended, and exactly 18 edges; the whole topology is fixed |
| Cube.CreateCube | Assets/Core/VrbModel.cs:1044-1107 | as `CubeMesh`, plus one new object "Cube" at (xp, yp, zp) with 8 vertices, 12 edges and 36 position and index entries |

## Left out

- Unity engine objects and calls are not modelled. This covers `GameObject`, `Mesh`, `MeshCollider`, `Material`, `Resources.Load`, `Instantiate`/`Destroy`, `constructModel`'s scene set-up, `select`/`deSelect` colours and the mesh recalculation calls. `Destroy` is a no-op, and `constructModel` only sets the `constructed` flag.
- `move`, `rotate`, `scale` and the centroid `getPosition` are float geometry and are not modelled. Positions are exact reals (`Vec3`) and are never changed after construction.
- `createCube` halves its sizes in float arithmetic. The model uses exact real division, with no float rounding.
- `MeshToString` formats coordinates as floats. That rendering is the parameter `num`; integers are rendered exactly by `IntToString`.
- `Exporter.MeshToString`: requires an index buffer whose length is a multiple of 3. With any other length the source would index past the end of the array.
- `saveModel` writes to a file, and `openModel` is a stub that returns true; neither is modelled.
- `VrbLight` is not part of this model. Neither are the other classes and files of the project: pointer rendering, face click handling and the colour panel.
- `VrbFace.calSelf` is only called from the face constructor, so the derived face lists are constant fields computed there.
- `Editor.CollectWithVertex`: the removal from the editing object's face list runs on a local copy, which is assigned back once after the scan. The same holds for `Editor.CollectWithEdge`. The final value is the same as with the source's step-by-step updates.
- `Editor.DeleteEdge`: requires an editing object even when no face is bounded by e. The source dereferences the slot only when it removes a face.
- `Cube.CreateCube`: also returns, as ghost outputs, the vertices and triangles it registered, so that its contract can name them. Its body is split into phase methods (`CubeVertices`, `TrianglesA` to `TrianglesD`, `CubeFaces`, `CubeMesh`), which run the same constructor calls in the same order.
