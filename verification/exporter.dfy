/**
  `VrbModel.MeshToString`: the Wavefront OBJ text of a built mesh.

  The text is a list of records, each ended by a newline: one `v` record per
  vertex, a blank record, one `vn` record per normal, a blank record, one
  `vt 0.29 0.74` record per vertex, a blank record, one `f a/a/a b/b/b c/c/c`
  record per index triple with each index raised by one, and a last blank
  record. The rendering of a coordinate is left to the parameter `num`.
 */
module Exporter {
  import opened Lists
  import opened Topology

  /** The part of a built mesh the writer reads: positions, normals and the
      flat index buffer. */
  datatype Mesh = Mesh(vertices: seq<Vec3>, normals: seq<Vec3>, triangles: seq<int>)

  const ErrorText: string := "####Error####"

  // ---------------------------------------------------------------------
  // Integers as text

  function DigitChar(d: nat): char
    requires d < 10
  {
    "0123456789"[d]
  }

  /** The decimal digits of n, most significant first, with no leading zero. */
  function Digits(n: nat): (r: string)
    ensures |r| >= 1
    decreases n
  {
    if n < 10 then [DigitChar(n)] else Digits(n / 10) + [DigitChar(n % 10)]
  }

  /** `int.ToString()`: a minus sign for a negative value, then the digits. */
  function IntToString(i: int): (r: string)
    ensures |r| >= 1 && (r[0] == '-' <==> i < 0)
  {
    if i < 0 then "-" + Digits(-i) else DigitsRoundTrip(i); Digits(i)
  }

  /** The value of a string of decimal digits (a reader for `Digits`). */
  function DigitsValue(s: string): int
    decreases |s|
  {
    if s == [] then 0 else 10 * DigitsValue(s[..|s| - 1]) + (s[|s| - 1] as int - '0' as int)
  }

  /** The value of `IntToString`'s text (a reader for it). */
  function ParseInt(s: string): int {
    if |s| > 0 && s[0] == '-' then -DigitsValue(s[1..]) else DigitsValue(s)
  }

  lemma {:induction false} DigitsRoundTrip(n: nat)
    ensures DigitsValue(Digits(n)) == n
    ensures '0' <= Digits(n)[0] <= '9'
    ensures Digits(n)[0] == '0' ==> n == 0
    decreases n
  {
    if n >= 10 {
      DigitsRoundTrip(n / 10);
      var s := Digits(n / 10) + [DigitChar(n % 10)];
      assert s[..|s| - 1] == Digits(n / 10);
      assert s[0] == Digits(n / 10)[0];
    }
  }

  /** The text of an integer reads back as that integer and has no leading
      zero. */
  lemma IntToStringRoundTrip(i: int)
    ensures ParseInt(IntToString(i)) == i
    ensures IntToString(i)[0] == '0' ==> i == 0
  {
    if i < 0 {
      DigitsRoundTrip(-i);
      assert IntToString(i)[1..] == Digits(-i);
    } else {
      DigitsRoundTrip(i);
    }
  }

  // ---------------------------------------------------------------------
  // Records

  function VertexRecord(num: real -> string, p: Vec3): string {
    "v " + num(p.x) + " " + num(p.y) + " " + num(p.z)
  }

  function NormalRecord(num: real -> string, n: Vec3): string {
    "vn " + num(n.x) + " " + num(n.y) + " " + num(n.z)
  }

  const TexRecord: string := "vt 0.29 0.74"

  /** One corner of an `f` record: the 0-based index i written 1-based, three
      times, for position, texture and normal. The writer renders integers
      with `IntToString`; the record functions take the rendering as show. */
  function CornerRef(show: int -> string, i: int): string {
    var s := show(i + 1);
    s + "/" + s + "/" + s
  }

  function FaceRecord(show: int -> string, a: int, b: int, c: int): string {
    "f " + CornerRef(show, a) + " " + CornerRef(show, b) + " " + CornerRef(show, c)
  }

  function VertexRecords(num: real -> string, ps: seq<Vec3>): (r: seq<string>)
    ensures |r| == |ps|
    decreases |ps|
  {
    if ps == [] then [] else VertexRecords(num, ps[..|ps| - 1]) + [VertexRecord(num, ps[|ps| - 1])]
  }

  function NormalRecords(num: real -> string, ns: seq<Vec3>): (r: seq<string>)
    ensures |r| == |ns|
    decreases |ns|
  {
    if ns == [] then [] else NormalRecords(num, ns[..|ns| - 1]) + [NormalRecord(num, ns[|ns| - 1])]
  }

  function TexRecords(n: nat): (r: seq<string>)
    ensures |r| == n
  {
    if n == 0 then [] else TexRecords(n - 1) + [TexRecord]
  }

  /** One `f` record for each of the first n index triples of ts. */
  function FaceRecords(show: int -> string, ts: seq<int>, n: nat): (r: seq<string>)
    requires 3 * n <= |ts|
    ensures |r| == n
  {
    if n == 0 then []
    else FaceRecords(show, ts, n - 1) + [FaceRecord(show, ts[3 * n - 3], ts[3 * n - 2], ts[3 * n - 1])]
  }

  /** The four groups of records, each followed by a blank record. */
  function Records(num: real -> string, m: Mesh): (r: seq<string>)
    requires |m.triangles| % 3 == 0
    ensures |r| == 2 * |m.vertices| + |m.normals| + |m.triangles| / 3 + 4
  {
    VertexRecords(num, m.vertices) + [""] + NormalRecords(num, m.normals) + [""]
      + TexRecords(|m.vertices|) + [""] + FaceRecords(IntToString, m.triangles, |m.triangles| / 3) + [""]
  }

  /** Each record followed by a newline. */
  function Join(ls: seq<string>): (r: string)
    ensures |r| >= |ls|
    decreases |ls|
  {
    if ls == [] then "" else ls[0] + "\n" + Join(ls[1..])
  }

  /** The text of `MeshToString` for a mesh m. */
  function ObjText(num: real -> string, m: Mesh): (r: string)
    requires |m.triangles| % 3 == 0
    ensures |r| >= 2 * |m.vertices| + |m.normals| + |m.triangles| / 3 + 4
  {
    Join(Records(num, m))
  }

  /** A reader for the text: the newline-ended lines of s, without their
      newlines (a last line without one is kept as it is). */
  function SplitLines(s: string): seq<string>
    decreases |s|
  {
    if s == [] then []
    else
      var i := IndexOf(s, '\n');
      if i < 0 then [s] else [s[..i]] + SplitLines(s[i + 1..])
  }

  lemma {:induction false} JoinSnoc(ls: seq<string>, l: string)
    ensures Join(ls + [l]) == Join(ls) + l + "\n"
    decreases |ls|
  {
    if ls == [] {
      assert [l][1..] == [];
    } else {
      assert (ls + [l])[1..] == ls[1..] + [l];
      JoinSnoc(ls[1..], l);
    }
  }

  predicate NoNewline(l: string) {
    '\n' !in l
  }

  /** The first newline of l + "\n" + rest is the one after l. */
  lemma FirstNewline(l: string, rest: string)
    requires NoNewline(l)
    ensures IndexOf(l + "\n" + rest, '\n') == |l|
  {
    var s := l + "\n" + rest;
    assert s[|l|] == '\n';
    assert s[..|l|] == l;
  }

  /** Records without a newline of their own read back one line each. */
  lemma {:induction false} SplitJoin(ls: seq<string>)
    requires forall l :: l in ls ==> NoNewline(l)
    ensures SplitLines(Join(ls)) == ls
    decreases |ls|
  {
    if ls != [] {
      var l, rest := ls[0], Join(ls[1..]);
      var s := l + "\n" + rest;
      assert Join(ls) == s;
      FirstNewline(l, rest);
      assert s[..|l|] == l;
      assert s[|l| + 1..] == rest;
      assert SplitLines(s) == [l] + SplitLines(rest);
      SplitJoin(ls[1..]);
      assert [l] + ls[1..] == ls;
    }
  }

  // ---------------------------------------------------------------------
  // Layout of the text

  lemma {:induction false} VertexRecordsAt(num: real -> string, ps: seq<Vec3>, k: nat)
    requires k < |ps|
    ensures VertexRecords(num, ps)[k] == VertexRecord(num, ps[k])
    decreases |ps|
  {
    var n := |ps| - 1;
    if k < n {
      assert ps[..n][k] == ps[k];
      VertexRecordsAt(num, ps[..n], k);
    }
  }

  lemma {:induction false} NormalRecordsAt(num: real -> string, ns: seq<Vec3>, k: nat)
    requires k < |ns|
    ensures NormalRecords(num, ns)[k] == NormalRecord(num, ns[k])
    decreases |ns|
  {
    var n := |ns| - 1;
    if k < n {
      assert ns[..n][k] == ns[k];
      NormalRecordsAt(num, ns[..n], k);
    }
  }

  lemma {:induction false} TexRecordsAt(n: nat, k: nat)
    requires k < n
    ensures TexRecords(n)[k] == TexRecord
    decreases n
  {
    if k < n - 1 {
      TexRecordsAt(n - 1, k);
    }
  }

  lemma {:induction false} FaceRecordsAt(show: int -> string, ts: seq<int>, n: nat, k: nat)
    requires 3 * n <= |ts| && k < n
    ensures FaceRecords(show, ts, n)[k] == FaceRecord(show, ts[3 * k], ts[3 * k + 1], ts[3 * k + 2])
    decreases n
  {
    if k < n - 1 {
      FaceRecordsAt(show, ts, n - 1, k);
    }
  }

  /** Record k of the text is the `v` record of vertex k. */
  lemma VertexLine(num: real -> string, m: Mesh, k: nat)
    requires |m.triangles| % 3 == 0 && k < |m.vertices|
    ensures Records(num, m)[k] == VertexRecord(num, m.vertices[k])
  {
    VertexRecordsAt(num, m.vertices, k);
  }

  /** After the vertices and a blank record come the `vn` records. */
  lemma NormalLine(num: real -> string, m: Mesh, k: nat)
    requires |m.triangles| % 3 == 0 && k < |m.normals|
    ensures Records(num, m)[|m.vertices| + 1 + k] == NormalRecord(num, m.normals[k])
  {
    var a := VertexRecords(num, m.vertices) + [""];
    var b := NormalRecords(num, m.normals);
    assert Records(num, m) == a + b + ([""] + TexRecords(|m.vertices|) + [""]
                                        + FaceRecords(IntToString, m.triangles, |m.triangles| / 3) + [""]);
    NormalRecordsAt(num, m.normals, k);
  }

  /** After the normals and a blank record come one `vt` record per vertex. */
  lemma TexLine(num: real -> string, m: Mesh, k: nat)
    requires |m.triangles| % 3 == 0 && k < |m.vertices|
    ensures Records(num, m)[|m.vertices| + |m.normals| + 2 + k] == TexRecord
  {
    var a := VertexRecords(num, m.vertices) + [""] + NormalRecords(num, m.normals) + [""];
    var c := TexRecords(|m.vertices|);
    assert Records(num, m) == a + c + ([""] + FaceRecords(IntToString, m.triangles, |m.triangles| / 3) + [""]);
    TexRecordsAt(|m.vertices|, k);
  }

  /** After the texture records and a blank record comes one `f` record per
      index triple, each index written 1-based. */
  lemma FaceLine(num: real -> string, m: Mesh, k: nat)
    requires |m.triangles| % 3 == 0 && 3 * k + 3 <= |m.triangles|
    ensures Records(num, m)[2 * |m.vertices| + |m.normals| + 3 + k]
         == FaceRecord(IntToString, m.triangles[3 * k], m.triangles[3 * k + 1], m.triangles[3 * k + 2])
  {
    var f := |m.triangles| / 3;
    var a := VertexRecords(num, m.vertices) + [""] + NormalRecords(num, m.normals) + [""]
             + TexRecords(|m.vertices|) + [""];
    var d := FaceRecords(IntToString, m.triangles, f);
    assert Records(num, m) == a + d + [""];
    FaceRecordsAt(IntToString, m.triangles, f, k);
  }

  /** Each group is followed by one blank record, and the text has
      2|vertices| + |normals| + |triangles|/3 + 4 records. */
  lemma BlankLines(num: real -> string, m: Mesh)
    requires |m.triangles| % 3 == 0
    ensures var r, v, n := Records(num, m), |m.vertices|, |m.normals|;
            && |r| == 2 * v + n + |m.triangles| / 3 + 4
            && r[v] == "" && r[v + n + 1] == "" && r[2 * v + n + 2] == "" && r[|r| - 1] == ""
  {
    var a, b, c := VertexRecords(num, m.vertices), NormalRecords(num, m.normals), TexRecords(|m.vertices|);
    var d := FaceRecords(IntToString, m.triangles, |m.triangles| / 3);
    var r := Records(num, m);
    assert r == a + [""] + (b + [""] + c + [""] + d + [""]);
    assert r == (a + [""] + b) + [""] + (c + [""] + d + [""]);
    assert r == (a + [""] + b + [""] + c) + [""] + (d + [""]);
  }

  lemma {:induction false} DigitsNoNewline(n: nat)
    ensures NoNewline(Digits(n))
    decreases n
  {
    if n >= 10 {
      DigitsNoNewline(n / 10);
    }
  }

  /** The text of an integer holds no newline. */
  lemma IntToStringNoNewline(i: int)
    ensures NoNewline(IntToString(i))
  {
    if i < 0 {
      DigitsNoNewline(-i);
    } else {
      DigitsNoNewline(i);
    }
  }

  lemma {:induction false} VertexRecordsNoNewline(num: real -> string, ps: seq<Vec3>)
    requires forall x :: NoNewline(num(x))
    ensures forall l :: l in VertexRecords(num, ps) ==> NoNewline(l)
    decreases |ps|
  {
    if ps != [] {
      VertexRecordsNoNewline(num, ps[..|ps| - 1]);
    }
  }

  lemma {:induction false} NormalRecordsNoNewline(num: real -> string, ns: seq<Vec3>)
    requires forall x :: NoNewline(num(x))
    ensures forall l :: l in NormalRecords(num, ns) ==> NoNewline(l)
    decreases |ns|
  {
    if ns != [] {
      NormalRecordsNoNewline(num, ns[..|ns| - 1]);
    }
  }

  lemma {:induction false} TexRecordsNoNewline(n: nat)
    ensures forall l :: l in TexRecords(n) ==> NoNewline(l)
  {
    if n > 0 {
      TexRecordsNoNewline(n - 1);
    }
  }

  lemma {:induction false} FaceRecordsNoNewline(ts: seq<int>, n: nat)
    requires 3 * n <= |ts|
    ensures forall l :: l in FaceRecords(IntToString, ts, n) ==> NoNewline(l)
    decreases n
  {
    if n > 0 {
      FaceRecordsNoNewline(ts, n - 1);
      IntToStringNoNewline(ts[3 * n - 3] + 1);
      IntToStringNoNewline(ts[3 * n - 2] + 1);
      IntToStringNoNewline(ts[3 * n - 1] + 1);
    }
  }

  /** The text reads back, line by line, as the records of the mesh: one
      line per vertex, normal, texture record and index triple, and the
      four blank lines. */
  lemma ObjTextLines(num: real -> string, m: Mesh)
    requires |m.triangles| % 3 == 0
    requires forall x :: NoNewline(num(x))
    ensures SplitLines(ObjText(num, m)) == Records(num, m)
    ensures |SplitLines(ObjText(num, m))| == 2 * |m.vertices| + |m.normals| + |m.triangles| / 3 + 4
  {
    VertexRecordsNoNewline(num, m.vertices);
    NormalRecordsNoNewline(num, m.normals);
    TexRecordsNoNewline(|m.vertices|);
    FaceRecordsNoNewline(m.triangles, |m.triangles| / 3);
    SplitJoin(Records(num, m));
  }

  // ---------------------------------------------------------------------
  // The writer

  /** The vertex loop of `MeshToString`. */
  method WriteVertices(sb: string, ghost done: seq<string>, num: real -> string, ps: seq<Vec3>)
      returns (sb': string)
    requires sb == Join(done)
    ensures sb' == Join(done + VertexRecords(num, ps))
  {
    sb' := sb;
    assert done + VertexRecords(num, ps[..0]) == done;
    for i := 0 to |ps|
      invariant sb' == Join(done + VertexRecords(num, ps[..i]))
    {
      assert ps[..i + 1][..i] == ps[..i];
      JoinSnoc(done + VertexRecords(num, ps[..i]), VertexRecord(num, ps[i]));
      assert done + VertexRecords(num, ps[..i + 1]) == done + VertexRecords(num, ps[..i]) + [VertexRecord(num, ps[i])];
      sb' := sb' + VertexRecord(num, ps[i]) + "\n";
    }
    assert ps[..|ps|] == ps;
  }

  /** The normal loop of `MeshToString`. */
  method WriteNormals(sb: string, ghost done: seq<string>, num: real -> string, ns: seq<Vec3>)
      returns (sb': string)
    requires sb == Join(done)
    ensures sb' == Join(done + NormalRecords(num, ns))
  {
    sb' := sb;
    assert done + NormalRecords(num, ns[..0]) == done;
    for i := 0 to |ns|
      invariant sb' == Join(done + NormalRecords(num, ns[..i]))
    {
      assert ns[..i + 1][..i] == ns[..i];
      JoinSnoc(done + NormalRecords(num, ns[..i]), NormalRecord(num, ns[i]));
      assert done + NormalRecords(num, ns[..i + 1]) == done + NormalRecords(num, ns[..i]) + [NormalRecord(num, ns[i])];
      sb' := sb' + NormalRecord(num, ns[i]) + "\n";
    }
    assert ns[..|ns|] == ns;
  }

  /** The texture-coordinate loop of `MeshToString`: one fixed record per
      vertex. */
  method WriteTex(sb: string, ghost done: seq<string>, n: nat) returns (sb': string)
    requires sb == Join(done)
    ensures sb' == Join(done + TexRecords(n))
  {
    sb' := sb;
    assert done + TexRecords(0) == done;
    for i := 0 to n
      invariant sb' == Join(done + TexRecords(i))
    {
      JoinSnoc(done + TexRecords(i), TexRecord);
      assert done + TexRecords(i + 1) == done + TexRecords(i) + [TexRecord];
      sb' := sb' + TexRecord + "\n";
    }
  }

  /** One pass of the `i += 3` loop of `MeshToString`: the record of the
      triple at i = 3k. */
  method WriteFace(sb: string, ghost done: seq<string>, show: int -> string, ts: seq<int>, i: nat, ghost k: nat)
      returns (sb': string)
    requires i == 3 * k && i + 3 <= |ts|
    requires sb == Join(done + FaceRecords(show, ts, k))
    ensures sb' == Join(done + FaceRecords(show, ts, k + 1))
  {
    var l := FaceRecord(show, ts[i], ts[i + 1], ts[i + 2]);
    JoinSnoc(done + FaceRecords(show, ts, k), l);
    assert done + FaceRecords(show, ts, k + 1) == done + FaceRecords(show, ts, k) + [l];
    sb' := sb + l + "\n";
  }

  /** The `i += 3` loop of `MeshToString`. */
  method WriteFaces(sb: string, ghost done: seq<string>, show: int -> string, ts: seq<int>)
      returns (sb': string)
    requires sb == Join(done) && |ts| % 3 == 0
    ensures sb' == Join(done + FaceRecords(show, ts, |ts| / 3))
  {
    sb' := sb;
    var i := 0;
    ghost var k := 0;
    ghost var m := |ts| / 3;
    assert |ts| == 3 * m;
    assert done + FaceRecords(show, ts, 0) == done;
    while i < |ts|
      invariant i == 3 * k && k <= m && |ts| == 3 * m
      invariant sb' == Join(done + FaceRecords(show, ts, k))
    {
      sb' := WriteFace(sb', done, show, ts, i, k);
      i, k := i + 3, k + 1;
    }
  }

  /** One blank record, the `sb.Append("\n")` after each group. */
  method WriteBlank(sb: string, ghost done: seq<string>) returns (sb': string)
    requires sb == Join(done)
    ensures sb' == Join(done + [""])
  {
    JoinSnoc(done, "");
    sb' := sb + "\n";
  }

  /** `VrbModel.MeshToString(m, mats)`: the error text when there is no
      mesh, otherwise the OBJ text of the mesh. The index buffer of a mesh
      holds whole triangles. */
  method MeshToString(num: real -> string, m: Option<Mesh>) returns (s: string)
    requires m.Some? ==> |m.value.triangles| % 3 == 0
    ensures m.None? ==> s == ErrorText
    ensures m.Some? ==> s == ObjText(num, m.value)
  {
    if m.None? {
      return ErrorText;
    }
    var mesh := m.value;
    var vr := VertexRecords(num, mesh.vertices);
    var nr := NormalRecords(num, mesh.normals);
    var tr := TexRecords(|mesh.vertices|);
    s := "";
    assert s == Join([]);
    s := WriteVertices(s, [], num, mesh.vertices);
    assert [] + vr == vr;
    s := WriteBlank(s, vr);
    s := WriteNormals(s, vr + [""], num, mesh.normals);
    s := WriteBlank(s, vr + [""] + nr);
    s := WriteTex(s, vr + [""] + nr + [""], |mesh.vertices|);
    s := WriteBlank(s, vr + [""] + nr + [""] + tr);
    s := WriteFaces(s, vr + [""] + nr + [""] + tr + [""], IntToString, mesh.triangles);
    s := WriteBlank(s, vr + [""] + nr + [""] + tr + [""] + FaceRecords(IntToString, mesh.triangles, |mesh.triangles| / 3));
  }
}
