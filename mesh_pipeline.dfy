/** The start-up pipeline of the flat-lit demo: parse, flatten by index,
    then compute one normal per triangle. */
module MeshPipeline {
  import opened JsValues
  import opened Text
  import opened JsNumbers
  import opened ObjParser
  import opened Flatten
  import opened FlatNormals

  /** With `F` face lines, the flattened position stream holds `3F`
      entries and so does the normal stream, the normal of face `k` sitting
      at corners `3k` to `3k+2`. `vertices` is the parsed vertex list after
      any per-vertex rescaling, which keeps its length. */
  lemma StreamLengths<R, N>(objString: string, parseInt: Option<string> -> Num, vertices: seq<Vec3<R>>,
                            normalOf: (Option<Vec3<R>>, Option<Vec3<R>>, Option<Vec3<R>>) -> N)
    ensures var lines := Lines(objString);
      var positions := Flattened(vertices, IndicesOf(lines, parseInt));
      && |positions| == 3 * |FaceLines(lines)|
      && |NormalsFrom(positions, normalOf, 0)| == |positions|
  {
    var lines := Lines(objString);
    var indices := IndicesOf(lines, parseInt);
    IndicesCount(lines, parseInt);
    var positions := Flattened(vertices, indices);
    assert |positions| == 3 * |FaceLines(lines)|;
    NormalsLengthFaces(positions, normalOf, |FaceLines(lines)|);
  }

  /** When every face index names a parsed vertex, no position is `undefined`
      and face `k`'s corners are the vertices its `f` line names. `vertices`
      is the parsed vertex list after any per-vertex rescaling, which keeps
      its length. */
  lemma FaceCorners<R>(objString: string, parseFloat: Option<string> -> R, parseInt: Option<string> -> Num,
                       vertices: seq<Vec3<R>>, k: nat, j: nat)
    requires |vertices| == |VerticesOf(Lines(objString), parseFloat)|
    requires AllInRange(IndicesOf(Lines(objString), parseInt), |vertices|)
    requires k < |FaceLines(Lines(objString))| && j < 3
    ensures var lines := Lines(objString);
      var index := parseInt(Field(Tokens(FaceLines(lines)[k]), j + 1));
      && 3 * k + j < |Flattened(vertices, IndicesOf(lines, parseInt))|
      && index.Int? && 1 <= index.value <= |vertices|
      && Flattened(vertices, IndicesOf(lines, parseInt))[3 * k + j] == Some(vertices[index.value - 1])
  {
    var lines := Lines(objString);
    var indices := IndicesOf(lines, parseInt);
    FaceIndexAt(lines, parseInt, k, j);
    var m := 3 * k + j;
    assert IndexInRange(indices[m], |vertices|);
    assert Flattened(vertices, indices)[m] == At(vertices, indices[m]);
  }

  /** The text of a one-triangle mesh. */
  const Triangle: string := "v 0 0 0\nv 1 0 0\nv 0 1 0\nf 1 2 3\n"

  /** The lines of `Triangle`. */
  const TriangleLines: seq<string> := ["v 0 0 0", "v 1 0 0", "v 0 1 0", "f 1 2 3", ""]

  lemma TriangleSplit()
    ensures Lines(Triangle) == TriangleLines
  {
    assert Join(TriangleLines, '\n') == Triangle;
    SplitJoin(TriangleLines, '\n');
  }

  /** A line of four space-free tokens separated by single spaces splits
      into exactly those tokens. */
  lemma FourTokens(a: string, b: string, c: string, d: string)
    requires ' ' !in a && ' ' !in b && ' ' !in c && ' ' !in d
    ensures Tokens(a + " " + b + " " + c + " " + d) == [a, b, c, d]
  {
    var parts := [a, b, c, d];
    assert parts[1..] == [b, c, d] && parts[1..][1..] == [c, d] && parts[1..][1..][1..] == [d];
    assert Join([c, d], ' ') == c + " " + d;
    assert Join([b, c, d], ' ') == b + " " + (c + " " + d);
    assert Join(parts, ' ') == a + " " + (b + " " + (c + " " + d));
    assert a + " " + (b + " " + (c + " " + d)) == a + " " + b + " " + c + " " + d;
    SplitJoin(parts, ' ');
  }

  /** The tokens of the four record lines of `Triangle`. */
  lemma TriangleTokens()
    ensures Tokens("v 0 0 0") == ["v", "0", "0", "0"]
    ensures Tokens("v 1 0 0") == ["v", "1", "0", "0"]
    ensures Tokens("v 0 1 0") == ["v", "0", "1", "0"]
    ensures Tokens("f 1 2 3") == ["f", "1", "2", "3"]
  {
    FourTokens("v", "0", "0", "0");
    assert "v" + " " + "0" + " " + "0" + " " + "0" == "v 0 0 0";
    FourTokens("v", "1", "0", "0");
    assert "v" + " " + "1" + " " + "0" + " " + "0" == "v 1 0 0";
    FourTokens("v", "0", "1", "0");
    assert "v" + " " + "0" + " " + "1" + " " + "0" == "v 0 1 0";
    FourTokens("f", "1", "2", "3");
    assert "f" + " " + "1" + " " + "2" + " " + "3" == "f 1 2 3";
  }

  /** Three vertex lines, a face line and a blank line parse to three
      vertices and that face's three indices. */
  lemma ParseFiveLines<R>(l0: string, l1: string, l2: string, l3: string, l4: string,
                          parseFloat: Option<string> -> R, parseInt: Option<string> -> Num)
    requires IsVertexLine(l0) && IsVertexLine(l1) && IsVertexLine(l2)
    requires IsFaceLine(l3) && !IsVertexLine(l3)
    requires !IsVertexLine(l4) && !IsFaceLine(l4)
    ensures VerticesOf([l0, l1, l2, l3, l4], parseFloat)
      == [LineVertex(l0, parseFloat), LineVertex(l1, parseFloat), LineVertex(l2, parseFloat)]
    ensures IndicesOf([l0, l1, l2, l3, l4], parseInt) == LineIndices(l3, parseInt)
  {
    var p5 := [l0, l1, l2, l3, l4];
    assert p5[..4] == [l0, l1, l2, l3];
    assert [l0, l1, l2, l3][..3] == [l0, l1, l2];
    assert [l0, l1, l2][..2] == [l0, l1];
    assert [l0, l1][..1] == [l0];
    assert [l0][..0] == [];
    var v0, v1, v2 := LineVertex(l0, parseFloat), LineVertex(l1, parseFloat), LineVertex(l2, parseFloat);
    assert VerticesOf([l0], parseFloat) == [v0];
    assert VerticesOf([l0, l1], parseFloat) == [v0, v1];
    assert VerticesOf([l0, l1, l2], parseFloat) == [v0, v1, v2];
    assert VerticesOf([l0, l1, l2, l3], parseFloat) == [v0, v1, v2];
    assert IndicesOf([l0], parseInt) == [];
    assert IndicesOf([l0, l1], parseInt) == [];
    assert IndicesOf([l0, l1, l2], parseInt) == [];
    assert IndicesOf([l0, l1, l2, l3], parseInt) == LineIndices(l3, parseInt);
  }

  /** The lines of `Triangle` and the records they hold. */
  lemma TriangleRecords<R>(parseFloat: Option<string> -> R, parseInt: Option<string> -> Num)
    ensures var zero, one := parseFloat(Some("0")), parseFloat(Some("1"));
      && VerticesOf(TriangleLines, parseFloat) == [Vec3(zero, zero, zero), Vec3(one, zero, zero), Vec3(zero, one, zero)]
      && IndicesOf(TriangleLines, parseInt) == [parseInt(Some("1")), parseInt(Some("2")), parseInt(Some("3"))]
  {
    TriangleTokens();
    assert Tokens("") == [""];
    ParseFiveLines("v 0 0 0", "v 1 0 0", "v 0 1 0", "f 1 2 3", "", parseFloat, parseInt);
  }

  /** Flattening the triangle's vertices by 1, 2, 3 yields them in order, and
      the normal stream repeats that triangle's normal three times. */
  lemma TriangleStreams<V, N>(vertices: seq<V>, normalOf: (Option<V>, Option<V>, Option<V>) -> N)
    requires |vertices| == 3
    ensures var positions := [Some(vertices[0]), Some(vertices[1]), Some(vertices[2])];
      && Flattened(vertices, [Int(1), Int(2), Int(3)]) == positions
      && NormalsFrom(positions, normalOf, 0) == Triple(normalOf(positions[0], positions[1], positions[2]))
  {
    var positions := [Some(vertices[0]), Some(vertices[1]), Some(vertices[2])];
    assert NormalsFrom(positions, normalOf, 3) == [];
  }

  /** The one-triangle mesh `"v 0 0 0\nv 1 0 0\nv 0 1 0\nf 1 2 3\n"`
      parses to the three points and, with JavaScript's `parseInt`, the
      indices 1, 2, 3. */
  lemma TriangleParse<R>(parseFloat: Option<string> -> R)
    ensures var zero, one := parseFloat(Some("0")), parseFloat(Some("1"));
      && VerticesOf(Lines(Triangle), parseFloat) == [Vec3(zero, zero, zero), Vec3(one, zero, zero), Vec3(zero, one, zero)]
      && IndicesOf(Lines(Triangle), ParseInt) == [Int(1), Int(2), Int(3)]
  {
    TriangleSplit();
    TriangleRecords(parseFloat, ParseInt);
    ParseIntDecimal(1);
    ParseIntDecimal(2);
    ParseIntDecimal(3);
    assert DecimalString(1) == "1" && DecimalString(2) == "2" && DecimalString(3) == "3";
  }
}
