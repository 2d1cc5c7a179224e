/** `ParseObj`: the `v` and `f` records of a Wavefront OBJ text. */
module ObjParser {
  import opened JsValues
  import opened Text

  /** `vec3(x, y, z)` over whatever number type `parseFloat` yields. */
  datatype Vec3<R> = Vec3(x: R, y: R, z: R)

  /** The lines of the text: split on '\n' only. */
  function Lines(objString: string): seq<string>
  {
    Split(objString, '\n')
  }

  /** The tokens of a line: split on a single ' '. */
  function Tokens(line: string): seq<string>
  {
    Split(line, ' ')
  }

  /** `tokens[k]`, which is `undefined` past the end. */
  function Field(tokens: seq<string>, k: nat): Option<string>
  {
    if k < |tokens| then Some(tokens[k]) else None
  }

  predicate IsVertexLine(line: string)
  {
    Tokens(line)[0] == "v"
  }

  predicate IsFaceLine(line: string)
  {
    Tokens(line)[0] == "f"
  }

  /** The vertex a `v` line contributes: tokens 1 to 3 through `parseFloat`. */
  function LineVertex<R>(line: string, parseFloat: Option<string> -> R): Vec3<R>
  {
    var t := Tokens(line);
    Vec3(parseFloat(Field(t, 1)), parseFloat(Field(t, 2)), parseFloat(Field(t, 3)))
  }

  /** The three indices an `f` line contributes: tokens 1 to 3 through `parseInt`. */
  function LineIndices(line: string, parseInt: Option<string> -> Num): seq<Num>
  {
    var t := Tokens(line);
    [parseInt(Field(t, 1)), parseInt(Field(t, 2)), parseInt(Field(t, 3))]
  }

  /** The vertex list after the loop has read `lines`. */
  function VerticesOf<R>(lines: seq<string>, parseFloat: Option<string> -> R): seq<Vec3<R>>
  {
    if |lines| == 0 then []
    else
      var last := lines[|lines| - 1];
      VerticesOf(lines[..|lines| - 1], parseFloat)
        + (if IsVertexLine(last) then [LineVertex(last, parseFloat)] else [])
  }

  /** The index list after the loop has read `lines`. */
  function IndicesOf(lines: seq<string>, parseInt: Option<string> -> Num): seq<Num>
  {
    if |lines| == 0 then []
    else
      var last := lines[|lines| - 1];
      IndicesOf(lines[..|lines| - 1], parseInt)
        + (if IsVertexLine(last) then [] else if IsFaceLine(last) then LineIndices(last, parseInt) else [])
  }

  /** The `v` lines, in order of appearance (reference definition). */
  function VertexLines(lines: seq<string>): (vs: seq<string>)
    ensures forall k :: 0 <= k < |vs| ==> IsVertexLine(vs[k])
  {
    if |lines| == 0 then []
    else (if IsVertexLine(lines[0]) then [lines[0]] else []) + VertexLines(lines[1..])
  }

  /** The `f` lines, in order of appearance (reference definition). */
  function FaceLines(lines: seq<string>): (fs: seq<string>)
    ensures forall k :: 0 <= k < |fs| ==> IsFaceLine(fs[k])
  {
    if |lines| == 0 then []
    else (if IsFaceLine(lines[0]) then [lines[0]] else []) + FaceLines(lines[1..])
  }

  /** `ParseObj(objString)`: returns `[vertices, indices]`. */
  method ParseObj<R>(objString: string, parseFloat: Option<string> -> R, parseInt: Option<string> -> Num)
    returns (vertices: seq<Vec3<R>>, indices: seq<Num>)
    ensures vertices == VerticesOf(Lines(objString), parseFloat)
    ensures indices == IndicesOf(Lines(objString), parseInt)
  {
    var lines := Split(objString, '\n');
    vertices := [];
    indices := [];
    var i := 0;
    while i < |lines|
      invariant 0 <= i <= |lines|
      invariant vertices == VerticesOf(lines[..i], parseFloat)
      invariant indices == IndicesOf(lines[..i], parseInt)
    {
      var line := Split(lines[i], ' ');
      PrefixStep(lines, i, parseFloat, parseInt);
      if line[0] == "v" {
        var x := parseFloat(Field(line, 1));
        var y := parseFloat(Field(line, 2));
        var z := parseFloat(Field(line, 3));
        assert Vec3(x, y, z) == LineVertex(lines[i], parseFloat);
        vertices := vertices + [Vec3(x, y, z)];
        assert IsVertexLine(lines[i]);
      } else if line[0] == "f" {
        var i1 := parseInt(Field(line, 1));
        var i2 := parseInt(Field(line, 2));
        var i3 := parseInt(Field(line, 3));
        assert [i1, i2, i3] == LineIndices(lines[i], parseInt);
        indices := indices + [i1];
        indices := indices + [i2];
        indices := indices + [i3];
        assert indices == IndicesOf(lines[..i], parseInt) + LineIndices(lines[i], parseInt);
      }
      i := i + 1;
    }
    assert lines[..i] == lines;
  }

  /** What reading line `i` adds to both lists. */
  lemma PrefixStep<R>(lines: seq<string>, i: nat, parseFloat: Option<string> -> R, parseInt: Option<string> -> Num)
    requires i < |lines|
    ensures VerticesOf(lines[..i + 1], parseFloat)
      == VerticesOf(lines[..i], parseFloat) + (if IsVertexLine(lines[i]) then [LineVertex(lines[i], parseFloat)] else [])
    ensures IndicesOf(lines[..i + 1], parseInt)
      == IndicesOf(lines[..i], parseInt)
        + (if IsVertexLine(lines[i]) then [] else if IsFaceLine(lines[i]) then LineIndices(lines[i], parseInt) else [])
  {
    assert lines[..i + 1][..i] == lines[..i];
  }

  lemma {:induction false} VertexLinesAppend(lines: seq<string>, line: string)
    ensures VertexLines(lines + [line]) == VertexLines(lines) + (if IsVertexLine(line) then [line] else [])
  {
    if |lines| > 0 {
      assert (lines + [line])[1..] == lines[1..] + [line];
      VertexLinesAppend(lines[1..], line);
    } else {
      assert [] + [line] == [line];
    }
  }

  lemma {:induction false} FaceLinesAppend(lines: seq<string>, line: string)
    ensures FaceLines(lines + [line]) == FaceLines(lines) + (if IsFaceLine(line) then [line] else [])
  {
    if |lines| > 0 {
      assert (lines + [line])[1..] == lines[1..] + [line];
      FaceLinesAppend(lines[1..], line);
    } else {
      assert [] + [line] == [line];
    }
  }

  /** The parser yields exactly one vertex per `v` line, in order, built
      from that line's tokens 1 to 3; no other line contributes a vertex. */
  lemma {:induction false} OneVertexPerVertexLine<R>(lines: seq<string>, parseFloat: Option<string> -> R)
    ensures |VerticesOf(lines, parseFloat)| == |VertexLines(lines)|
    ensures forall k :: 0 <= k < |VertexLines(lines)| ==>
      VerticesOf(lines, parseFloat)[k] == LineVertex(VertexLines(lines)[k], parseFloat)
  {
    if |lines| > 0 {
      var init, last := lines[..|lines| - 1], lines[|lines| - 1];
      OneVertexPerVertexLine(init, parseFloat);
      assert init + [last] == lines;
      VertexLinesAppend(init, last);
    }
  }

  /** Three indices per `f` line, and none from any other line. */
  lemma IndicesCount(lines: seq<string>, parseInt: Option<string> -> Num)
    ensures |IndicesOf(lines, parseInt)| == 3 * |FaceLines(lines)|
  {
    ThreeIndicesPerFaceLine(lines, parseInt);
  }

  /** The parser yields exactly three indices per `f` line: positions
      3k, 3k+1, 3k+2 hold the `k`-th face line's tokens 1, 2, 3 through
      `parseInt`, whether or not those tokens are present or numeric. */
  lemma {:induction false} ThreeIndicesPerFaceLine(lines: seq<string>, parseInt: Option<string> -> Num)
    ensures |IndicesOf(lines, parseInt)| == 3 * |FaceLines(lines)|
    ensures forall k :: 0 <= k < |FaceLines(lines)| ==>
      IndicesOf(lines, parseInt)[3 * k..3 * k + 3] == LineIndices(FaceLines(lines)[k], parseInt)
  {
    if |lines| > 0 {
      var init, last := lines[..|lines| - 1], lines[|lines| - 1];
      ThreeIndicesPerFaceLine(init, parseInt);
      assert init + [last] == lines;
      FaceLinesAppend(init, last);
      var ind, faces := IndicesOf(init, parseInt), FaceLines(init);
      if IsFaceLine(last) {
        assert IndicesOf(lines, parseInt) == ind + LineIndices(last, parseInt);
        assert FaceLines(lines) == faces + [last];
        forall k | 0 <= k < |FaceLines(lines)|
          ensures IndicesOf(lines, parseInt)[3 * k..3 * k + 3] == LineIndices(FaceLines(lines)[k], parseInt)
        {
          if k < |faces| {
            assert IndicesOf(lines, parseInt)[3 * k..3 * k + 3] == ind[3 * k..3 * k + 3];
          } else {
            assert IndicesOf(lines, parseInt)[3 * k..3 * k + 3] == LineIndices(last, parseInt);
          }
        }
      } else {
        assert IndicesOf(lines, parseInt) == ind;
        assert FaceLines(lines) == faces;
      }
    }
  }

  /** The same property, one index at a time: index `3k + j` is token
      `j + 1` of the `k`-th face line. */
  lemma FaceIndexAt(lines: seq<string>, parseInt: Option<string> -> Num, k: nat, j: nat)
    requires k < |FaceLines(lines)| && j < 3
    ensures 3 * k + j < |IndicesOf(lines, parseInt)|
    ensures IndicesOf(lines, parseInt)[3 * k + j] == parseInt(Field(Tokens(FaceLines(lines)[k]), j + 1))
  {
    ThreeIndicesPerFaceLine(lines, parseInt);
    assert IndicesOf(lines, parseInt)[3 * k + j] == IndicesOf(lines, parseInt)[3 * k..3 * k + 3][j];
  }

  /** Empty input gives empty vertex and index lists. */
  lemma EmptyInput<R>(parseFloat: Option<string> -> R, parseInt: Option<string> -> Num)
    ensures VerticesOf(Lines(""), parseFloat) == []
    ensures IndicesOf(Lines(""), parseInt) == []
  {
    assert Lines("") == [""];
    assert Tokens("") == [""];
    assert [""][..0] == [];
  }
}
