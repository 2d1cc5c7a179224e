# Flat-lit mesh ingestion, modelled in Dafny

This project models the non-graphics core of the flat-shaded lighting demo
(`assignment5/LightingFlat/index.js`). That core is:

- the Wavefront OBJ reader `ParseObj`, which keeps only `v` and `f` records;
- `FlattenIndexedAttribute`, the 1-based index gather that turns an indexed mesh into one entry per triangle corner;
- the start-up loop that computes one normal per triangle and writes it to all three corners;
- the loop that zero-pads the shininess label to three characters;
- the global `keys` table, written by the keydown/keyup handlers and read by `KeyIsPressed`.

JavaScript semantics are written out explicitly:

- `undefined` is `Option.None`. Reading past the end of an array, or at a bad index, gives `None`.
- `parseInt` yields `Num`, which is `NaN` or `Int(value)`.
- `String.prototype.split` with a one-character separator is `Text.Split`. It is proved to be inverted by `Join`.
- JavaScript's `parseInt` without a radix is modelled concretely as `JsNumbers.ParseInt`. It skips leading white space, reads a sign, takes a `0x`/`0X` prefix as radix 16, then reads the longest digit run, and gives `NaN` when there are no digits.
- `parseFloat` and MV.js's `subtract`/`cross`/`normalize` chain are uninterpreted. They are passed in as function parameters.

Each imperative piece of the source is a Dafny `method` with the same loop. It is proved equal to a specification function, and lemmas then prove the promised properties of that function.

- `ParseObj` is generic in both conversions. Its lemmas hold for any `parseInt`. `MeshPipeline` plugs in the concrete `JsNumbers.ParseInt` to work the one-triangle example.
- The global `keys` object is a `KeyTable` class with a `map<string, bool>` field and one method per handler. `KeyIsPressed` reads that map.

In two places a reader might expect an explicit error, and the code has none. The model follows the code:

- An index out of range in `FlattenIndexedAttribute` is not an error. It reads `undefined`, and the model gives `None`.
- A face line with fewer than three index tokens still pushes three values. Missing tokens are read as `undefined` and become `NaN`.

## Model

| member | source | states |
|---|---|---|
| Text.Split | assignment5/LightingFlat/index.js:15 | `split` gives at least one piece and no piece contains the separator |
| Text.JoinSplit | assignment5/LightingFlat/index.js:15 | joining the pieces from `split('\n')` with the separator gives back the original text |
| Text.SplitJoin | assignment5/LightingFlat/index.js:21 | splitting a join of separator-free pieces gives back exactly those pieces |
| Text.SplitCount | assignment5/LightingFlat/index.js:21 | `split` yields one more piece than there are separators |
| JsNumbers.ParseInt | assignment5/LightingFlat/index.js:30-32 | `parseInt` of `undefined` (a face token that is missing) is `NaN` |
| JsNumbers.ParseIntDecimal | assignment5/LightingFlat/index.js:30-32 | the modelled `parseInt` reads the decimal numeral of any natural `n` back as `n` (JavaScript's loss of precision above 2^53 is left out, see `JsNumbers.ParseInt` under "## Left out") |
| JsNumbers.DecimalPrefix | assignment5/LightingFlat/index.js:30-32 | `parseInt` reads a leading digit run and ignores a following `/...` (an OBJ `v/vt/vn` slot gives its vertex number) |
| JsNumbers.ParseIntNoDigits | assignment5/LightingFlat/index.js:30-32 | `parseInt(undefined)` and `parseInt("")` are `NaN` |
| ObjParser.ParseObj | assignment5/LightingFlat/index.js:13-39 | the loop's vertex and index lists equal the line-by-line specification `VerticesOf`/`IndicesOf` of the text's `'\n'`-separated lines |
| ObjParser.OneVertexPerVertexLine | assignment5/LightingFlat/index.js:19-28 | exactly one vertex per line whose first `' '`-token is `v`, in order of appearance, built from tokens 1-3; other lines add no vertex |
| ObjParser.IndicesCount | assignment5/LightingFlat/index.js:29-36 | the index list has exactly three entries per line whose first token is `f` |
| ObjParser.ThreeIndicesPerFaceLine | assignment5/LightingFlat/index.js:29-36 | entries 3k..3k+2 are the k-th `f` line's tokens 1, 2, 3 through `parseInt`, even when tokens are missing or malformed |
| ObjParser.FaceIndexAt | assignment5/LightingFlat/index.js:30-35 | index 3k+j is token j+1 of the k-th `f` line through `parseInt` |
| ObjParser.EmptyInput | assignment5/LightingFlat/index.js:15-38 | empty text yields empty vertex and index lists |
| Flatten.At | assignment5/LightingFlat/index.js:44-45 | `attribute[index - 1]` is defined exactly when the index is an integer between 1 and the list length |
| Flatten.FlattenIndexedAttribute | assignment5/LightingFlat/index.js:41-49 | output length equals `indices.length`; entry i is defined iff index i is in range, and is then `attribute[indices[i]-1]` |
| Flatten.InRangeGather | assignment5/LightingFlat/index.js:43-46 | when every index is in range, every entry is `attribute[indices[i]-1]` and none is `undefined` |
| Flatten.OutOfRangeIsUndefined | assignment5/LightingFlat/index.js:44-45 | index 99, 0 or `NaN` over three vertices reads `undefined` rather than failing |
| FlatNormals.ComputeFlatNormals | assignment5/LightingFlat/index.js:81-96 | the `i += 3` loop pushes exactly the specification stream `NormalsFrom(positions, 0)` |
| FlatNormals.NormalsFromFace | assignment5/LightingFlat/index.js:82-96 | from face k on, the stream has 3 entries per remaining face and slice 3f..3f+2 is face f's normal three times |
| FlatNormals.NormalsLength | assignment5/LightingFlat/index.js:82 | the normal stream is `positions.length` rounded up to a multiple of 3, so equal to it when that is a multiple of 3 |
| FlatNormals.NormalsLengthFaces | assignment5/LightingFlat/index.js:82 | for `3F` positions the normal stream has exactly `3F` entries |
| FlatNormals.NormalsTriplicated | assignment5/LightingFlat/index.js:93-95 | normals 3k, 3k+1, 3k+2 all equal the normal of positions 3k, 3k+1, 3k+2 |
| FlatNormals.NormalsLocal | assignment5/LightingFlat/index.js:83-91 | face k's three normals depend only on positions 3k, 3k+1, 3k+2 |
| Shininess.ZeroPadShape | assignment5/LightingFlat/index.js:281-286 | the padded string has length max(3, length of `s`), ends with `s`, has only zeros before it, and is `s` itself when `s` has 3 or more characters |
| Shininess.PadShininess | assignment5/LightingFlat/index.js:281-286 | the `for (i = s.length; i < 3; i++) s = "0" + s` loop yields `ZeroPad(s)` |
| Shininess.ShininessFiveLabel | assignment5/LightingFlat/index.js:281-286 | the value string "5" pads to "005" and labels as `Material Shininess (005):` |
| Keys.KeyIsPressed | assignment5/LightingFlat/index.js:5-11 | true iff the table holds an entry for the code and that entry is true; a missing code yields false |
| Keys.Apply | assignment5/LightingFlat/index.js:293-299 | after keydown the code reads pressed, after keyup not; every other entry is unchanged |
| Keys.PressedAfterEvents | assignment5/LightingFlat/index.js:293-299 | after any event sequence a code reads pressed iff its last event was keydown; codes no event names keep their state |
| Keys.KeyTable.constructor | assignment5/LightingFlat/index.js:3 | `keys = {}` starts empty, so no code reads pressed |
| Keys.KeyTable.OnKeyDown | assignment5/LightingFlat/index.js:293-295 | the table becomes `old(keys)[code := true]`; the code reads pressed and no other code's reading changes |
| Keys.KeyTable.OnKeyUp | assignment5/LightingFlat/index.js:297-299 | the table becomes `old(keys)[code := false]`; the code reads released and no other code's reading changes |
| Keys.KeyIsPressedAsWritten | assignment5/LightingFlat/index.js:5-11 | the code as written agrees with the table lookup for every code that is not an `Object.prototype` property name, and always reads `__proto__` as pressed |
| Keys.InheritedNameReadsAsPressed | assignment5/LightingFlat/index.js:3-11 | with an empty table, `KeyIsPressed("toString")` and `KeyIsPressed("__proto__")` as written are true while the table lookup is false; a keyup for `__proto__` leaves it reading pressed |
| MeshPipeline.StreamLengths | assignment5/LightingFlat/index.js:68-96 | with F `f` lines, the flattened positions and the normal stream both have exactly 3F entries |
| MeshPipeline.FaceCorners | assignment5/LightingFlat/index.js:72-77 | for any vertex list as long as the parsed one (e.g. the rescaled list), when all indices are in range, corner 3k+j is the vertex named by token j+1 of the k-th `f` line |
| MeshPipeline.TriangleParse | assignment5/LightingFlat/index.js:13-39 | `"v 0 0 0\nv 1 0 0\nv 0 1 0\nf 1 2 3\n"` parses to those three points and the indices 1, 2, 3 |
| MeshPipeline.TriangleStreams | assignment5/LightingFlat/index.js:77-96 | flattening three vertices by 1, 2, 3 gives them in order, and the three normals are that triangle's normal |

## Left out

- WebGL calls are left out: canvas, shader and buffer setup, uniform uploads, `drawArrays` and the `requestAnimationFrame` render loop (lines 100-201). They are calls into a graphics API.
- The matrix composition (`translate`, `rotateX`/`rotateY`, `perspective`, `inverse`, `mult`), mouse-drag rotation (lines 203-212) and the light × material products are left out. They are floating-point math from MV.js, which is not part of this model.
- The vertex rescaling loop (lines 72-75) is left out because it is float math. `MeshPipeline.StreamLengths` takes the vertex list as a parameter, so it covers the rescaled list too.
- The diffuse and specular slider handlers (lines 230-254) are left out. They are DOM label writes with `toFixed(2)` formatting.
- Writing the shininess label into the page is left out.
- `parseFloat` is uninterpreted: the model takes it as a parameter.
- `String(materialShininess)` is uninterpreted: `PadShininess` starts from the string it yields.
- FlatNormals.ComputeFlatNormals: `subtract`/`cross`/`normalize` are one uninterpreted function `normalOf` of the three corners. So the model does not say whether MV.js throws when a corner is `undefined`, or what a degenerate triangle gives.
- JsNumbers.ParseInt: it does not model the precision loss of numerals above 2^53. It also does not keep the sign of `-0`, which only ever meets `- 1` in the modelled code.
- Keys.KeyTable.OnKeyDown: it does not model that JavaScript's prototype setter ignores `keys["__proto__"] = true`. Keyboard `code` values never take that name.
- Keys.KeyTable.OnKeyUp: it does not model that `keys["__proto__"] = false` is ignored too, so the code as written still reads `__proto__` as pressed where this member says released. `Keys.KeyIsPressedAsWritten` captures the as-written reading.
- Keys.Apply: it does not model the ignored `__proto__` writes of either handler, for the same reason.
- Keys.PressedAfterEvents: it inherits that gap from `Keys.Apply`; for `__proto__` its "released after a last keyup" does not hold of the code as written.
- `assignment5/Texture/index.js` is not part of this model. Its `KeyIsPressed` and key handlers are the same text as the ones modelled here. The rest of that file is WebGL and image loading.

## Findings

| source | as written | input that shows it | evidently intended | confidence | as-written member | corrected member |
|---|---|---|---|---|---|---|
| assignment5/LightingFlat/index.js:3-11 | `keys` is a plain `{}`, so `keys[code]` also finds names inherited from `Object.prototype`. `__proto__` reads `Object.prototype` itself and the other names read functions; all of them are truthy | `KeyIsPressed("toString")` or `KeyIsPressed("__proto__")` with no key ever pressed returns true | a code with no keydown or keyup entry reads as not pressed (the `typeof pressed !== "undefined"` test) | medium, not executed; real `KeyboardEvent.code` values never collide with these names | Keys.InheritedNameReadsAsPressed | Keys.KeyIsPressed |
