/** `FlattenIndexedAttribute`: gather per-vertex attributes through 1-based indices. */
module Flatten {
  import opened JsValues

  /** Whether `index` names an entry of a list of length `n` once made 0-based. */
  predicate IndexInRange(index: Num, n: nat)
  {
    index.Int? && 1 <= index.value <= n
  }

  /** `attribute[index - 1]`: `undefined` for `NaN`, for 0 and below, and
      past the end of the list. */
  function At<A>(attribute: seq<A>, index: Num): (a: Option<A>)
    ensures a.Some? <==> IndexInRange(index, |attribute|)
  {
    match index
    case NaN => None
    case Int(k) => if 0 <= k - 1 < |attribute| then Some(attribute[k - 1]) else None
  }

  /** The flattened stream, one entry per index. */
  function Flattened<A>(attribute: seq<A>, indices: seq<Num>): (flat: seq<Option<A>>)
    ensures |flat| == |indices|
  {
    seq(|indices|, i requires 0 <= i < |indices| => At(attribute, indices[i]))
  }

  /** Every index names an entry of a list of length `n`. */
  predicate AllInRange(indices: seq<Num>, n: nat)
  {
    forall i :: 0 <= i < |indices| ==> IndexInRange(indices[i], n)
  }

  /** `FlattenIndexedAttribute(attribute, indices)`. */
  method FlattenIndexedAttribute<A>(attribute: seq<A>, indices: seq<Num>) returns (flat: seq<Option<A>>)
    ensures flat == Flattened(attribute, indices)
    ensures |flat| == |indices|
    ensures forall i :: 0 <= i < |indices| ==>
      (flat[i].Some? <==> IndexInRange(indices[i], |attribute|))
    ensures forall i :: 0 <= i < |indices| && IndexInRange(indices[i], |attribute|) ==>
      flat[i] == Some(attribute[indices[i].value - 1])
  {
    flat := [];
    var i := 0;
    while i < |indices|
      invariant 0 <= i <= |indices|
      invariant flat == Flattened(attribute, indices[..i])
    {
      var a: Option<A>;
      match indices[i] {
        case NaN =>
          a := None;
        case Int(k) =>
          var aIndex := k - 1;
          a := if 0 <= aIndex < |attribute| then Some(attribute[aIndex]) else None;
      }
      flat := flat + [a];
      assert indices[..i + 1] == indices[..i] + [indices[i]];
      i := i + 1;
    }
    assert indices[..i] == indices;
  }

  /** When every index is in range, the flattened stream holds exactly
      `attribute[indices[i] - 1]` at each position and no `undefined`. */
  lemma InRangeGather<A>(attribute: seq<A>, indices: seq<Num>)
    requires AllInRange(indices, |attribute|)
    ensures forall i :: 0 <= i < |indices| ==>
      Flattened(attribute, indices)[i] == Some(attribute[indices[i].value - 1])
  {
  }

  /** An index past the end, such as 99 with three vertices, reads as
      `undefined`; no error is raised. */
  lemma OutOfRangeIsUndefined<A>(a: A, b: A, c: A)
    ensures Flattened([a, b, c], [Int(1), Int(99), Int(0), NaN]) == [Some(a), None, None, None]
  {
  }
}
