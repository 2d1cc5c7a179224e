/** The shininess slider's label: the value's string left-padded with '0'
    to three characters. */
module Shininess {

  /** `n` zero characters. */
  function Zeros(n: nat): (z: string)
    ensures |z| == n
    ensures forall k :: 0 <= k < n ==> z[k] == '0'
  {
    if n == 0 then [] else "0" + Zeros(n - 1)
  }

  /** The padded string: `s` with '0' characters in front up to length 3. */
  function ZeroPad(s: string): string
  {
    if |s| >= 3 then s else Zeros(3 - |s|) + s
  }

  /** The padded string is at least three characters long, ends with `s`,
      has only '0' in front of it, and is `s` itself once `s` is long enough. */
  lemma ZeroPadShape(s: string)
    ensures |ZeroPad(s)| == if |s| >= 3 then |s| else 3
    ensures ZeroPad(s)[|ZeroPad(s)| - |s|..] == s
    ensures forall k :: 0 <= k < |ZeroPad(s)| - |s| ==> ZeroPad(s)[k] == '0'
    ensures |s| >= 3 ==> ZeroPad(s) == s
  {
    if |s| < 3 {
      var z := Zeros(3 - |s|);
      assert (z + s)[|z|..] == s;
      forall k | 0 <= k < |z| ensures (z + s)[k] == '0' {
        assert (z + s)[k] == z[k];
      }
    }
  }

  /** The loop `for (i = s.length; i < 3; i++) s = "0" + s`. */
  method PadShininess(shininessString: string) returns (padded: string)
    ensures padded == ZeroPad(shininessString)
  {
    padded := shininessString;
    var i := |shininessString|;
    while i < 3
      invariant |shininessString| <= i
      invariant i <= 3 || i == |shininessString|
      invariant padded == Zeros(i - |shininessString|) + shininessString
    {
      assert Zeros(i + 1 - |shininessString|) == "0" + Zeros(i - |shininessString|);
      padded := "0" + padded;
      i := i + 1;
    }
    if |shininessString| >= 3 {
      assert Zeros(0) == [];
      assert padded == [] + shininessString;
    } else {
      assert i == 3;
    }
  }

  /** The label text written next to the slider. */
  function ShininessLabel(padded: string): string
  {
    "Material Shininess (" + padded + "):"
  }

  /** A slider value of 5, whose string is "5", is labelled with "005". */
  lemma ShininessFiveLabel()
    ensures ZeroPad("5") == "005"
    ensures ShininessLabel(ZeroPad("5")) == "Material Shininess (005):"
  {
    assert Zeros(2) == "00" by {
      assert Zeros(1) == "0" + Zeros(0);
    }
  }
}
