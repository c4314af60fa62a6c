/**
 * `ColorSequence` (StateFlux/StateFlux.Model/Util/ColorSequence.cs): a fixed list of seven
 * colours handed out in turn. The static `index` field becomes the field of one shared object.
 */
module ColorSequence {
  import opened Model

  /** The seven colours, in list order: red, green, blue, yellow, magenta, cyan, white. */
  const Colors: seq<Color> := [
    Color(1.0, 0.0, 0.0, 1.0),
    Color(0.0, 1.0, 0.0, 1.0),
    Color(0.0, 0.0, 1.0, 1.0),
    Color(1.0, 1.0, 0.0, 1.0),
    Color(1.0, 0.0, 1.0, 1.0),
    Color(0.0, 1.0, 1.0, 1.0),
    Color(1.0, 1.0, 1.0, 1.0)
  ]

  /** The index after one call: incremented, and wrapped to 0 once it passes the last colour. */
  function Step(i: int): (j: int)
    requires 0 <= i < |Colors|
    ensures 0 <= j < |Colors|
    ensures j == (i + 1) % |Colors|
  {
    if i + 1 > |Colors| - 1 then 0 else i + 1
  }

  /** The colours returned by `n` consecutive calls starting from index `i`. */
  function Run(i: int, n: nat): (s: seq<Color>)
    requires 0 <= i < |Colors|
    ensures |s| == n
    decreases n
  {
    if n == 0 then [] else [Colors[i]] + Run(Step(i), n - 1)
  }

  class ColorSequence {
    var index: int

    ghost predicate Valid()
      reads this
    {
      0 <= index < |Colors|
    }

    constructor ()
      ensures Valid() && index == 0
    {
      index := 0;
    }

    /** `Next`: the colour at the current index, then the index steps on. */
    method Next() returns (c: Color)
      requires Valid()
      modifies this
      ensures Valid()
      ensures c == Colors[old(index)]
      ensures index == Step(old(index))
    {
      c := Colors[index];
      index := index + 1;
      index := if index > |Colors| - 1 then 0 else index;
    }
  }

  /** The k-th of a run of calls from index i returns the colour at (i + k) mod 7. */
  lemma {:induction false} RunAt(i: int, n: nat, k: nat)
    requires 0 <= i < |Colors| && k < n
    ensures Run(i, n)[k] == Colors[(i + k) % |Colors|]
    decreases n
  {
    if k > 0 {
      RunAt(Step(i), n - 1, k - 1);
      assert (Step(i) + (k - 1)) % 7 == (i + k) % 7;
    }
  }

  /** Indexing into the colour list rotated to start at i is indexing modulo seven. */
  lemma RotatedAt(i: int, k: int)
    requires 0 <= i < |Colors| && 0 <= k < |Colors|
    ensures (Colors[i..] + Colors[..i])[k] == Colors[(i + k) % |Colors|]
  {
    var rotated := Colors[i..] + Colors[..i];
    if k < |Colors| - i {
      assert rotated[k] == Colors[i..][k];
      assert (i + k) % 7 == i + k;
    } else {
      assert rotated[k] == Colors[..i][k - (7 - i)];
      assert (i + k) % 7 == i + k - 7;
    }
  }

  /** A rotation of a sequence holds the same elements. */
  lemma RotationPermutes<T>(s: seq<T>, i: int)
    requires 0 <= i <= |s|
    ensures multiset(s[i..] + s[..i]) == multiset(s)
  {
    assert s == s[..i] + s[i..];
  }

  /** Seven calls from index i return the colour list rotated to start at i. */
  lemma RunIsRotation(i: int)
    requires 0 <= i < |Colors|
    ensures Run(i, 7) == Colors[i..] + Colors[..i]
  {
    var r, rotated := Run(i, 7), Colors[i..] + Colors[..i];
    forall k | 0 <= k < 7 ensures r[k] == rotated[k] {
      RunAt(i, 7, k);
      RotatedAt(i, k);
    }
  }

  /** Any seven consecutive calls return each of the seven colours exactly once. */
  lemma SevenCallsArePermutation(i: int)
    requires 0 <= i < |Colors|
    ensures multiset(Run(i, 7)) == multiset(Colors)
  {
    RunIsRotation(i);
    RotationPermutes(Colors, i);
  }

  /** The first call from the initial state returns red. */
  lemma FirstIsRed()
    ensures Run(0, 1) == [Color(1.0, 0.0, 0.0, 1.0)]
  {
  }

  /** Every colour handed out is opaque, with every channel 0 or 1. */
  lemma {:induction false} RunColorsArePrimary(i: int, n: nat)
    requires 0 <= i < |Colors|
    ensures forall c :: c in Run(i, n) ==>
      c.Alpha == 1.0 && c.Red in {0.0, 1.0} && c.Green in {0.0, 1.0} && c.Blue in {0.0, 1.0}
    decreases n
  {
    if n > 0 {
      RunColorsArePrimary(Step(i), n - 1);
    }
  }
}
