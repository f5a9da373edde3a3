/** Where a collapsed container's skip lands: the first later row that is no
    deeper than the container, or one past the last row when there is none.
    Rows are given by their indents only. */
module Landing {

  /** Search for the landing row of `i`, starting at `j`; every row strictly
      between `i` and `j` is already known to be deeper than `i`. */
  function LandFrom(ind: seq<int>, i: nat, j: nat): (r: nat)
    requires i < j <= |ind|
    requires forall k :: i < k < j ==> ind[k] > ind[i]
    ensures j <= r <= |ind|
    ensures forall k :: i < k < r ==> ind[k] > ind[i]
    ensures r < |ind| ==> ind[r] <= ind[i]
    decreases |ind| - j
  {
    if j == |ind| || ind[j] <= ind[i] then j else LandFrom(ind, i, j + 1)
  }

  /** The landing row of row `i`: after `i`, every row before it is deeper
      than `i`, and it is no deeper than `i` itself unless it is the end. */
  function Land(ind: seq<int>, i: nat): (r: nat)
    requires i < |ind|
    ensures i < r <= |ind|
    ensures forall k :: i < k < r ==> ind[k] > ind[i]
    ensures r < |ind| ==> ind[r] <= ind[i]
  {
    LandFrom(ind, i, i + 1)
  }

  /** The three properties of `Land` determine it. */
  lemma LandUnique(ind: seq<int>, i: nat, r: nat)
    requires i < r <= |ind|
    requires forall k :: i < k < r ==> ind[k] > ind[i]
    requires r < |ind| ==> ind[r] <= ind[i]
    ensures r == Land(ind, i)
  {
  }

  /** Skip ranges nest: a row inside the range of `i` is deeper than `i`, and
      its own range ends no later than that of `i`. */
  lemma LandNested(ind: seq<int>, i: nat, c: nat)
    requires i < c < |ind| && c < Land(ind, i)
    ensures ind[c] > ind[i]
    ensures Land(ind, c) <= Land(ind, i)
  {
  }

  /** `LandNested` as an implication. */
  lemma LandNestedIf(ind: seq<int>, i: nat, c: nat)
    requires i < c < |ind|
    ensures c < Land(ind, i) ==> ind[c] > ind[i] && Land(ind, c) <= Land(ind, i)
  {
    if c < Land(ind, i) {
      LandNested(ind, i, c);
    }
  }

  /** Two rows at the same depth never share a landing row: the range of the
      earlier one ends at or before the later one. */
  lemma LandDistinct(ind: seq<int>, i: nat, j: nat)
    requires i < j < |ind| && ind[i] == ind[j]
    ensures Land(ind, i) <= j < Land(ind, j)
  {
  }

  /** Rows of a prefix whose landing row lies inside the prefix land on the
      same row once more rows are appended. */
  lemma LandPrefix(a: seq<int>, b: seq<int>, i: nat)
    requires i < |a| && Land(a, i) < |a|
    ensures Land(a + b, i) == Land(a, i)
  {
    var ab := a + b;
    var l := Land(a, i);
    forall k | i < k < l ensures ab[k] > ab[i] { assert ab[k] == a[k]; }
    LandUnique(ab, i, l);
  }

  /** A row of a prefix that runs to the end of the prefix lands on the
      first appended row when that row is no deeper. */
  lemma LandAcross(a: seq<int>, b: seq<int>, i: nat)
    requires i < |a| && Land(a, i) == |a|
    requires b == [] || b[0] <= a[i]
    ensures Land(a + b, i) == |a|
  {
    var ab := a + b;
    forall k | i < k < |a| ensures ab[k] > ab[i] { assert ab[k] == a[k]; }
    LandUnique(ab, i, |a|);
  }

  /** Rows of a suffix do not look back: their landing rows are those of the
      suffix on its own, shifted. */
  lemma LandSuffix(a: seq<int>, b: seq<int>, j: nat)
    requires j < |b|
    ensures Land(a + b, |a| + j) == |a| + Land(b, j)
  {
    var ab := a + b;
    var l := Land(b, j);
    forall k | |a| + j < k < |a| + l ensures ab[k] > ab[|a| + j] { assert ab[k] == b[k - |a|]; }
    LandUnique(ab, |a| + j, |a| + l);
  }
}
