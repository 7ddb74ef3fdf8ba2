/** The branch-free search over the upper keys: halving steps from the largest power of two below n. */
module BinarySearch {
  import opened LinearModel

  function Pow2(k: nat): (p: nat)
    ensures p > 0
  {
    if k == 0 then 1 else 2 * Pow2(k - 1)
  }

  /** Position of the highest bit set; undefined for 0. */
  function Bsr(x: nat): (k: nat)
    requires x > 0
    ensures Pow2(k) <= x < 2 * Pow2(k)
  {
    if x == 1 then 0 else 1 + Bsr(x / 2)
  }

  ghost predicate Ascending(arr: seq<Key>) {
    forall i, j :: 0 <= i <= j < |arr| ==> arr[i] <= arr[j]
  }

  /** The first position whose element is not below the key, or the length: for every length from 2 on. */
  method BinarySearchBranchless(arr: seq<Key>, key: Key) returns (r: nat)
    requires |arr| >= 2 && Ascending(arr)
    ensures r <= |arr|
    ensures forall i :: 0 <= i < r ==> arr[i] < key
    ensures forall i :: r <= i < |arr| ==> arr[i] >= key
  {
    var n := |arr|;
    var pos := -1;
    var logstep := Bsr(n - 1);
    var step := Pow2(logstep);
    if arr[pos + n - step] < key {
      pos := pos + n - step;
    }
    ghost var k := logstep;
    step := step / 2;
    while step > 0
      invariant step == if k == 0 then 0 else Pow2(k - 1)
      invariant -1 <= pos && pos + Pow2(k) <= n - 1
      invariant pos >= 0 ==> arr[pos] < key
      invariant pos + Pow2(k) < n - 1 ==> arr[pos + Pow2(k)] >= key
      decreases step
    {
      if arr[pos + step] < key {
        pos := pos + step;
      }
      step := step / 2;
      k := k - 1;
    }
    pos := pos + 1;
    r := if arr[pos] >= key then pos else n;
  }
}
