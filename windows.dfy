/** `apply_lookback` of `backend/ML/utils.py`: a series cut into fixed-width windows,
    each paired with the value that follows it. */
module Windows {

  /** How many windows a series of length n yields: `len(range(n - look_back))`. */
  function WindowCount(n: nat, lookBack: nat): nat {
    if n > lookBack then n - lookBack else 0
  }

  /** The Python loop over `range(len(dataset) - look_back)`, appending window i to
      `data_x` and the value after it to `data_y`. A series too short for one window
      yields no windows and no labels rather than an error. */
  method ApplyLookback<V>(dataset: seq<V>, lookBack: nat) returns (xs: seq<seq<V>>, ys: seq<V>)
    ensures |xs| == |ys| == WindowCount(|dataset|, lookBack)
    ensures forall i :: 0 <= i < |xs| ==> |xs[i]| == lookBack && xs[i] == dataset[i..i + lookBack]
    ensures forall i :: 0 <= i < |ys| ==> ys[i] == dataset[i + lookBack]
    ensures lookBack >= 1 ==> forall i :: 0 <= i < |xs| - 1 ==> xs[i + 1] == xs[i][1..] + [ys[i]]
  {
    xs, ys := [], [];
    var n := |dataset| - lookBack;
    var i := 0;
    while i < n
      invariant 0 <= i <= WindowCount(|dataset|, lookBack)
      invariant |xs| == |ys| == i
      invariant forall k :: 0 <= k < i ==> xs[k] == dataset[k..k + lookBack]
      invariant forall k :: 0 <= k < i ==> ys[k] == dataset[k + lookBack]
    {
      xs := xs + [dataset[i..i + lookBack]];
      ys := ys + [dataset[i + lookBack]];
      i := i + 1;
    }
    forall k | 0 <= k < |xs| - 1 && lookBack >= 1
      ensures xs[k + 1] == xs[k][1..] + [ys[k]]
    {
      assert xs[k][1..] == dataset[k + 1..k + lookBack];
    }
  }
}
