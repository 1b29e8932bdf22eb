/** The trailing-window average: `moving_average` (a uniform-weight
    convolution in 'valid' mode) and the window rule of `calculating_value`.
    Values are exact reals; floating-point rounding is not modelled. */
module Convolution {

  function Sum(s: seq<real>): real
  {
    if s == [] then 0.0 else s[0] + Sum(s[1..])
  }

  function Mean(s: seq<real>): real
    requires s != []
  {
    Sum(s) / (|s| as real)
  }

  function Reverse(s: seq<real>): seq<real>
  {
    seq(|s|, i requires 0 <= i < |s| => s[|s| - 1 - i])
  }

  function Dot(a: seq<real>, b: seq<real>): real
    requires |a| == |b|
  {
    if a == [] then 0.0 else a[0] * b[0] + Dot(a[1..], b[1..])
  }

  /** `n` copies of `c`. */
  function Constant(c: real, n: nat): seq<real>
  {
    seq(n, _ => c)
  }

  /** `np.repeat(1.0, window) / window`: `window` equal weights that add up to 1. */
  function UniformWeights(window: nat): (w: seq<real>)
    requires window > 0
    ensures |w| == window
    ensures Sum(w) == 1.0
  {
    var c := 1.0 / (window as real);
    SumConstant(c, window);
    Constant(c, window)
  }

  lemma {:induction false} SumConstant(c: real, n: nat)
    ensures Sum(Constant(c, n)) == (n as real) * c
  {
    if n > 0 {
      assert Constant(c, n)[1..] == Constant(c, n - 1);
      SumConstant(c, n - 1);
    }
  }

  /** `np.convolve(a, v, 'valid')`: every full overlap of `a` with the reversed
      kernel `v`; when `v` is the longer one, numpy swaps the two first. */
  function ConvolveValid(a: seq<real>, v: seq<real>): (c: seq<real>)
    requires a != [] && v != []
    ensures |c| == if |v| <= |a| then |a| - |v| + 1 else |v| - |a| + 1
    decreases if |v| > |a| then 1 else 0
  {
    if |v| > |a| then ConvolveValid(v, a)
    else seq(|a| - |v| + 1, i requires 0 <= i <= |a| - |v| => Dot(a[i..i + |v|], Reverse(v)))
  }

  /** `moving_average(values, window)`: entry `i` is the mean of the `window`
      values from position `i` on; a window longer than the values gives the
      sum of all values over `window` at every position. */
  function MovingAverage(values: seq<real>, window: int): (smas: seq<real>)
    requires values != [] && window > 0
    ensures |smas| == if window <= |values| then |values| - window + 1 else window - |values| + 1
    ensures window <= |values| ==>
      forall i :: 0 <= i < |smas| ==> smas[i] == Mean(values[i..i + window])
    ensures window > |values| ==>
      forall i :: 0 <= i < |smas| ==> smas[i] == Sum(values) / (window as real)
  {
    var smas := ConvolveValid(values, UniformWeights(window));
    if window <= |values| then
      assert forall i :: 0 <= i < |smas| ==> smas[i] == Mean(values[i..i + window]) by {
        forall i | 0 <= i < |smas| { UniformWindowEntry(values, window, i); }
      }
      smas
    else
      assert forall i :: 0 <= i < |smas| ==> smas[i] == Sum(values) / (window as real) by {
        forall i | 0 <= i < |smas| { SwappedWindowEntry(values, window, i); }
      }
      smas
  }

  lemma {:induction false} UniformWindowEntry(values: seq<real>, window: int, i: int)
    requires 0 < window <= |values| && 0 <= i <= |values| - window
    ensures ConvolveValid(values, UniformWeights(window))[i] == Mean(values[i..i + window])
  {
    var s := values[i..i + window];
    UniformWindowDot(values, window, i);
    ScaleByInverse(Sum(s), window as real);
  }

  lemma {:induction false} UniformWindowDot(values: seq<real>, window: int, i: int)
    requires 0 < window <= |values| && 0 <= i <= |values| - window
    ensures ConvolveValid(values, UniformWeights(window))[i]
         == Sum(values[i..i + window]) * (1.0 / (window as real))
  {
    UniformEntry(values, window, i);
    DotUniform(values[i..i + window], window);
  }

  lemma {:induction false} UniformEntry(values: seq<real>, window: int, i: int)
    requires 0 < window <= |values| && 0 <= i <= |values| - window
    ensures ConvolveValid(values, UniformWeights(window))[i]
         == Dot(values[i..i + window], UniformWeights(window))
  {
    ReverseConstant(1.0 / (window as real), window);
    ConvolveEntry(values, UniformWeights(window), i);
  }

  lemma {:induction false} ReverseConstant(c: real, n: nat)
    ensures Reverse(Constant(c, n)) == Constant(c, n)
  {
  }

  lemma {:induction false} DotUniform(s: seq<real>, window: int)
    requires 0 < window == |s|
    ensures Dot(s, UniformWeights(window)) == Sum(s) * (1.0 / (window as real))
  {
    DotConstant(s, 1.0 / (window as real));
  }

  lemma {:induction false} ConvolveEntry(a: seq<real>, v: seq<real>, i: int)
    requires 0 < |v| <= |a| && 0 <= i <= |a| - |v|
    ensures ConvolveValid(a, v)[i] == Dot(a[i..i + |v|], Reverse(v))
  {
  }

  lemma {:induction false} SwappedWindowEntry(values: seq<real>, window: int, i: int)
    requires 0 < |values| < window && 0 <= i <= window - |values|
    ensures ConvolveValid(values, UniformWeights(window))[i] == Sum(values) / (window as real)
  {
    var weights := UniformWeights(window);
    var c := 1.0 / (window as real);
    var n := |values|;
    assert ConvolveValid(values, weights) == ConvolveValid(weights, values);
    assert weights[i..i + n] == Constant(c, n);
    assert ConvolveValid(weights, values)[i] == Dot(weights[i..i + n], Reverse(values));
    var r := Reverse(values);
    assert |r| == n;
    DotConstantLeft(r, c);
    SumReverse(values);
    var x := Sum(values);
    ScaleByInverse(x, window as real);
  }

  lemma {:induction false} ScaleByInverse(x: real, w: real)
    requires w > 0.0
    ensures x * (1.0 / w) == x / w && (1.0 / w) * x == x / w
  {
  }

  lemma {:induction false} DotConstant(a: seq<real>, c: real)
    ensures Dot(a, Constant(c, |a|)) == Sum(a) * c
  {
    if a != [] {
      assert Constant(c, |a|)[1..] == Constant(c, |a| - 1);
      DotConstant(a[1..], c);
    }
  }

  lemma {:induction false} DotConstantLeft(b: seq<real>, c: real)
    ensures Dot(Constant(c, |b|), b) == c * Sum(b)
  {
    if b != [] {
      assert Constant(c, |b|)[1..] == Constant(c, |b| - 1);
      DotConstantLeft(b[1..], c);
    }
  }

  lemma {:induction false} SumAppend(s: seq<real>, x: real)
    ensures Sum(s + [x]) == Sum(s) + x
  {
    if s != [] {
      assert (s + [x])[1..] == s[1..] + [x];
      SumAppend(s[1..], x);
    }
  }

  lemma {:induction false} SumReverse(s: seq<real>)
    ensures Sum(Reverse(s)) == Sum(s)
  {
    if s != [] {
      var n := |s|;
      assert Reverse(s) == [s[n - 1]] + Reverse(s[..n - 1]);
      SumReverse(s[..n - 1]);
      SumAppend(s[..n - 1], s[n - 1]);
      assert s[..n - 1] + [s[n - 1]] == s;
    }
  }

  /** The window `calculating_value` hands to `moving_average`: one less than
      the buffer length, or 1 for a single value. */
  function WindowFor(length: nat): (w: int)
    ensures length >= 1 ==> 1 <= w <= length
    ensures length > 1 ==> w == length - 1
  {
    if length != 1 then length - 1 else 1
  }

  /** What `calculating_value` records for a buffer: the front value is left
      out of the mean, unless it is the only value. */
  function SeedOffsetMean(dataset: seq<real>): (m: real)
    requires dataset != []
    ensures |dataset| == 1 ==> m == dataset[0]
    ensures |dataset| > 1 ==> m * ((|dataset| - 1) as real) == Sum(dataset[1..])
  {
    if |dataset| == 1 then dataset[0] else Mean(dataset[1..])
  }

  /** The last entry of `moving_average(dataset, window)`, with the window of
      `calculating_value`, is the mean of every value but the front one. */
  lemma {:induction false} LastMovingAverage(dataset: seq<real>)
    requires dataset != []
    ensures var smas := MovingAverage(dataset, WindowFor(|dataset|));
            smas[|smas| - 1] == SeedOffsetMean(dataset)
  {
    var n := |dataset|;
    var smas := MovingAverage(dataset, WindowFor(n));
    if n == 1 {
      assert dataset[0..1] == [dataset[0]] == dataset;
      assert [dataset[0]][1..] == [];
      assert Sum(dataset) == dataset[0];
    } else {
      assert |smas| == 2;
      assert dataset[1..1 + (n - 1)] == dataset[1..];
    }
  }
}
