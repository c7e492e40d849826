/**
 * The rolling sample window of `process_data`: `sample_count = 10` samples
 * kept in a list, appended at the end and evicted from the front with
 * `pop(0)` only when the list grows past the capacity; the published value
 * is the mean of the samples held. Means are exact reals; the source's
 * rounding of them is not modelled.
 */
module Window {

  const SampleCount: nat := 10

  function Min(a: int, b: int): int {
    if a <= b then a else b
  }

  /** `append(x)` followed by `pop(0)` when the list now holds more than `SampleCount` samples. */
  function Push(w: seq<real>, x: real): (r: seq<real>)
    ensures |r| > 0 && r[|r| - 1] == x
  {
    var grown := w + [x];
    if |grown| > SampleCount then grown[1..] else grown
  }

  /** The last `min(|s|, SampleCount)` elements of `s`, in order. */
  function LastN(s: seq<real>): (r: seq<real>)
    ensures |r| == Min(|s|, SampleCount)
  {
    s[|s| - Min(|s|, SampleCount)..]
  }

  /** A window that holds the tail of a history holds the tail of the history extended by one sample. */
  lemma PushKeepsTail(w: seq<real>, history: seq<real>, x: real)
    requires w == LastN(history)
    ensures Push(w, x) == LastN(history + [x])
  {
    var h, n := history + [x], |history|;
    if n < SampleCount {
      assert w == history;
      assert LastN(h) == h;
    } else {
      assert w == history[n - SampleCount..];
      assert (w + [x])[1..] == history[n - SampleCount + 1..] + [x];
      assert h[|h| - SampleCount..] == history[n - SampleCount + 1..] + [x];
    }
  }

  /** A window within capacity stays within it and grows by one until full. */
  lemma PushBound(w: seq<real>, x: real)
    requires |w| <= SampleCount
    ensures |Push(w, x)| == Min(|w| + 1, SampleCount)
  {
  }

  /** The window after pushing `samples` one by one into an empty list. */
  function Replay(samples: seq<real>): seq<real> {
    if |samples| == 0 then [] else Push(Replay(samples[..|samples| - 1]), samples[|samples| - 1])
  }

  /** After any sequence of pushes the window is exactly the last `min(n, 10)` samples in arrival order. */
  lemma {:induction false} ReplayIsLastN(samples: seq<real>)
    ensures Replay(samples) == LastN(samples)
  {
    if |samples| > 0 {
      var init := samples[..|samples| - 1];
      ReplayIsLastN(init);
      PushKeepsTail(Replay(init), init, samples[|samples| - 1]);
      assert init + [samples[|samples| - 1]] == samples;
    }
  }

  function Sum(w: seq<real>): real {
    if |w| == 0 then 0.0 else Sum(w[..|w| - 1]) + w[|w| - 1]
  }

  /** The position of a smallest sample of a non-empty window. */
  function ArgMin(w: seq<real>): (k: nat)
    requires |w| > 0
    ensures k < |w| && forall i :: 0 <= i < |w| ==> w[k] <= w[i]
  {
    if |w| == 1 then 0
    else
      var k := ArgMin(w[..|w| - 1]);
      assert forall i :: 0 <= i < |w| - 1 ==> w[..|w| - 1][i] == w[i];
      if w[|w| - 1] < w[k] then |w| - 1 else k
  }

  /** The position of a largest sample of a non-empty window. */
  function ArgMax(w: seq<real>): (k: nat)
    requires |w| > 0
    ensures k < |w| && forall i :: 0 <= i < |w| ==> w[i] <= w[k]
  {
    if |w| == 1 then 0
    else
      var k := ArgMax(w[..|w| - 1]);
      assert forall i :: 0 <= i < |w| - 1 ==> w[..|w| - 1][i] == w[i];
      if w[|w| - 1] > w[k] then |w| - 1 else k
  }

  /** `np.mean`: the arithmetic mean of a non-empty window, between its smallest and largest sample. */
  function Mean(w: seq<real>): (m: real)
    requires |w| > 0
    ensures w[ArgMin(w)] <= m <= w[ArgMax(w)]
  {
    var lo, hi := w[ArgMin(w)], w[ArgMax(w)];
    SumBounds(w, lo, hi);
    DivBetween(Sum(w), |w| as real, lo, hi);
    Sum(w) / (|w| as real)
  }

  lemma DivBetween(a: real, n: real, lo: real, hi: real)
    requires n > 0.0 && n * lo <= a <= n * hi
    ensures lo <= a / n <= hi
  {
  }

  /** The sum of `n` copies of `c` is `n * c`. */
  lemma {:induction false} SumConstant(w: seq<real>, c: real)
    requires forall i :: 0 <= i < |w| ==> w[i] == c
    ensures Sum(w) == (|w| as real) * c
  {
    if |w| > 0 {
      SumConstant(w[..|w| - 1], c);
    }
  }

  /** Repeated identical samples give that sample as the mean: no drift. */
  lemma MeanConstant(w: seq<real>, c: real)
    requires |w| > 0
    requires forall i :: 0 <= i < |w| ==> w[i] == c
    ensures Mean(w) == c
  {
    SumConstant(w, c);
  }

  lemma {:induction false} SumBounds(w: seq<real>, lo: real, hi: real)
    requires forall i :: 0 <= i < |w| ==> lo <= w[i] <= hi
    ensures (|w| as real) * lo <= Sum(w) <= (|w| as real) * hi
  {
    if |w| > 0 {
      SumBounds(w[..|w| - 1], lo, hi);
    }
  }

  /** The mean lies between any lower and upper bound of the samples held. */
  lemma MeanBounds(w: seq<real>, lo: real, hi: real)
    requires |w| > 0
    requires forall i :: 0 <= i < |w| ==> lo <= w[i] <= hi
    ensures lo <= Mean(w) <= hi
  {
    SumBounds(w, lo, hi);
    var n := |w| as real;
    assert n * lo <= Sum(w) <= n * hi;
  }
}
