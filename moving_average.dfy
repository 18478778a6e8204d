/**
 * The sliding-window simple moving average of `calculate_sma_series`:
 * a list as long as the price list, undefined (`None`) until `window`
 * prices have been seen, and from then on the mean of the trailing
 * `window` prices.
 */
module MovingAverage {
  import opened Wrappers

  /** The sum of a sequence, accumulated from left to right. */
  function Sum(s: seq<real>): real
    decreases |s|
  {
    if s == [] then 0.0 else Sum(s[..|s| - 1]) + s[|s| - 1]
  }

  /** The unweighted arithmetic mean of a non-empty sequence. */
  function Mean(s: seq<real>): real
    requires |s| > 0
  {
    Sum(s) / (|s| as real)
  }

  /**
   * The moving-average series recomputed naively at every index: entry `i`
   * is undefined while fewer than `window` prices end at `i`, otherwise the
   * mean of the `window` prices `closes[i - window + 1..i + 1]`.
   */
  function SmaSeries(closes: seq<real>, window: int): seq<Option<real>>
    requires 0 < window
  {
    seq(|closes|, i requires 0 <= i < |closes| => SmaAt(closes, window, i))
  }

  /** Entry `i` of SmaSeries. */
  function SmaAt(closes: seq<real>, window: int, i: int): Option<real>
    requires 0 < window && 0 <= i < |closes|
  {
    if i >= window - 1 then Some(Mean(closes[i + 1 - window..i + 1])) else None
  }

  /** Taking the first element off the front of a sum. */
  lemma {:induction false} SumDropFirst(s: seq<real>)
    requires |s| > 0
    ensures Sum(s) == s[0] + Sum(s[1..])
    decreases |s|
  {
    if |s| == 1 {
      assert s[..0] == [] && s[1..] == [];
    } else {
      var init := s[..|s| - 1];
      SumDropFirst(init);
      assert init[1..] == s[1..][..|s| - 2];
    }
  }

  /** A sequence whose entries all equal `c` sums to its length times `c`. */
  lemma {:induction false} SumConstant(s: seq<real>, c: real)
    requires forall k :: 0 <= k < |s| ==> s[k] == c
    ensures Sum(s) == (|s| as real) * c
    decreases |s|
  {
    if s != [] {
      SumConstant(s[..|s| - 1], c);
    }
  }

  /** The mean of a constant window is that constant. */
  lemma MeanConstant(s: seq<real>, c: real)
    requires |s| > 0
    requires forall k :: 0 <= k < |s| ==> s[k] == c
    ensures Mean(s) == c
  {
    SumConstant(s, c);
  }

  /** Where the running sum's window starts once the first `i` prices have been added. */
  function WindowStart(i: int, window: int): int
  {
    if i < window then 0 else i - window
  }

  /** Adding the next price and, once the window is full, dropping the oldest keeps the running sum exact. */
  lemma SlideWindow(closes: seq<real>, window: int, i: int)
    requires 0 < window && 0 <= i < |closes|
    ensures Sum(closes[WindowStart(i + 1, window)..i + 1])
         == Sum(closes[WindowStart(i, window)..i]) + closes[i] - (if i >= window then closes[i - window] else 0.0)
  {
    var lo := WindowStart(i, window);
    assert closes[lo..i + 1][..i - lo] == closes[lo..i];
    if i >= window {
      SumDropFirst(closes[lo..i + 1]);
      assert closes[lo..i + 1][1..] == closes[i + 1 - window..i + 1];
    }
  }

  /** SmaSeries has one entry per price, defined exactly from index `window - 1` on as the trailing-window mean. */
  lemma SmaSeriesShape(closes: seq<real>, window: int)
    requires 0 < window
    ensures |SmaSeries(closes, window)| == |closes|
    ensures forall i :: 0 <= i < |closes| ==> (SmaSeries(closes, window)[i].Some? <==> i >= window - 1)
    ensures forall i :: window - 1 <= i < |closes| ==>
      SmaSeries(closes, window)[i].value == Mean(closes[i + 1 - window..i + 1])
  {
  }

  /** Once the window is full, the running sum divided by the window is the entry SmaSeries gives. */
  lemma FullWindowMean(closes: seq<real>, window: int, i: int, runningSum: real)
    requires 0 < window <= i + 1 <= |closes|
    requires runningSum == Sum(closes[WindowStart(i + 1, window)..i + 1])
    ensures SmaAt(closes, window, i) == Some(runningSum / (window as real))
  {
    assert WindowStart(i + 1, window) == i + 1 - window;
    assert |closes[i + 1 - window..i + 1]| == window;
  }

  /**
   * `calculate_sma_series`: one pass over the prices keeping a running sum of
   * the trailing window, written into a pre-allocated list of `None`.
   */
  method CalculateSmaSeries(closes: seq<real>, window: int) returns (sma: seq<Option<real>>)
    requires 0 < window
    ensures |sma| == |closes|
    ensures forall i :: 0 <= i < |sma| ==> (sma[i].Some? <==> i >= window - 1)
    ensures forall i :: window - 1 <= i < |sma| ==> sma[i].value == Mean(closes[i + 1 - window..i + 1])
    ensures sma == SmaSeries(closes, window)
  {
    var out := new Option<real>[|closes|](_ => None);
    var runningSum := 0.0;
    for i := 0 to |closes|
      invariant runningSum == Sum(closes[WindowStart(i, window)..i])
      invariant forall k :: 0 <= k < i ==> out[k] == SmaAt(closes, window, k)
      invariant forall k :: i <= k < |closes| ==> out[k] == None
    {
      SlideWindow(closes, window, i);
      runningSum := runningSum + closes[i];
      if i >= window {
        runningSum := runningSum - closes[i - window];
      }
      if i >= window - 1 {
        FullWindowMean(closes, window, i, runningSum);
        out[i] := Some(runningSum / (window as real));
      }
    }
    sma := out[..];
    assert forall k :: 0 <= k < |closes| ==> sma[k] == SmaAt(closes, window, k);
    assert sma == SmaSeries(closes, window);
    SmaSeriesShape(closes, window);
  }
}
