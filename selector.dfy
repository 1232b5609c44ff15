/**
 * The selection rule of `run_circuit`: the measured outcome seen the fewest times,
 * reduced modulo the number of paths.
 *
 * The histogram is the one `result.histogram(key='result')` returns: a Counter of the
 * observed outcomes only, given here in its iteration order (order of first observation).
 */
module Selector {
  import opened Common

  /** One entry of the histogram: a measured bitstring read as an integer, and how often it was seen. */
  datatype Bin = Bin(outcome: nat, count: nat)

  type Histogram = seq<Bin>

  /** A Counter of observations: each outcome at most once, every count positive. */
  predicate WellFormed(h: Histogram) {
    && (forall j, k :: 0 <= j < k < |h| ==> h[j].outcome != h[k].outcome)
    && (forall k :: 0 <= k < |h| ==> h[k].count > 0)
  }

  /** `k` is where `min(h, key=h.get)` stops: a least count, and no earlier entry has it. */
  predicate IsFirstMin(h: Histogram, k: nat) {
    && k < |h|
    && (forall j :: 0 <= j < |h| ==> h[k].count <= h[j].count)
    && (forall j :: 0 <= j < k ==> h[k].count < h[j].count)
  }

  /**
   * Position of the entry `min` returns. Like CPython's `min`, it scans left to right and
   * replaces the candidate only by a strictly smaller count, so the first least entry wins.
   */
  function FirstMinIndex(h: Histogram): (k: nat)
    requires |h| > 0
    ensures IsFirstMin(h, k)
  {
    if |h| == 1 then 0
    else
      var best := FirstMinIndex(h[..|h| - 1]);
      if h[|h| - 1].count < h[best].count then |h| - 1 else best
  }

  /** The position of the first least entry is determined by the histogram alone. */
  lemma FirstMinUnique(h: Histogram, k: nat, m: nat)
    requires IsFirstMin(h, k) && IsFirstMin(h, m)
    ensures k == m
  {
    assert h[k].count == h[m].count;
  }

  /**
   * `min(frequencies, key=frequencies.get) % num_paths`. `min` over an empty histogram raises
   * before the modulo is reached; with no paths the modulo divides by zero.
   */
  function Select(h: Histogram, numPaths: nat): (r: Result<nat>)
    ensures r == Err(EmptyHistogram) <==> |h| == 0
    ensures r == Err(NoPaths) <==> |h| > 0 && numPaths == 0
    ensures |h| > 0 && numPaths > 0 ==> r.Ok?
    ensures r.Ok? ==> r.value < numPaths
    ensures r.Ok? ==> exists k: nat :: IsFirstMin(h, k) && r.value == h[k].outcome % numPaths
  {
    if |h| == 0 then Err(EmptyHistogram)
    else
      var k := FirstMinIndex(h);
      if numPaths == 0 then Err(NoPaths) else Ok(h[k].outcome % numPaths)
  }

  /** With one path every outcome selects it. */
  lemma SelectSinglePath(h: Histogram)
    requires |h| > 0
    ensures Select(h, 1) == Ok(0)
  {
  }

  /**
   * For a well-formed histogram the chosen outcome was observed at least once, no observed
   * outcome was seen fewer times, and no entry with the same count comes before it.
   */
  lemma SelectedOutcomeIsLeast(h: Histogram, numPaths: nat)
    requires WellFormed(h) && |h| > 0 && numPaths > 0
    ensures exists k :: 0 <= k < |h| && Select(h, numPaths) == Ok(h[k].outcome % numPaths) && h[k].count > 0 &&
                        (forall j :: 0 <= j < |h| ==> h[k].count <= h[j].count) &&
                        (forall j :: 0 <= j < |h| && h[j].count == h[k].count ==> k <= j)
  {
    var k := FirstMinIndex(h);
    assert Select(h, numPaths) == Ok(h[k].outcome % numPaths);
  }
}
