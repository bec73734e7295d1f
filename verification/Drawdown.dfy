/** High-water mark and drawdown of a running total, kept in one pass and defined over the whole history. */
module Drawdown {

  /** The running figures both trackers keep. */
  datatype Water = Water(total: real, peak: real, current: real, worst: real)

  const DRY := Water(0.0, 0.0, 0.0, 0.0)

  /** The trackers' update when the running total has become `total`. */
  function Observe(w: Water, total: real): Water {
    if total > w.peak then w.(total := total, peak := total, current := 0.0)
    else
      var drop := w.peak - total;
      Water(total, w.peak, drop, if drop > w.worst then drop else w.worst)
  }

  function Track(h: seq<real>): Water {
    if h == [] then DRY
    else
      var w := Track(h[..|h| - 1]);
      Observe(w, w.total + h[|h| - 1])
  }

  /** Profit after the whole history. */
  function Total(h: seq<real>): real {
    if h == [] then 0.0 else Total(h[..|h| - 1]) + h[|h| - 1]
  }

  /** Profit after each number of trades, from none to all. */
  function EquityCurve(h: seq<real>): (e: seq<real>)
    ensures |e| == |h| + 1
  {
    seq(|h| + 1, k requires 0 <= k <= |h| => Total(h[..k]))
  }

  ghost predicate IsPeak(e: seq<real>, p: real) {
    && (forall i :: 0 <= i < |e| ==> e[i] <= p)
    && (exists i :: 0 <= i < |e| && e[i] == p)
  }

  /** `d` is the largest fall from any earlier equity to any later one. */
  ghost predicate IsWorstDrop(e: seq<real>, d: real) {
    && (forall i, j :: 0 <= i <= j < |e| ==> e[i] - e[j] <= d)
    && (exists i, j :: 0 <= i <= j < |e| && e[i] - e[j] == d)
  }

  lemma {:induction false} TrackAppend(h: seq<real>, x: real)
    ensures Track(h + [x]) == Observe(Track(h), Track(h).total + x)
    ensures Total(h + [x]) == Total(h) + x
  {
    assert (h + [x])[..|h|] == h;
  }

  lemma {:induction false} CurveAppend(h: seq<real>, x: real)
    ensures EquityCurve(h + [x]) == EquityCurve(h) + [Total(h) + x]
  {
    TrackAppend(h, x);
    assert (h + [x])[..|h| + 1] == h + [x];
    assert forall k :: 0 <= k <= |h| ==> (h + [x])[..k] == h[..k];
  }

  /** The figures agree with their definitions over an equity curve that ends at `total`. */
  ghost predicate ExactOn(e: seq<real>, total: real, w: Water) {
    && w.total == total
    && IsPeak(e, w.peak)
    && IsWorstDrop(e, w.worst)
    && w.current == w.peak - w.total
  }

  /** The figures agree with their definitions over the whole history. */
  ghost predicate Exact(h: seq<real>, w: Water) {
    ExactOn(EquityCurve(h), Total(h), w)
  }

  /** The figures kept in one pass are exact, for every history. */
  lemma {:induction false} TrackIsExact(h: seq<real>)
    ensures Exact(h, Track(h))
  {
    if h == [] {
      EmptyCurve();
    } else {
      var g, x := h[..|h| - 1], h[|h| - 1];
      TrackIsExact(g);
      ExactStep(g, x, Track(g));
      assert h == g + [x];
    }
  }

  lemma ExactStep(g: seq<real>, x: real, w: Water)
    requires Exact(g, w)
    ensures Exact(g + [x], Observe(w, w.total + x))
  {
    TrackAppend(g, x);
    CurveAppend(g, x);
    ObserveStep(EquityCurve(g), Total(g), w, Total(g) + x);
  }

  lemma EmptyCurve()
    ensures IsPeak(EquityCurve([]), 0.0) && IsWorstDrop(EquityCurve([]), 0.0)
  {
    var e := EquityCurve([]);
    assert e[0] == 0.0;
    assert e[0] - e[0] == 0.0;
  }

  /** One observation keeps the figures exact. */
  lemma ObserveStep(e: seq<real>, total: real, w: Water, t: real)
    requires ExactOn(e, total, w)
    ensures ExactOn(e + [t], t, Observe(w, t))
  {
    PeakStep(e, w.peak, t);
    WorstDropStep(e, w.peak, w.worst, t);
  }

  lemma PeakStep(e: seq<real>, peak: real, t: real)
    requires IsPeak(e, peak)
    ensures IsPeak(e + [t], if t > peak then t else peak)
  {
    var i :| 0 <= i < |e| && e[i] == peak;
    assert (e + [t])[i] == peak && (e + [t])[|e|] == t;
  }

  lemma WorstDropStep(e: seq<real>, peak: real, worst: real, t: real)
    requires IsPeak(e, peak) && IsWorstDrop(e, worst)
    ensures IsWorstDrop(e + [t], if peak - t > worst then peak - t else worst)
  {
    var f, drop := e + [t], if peak - t > worst then peak - t else worst;
    var i :| 0 <= i < |e| && e[i] == peak;
    var a, b :| 0 <= a <= b < |e| && e[a] - e[b] == worst;
    assert e[i] - e[i] <= worst;
    assert f[a] - f[b] == worst && f[i] - f[|e|] == peak - t;
    forall p, q | 0 <= p <= q < |f| ensures f[p] - f[q] <= drop {
      if q < |e| { assert e[p] - e[q] <= worst; }
    }
  }
}
