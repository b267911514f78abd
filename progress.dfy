/**
 * The build's progress bar (`createProgressTracker` in app.js): a value that
 * only rises between resets, and an optional window into which the media
 * worker's own progress ratio is mapped while an engine call runs.
 */
module Progress {
  import opened Wrappers

  /** `Math.max(0, Math.min(1, value))`. */
  function Clamp(x: real): (r: real)
    ensures 0.0 <= r <= 1.0
    ensures 0.0 <= x <= 1.0 ==> r == x
    ensures x < 0.0 ==> r == 0.0
    ensures x > 1.0 ==> r == 1.0
  {
    if x < 0.0 then 0.0 else if x > 1.0 then 1.0 else x
  }

  /** Clamping keeps order, so a larger request never yields a smaller value. */
  lemma ClampMonotone(a: real, b: real)
    requires a <= b
    ensures Clamp(a) <= Clamp(b)
  {
  }

  /** The part of the bar given to the worker: it starts at `base` and covers `span`. */
  datatype Window = Window(base: real, span: real)

  predicate ValidWindow(w: Window) {
    0.0 <= w.base <= 1.0 && 0.0 <= w.span <= 1.0
  }

  /** `span * fraction`, for a fraction of the window in [0, 1]. */
  function Scaled(span: real, fraction: real): (r: real)
    requires 0.0 <= span && 0.0 <= fraction <= 1.0
    ensures 0.0 <= r <= span
  {
    assert span * fraction <= span * 1.0 by {
      ScaleMonotone(span, fraction, 1.0);
    }
    assert 0.0 <= span * fraction by {
      ScaleMonotone(span, 0.0, fraction);
    }
    span * fraction
  }

  /** Scaling by a non-negative factor keeps order. */
  lemma ScaleMonotone(k: real, a: real, b: real)
    requires 0.0 <= k && a <= b
    ensures k * a <= k * b
  {
    var d := b - a;
    assert k * b == k * a + k * d;
    assert k * d >= 0.0;
  }

  /** `base + span * clamp(ratio ?? 0)`: the bar value a worker ratio stands for. */
  function WorkerValue(w: Window, ratio: Option<real>): (v: real)
    requires ValidWindow(w)
    ensures w.base <= v <= w.base + w.span
    ensures ratio.None? ==> v == w.base
    ensures ratio.Some? && ratio.value >= 1.0 ==> v == w.base + w.span
  {
    w.base + Scaled(w.span, Clamp(ratio.GetOr(0.0)))
  }

  /** A later (larger) worker ratio never maps to a smaller bar value. */
  lemma WorkerValueMonotone(w: Window, r1: real, r2: real)
    requires ValidWindow(w) && r1 <= r2
    ensures WorkerValue(w, Some(r1)) <= WorkerValue(w, Some(r2))
  {
    ClampMonotone(r1, r2);
    ScaledMonotone(w.span, Clamp(r1), Clamp(r2));
  }

  /** A larger fraction of the same window is never a smaller amount. */
  lemma ScaledMonotone(span: real, a: real, b: real)
    requires 0.0 <= span && 0.0 <= a <= b <= 1.0
    ensures Scaled(span, a) <= Scaled(span, b)
  {
    calc {
      Scaled(span, a);
    ==
      span * a;
    <= { ScaleMonotone(span, a, b); }
      span * b;
    ==
      Scaled(span, b);
    }
  }

  /** The larger of the bar's value and a candidate: the bar only moves up. */
  function Raised(current: real, candidate: real): (r: real)
    ensures r >= current && r >= candidate
    ensures r == current || r == candidate
  {
    if candidate > current then candidate else current
  }

  class ProgressTracker {
    var current: real
    var window: Option<Window>

    /** The bar never falls below 0 nor above `base + span`, at most 2. */
    ghost predicate Valid()
      reads this
    {
      && 0.0 <= current <= 2.0
      && (window.Some? ==> ValidWindow(window.value))
    }

    constructor()
      ensures Valid() && current == 0.0 && window == None
    {
      current := 0.0;
      window := None;
    }

    /** `reset`: back to zero, no worker window. */
    method Reset()
      modifies this
      ensures Valid() && current == 0.0 && window == None
    {
      current := 0.0;
      window := None;
    }

    /** `set`: raise the bar to the clamped value, never lower it. */
    method Set(value: real)
      modifies this
      requires Valid()
      ensures Valid()
      ensures current == Raised(old(current), Clamp(value))
      ensures window == old(window)
    {
      var next := Clamp(value);
      if next > current {
        current := next;
      }
    }

    /** `startWorker`: open a window with clamped base and span; the bar does not move. */
    method StartWorker(base: real, span: real)
      modifies this
      requires Valid()
      ensures Valid()
      ensures window == Some(Window(Clamp(base), Clamp(span)))
      ensures current == old(current)
    {
      window := Some(Window(Clamp(base), Clamp(span)));
    }

    /** `stopWorker`: close the window, then raise the bar to the given value if one is given. */
    method StopWorker(nextValue: Option<real>)
      modifies this
      requires Valid()
      ensures Valid()
      ensures window == None
      ensures nextValue.None? ==> current == old(current)
      ensures nextValue.Some? ==> current == Raised(old(current), Clamp(nextValue.value))
    {
      window := None;
      if nextValue.Some? {
        Set(nextValue.value);
      }
    }

    /**
     * `updateFromWorker`: nothing happens without a window; with one, the bar
     * rises to the value the ratio stands for if that is higher.
     */
    method UpdateFromWorker(ratio: Option<real>)
      modifies this
      requires Valid()
      ensures Valid()
      ensures window == old(window)
      ensures old(window).None? ==> current == old(current)
      ensures old(window).Some? ==> current == Raised(old(current), WorkerValue(old(window).value, ratio))
    {
      if window.None? {
        return;
      }
      var value := WorkerValue(window.value, ratio);
      if value > current {
        current := value;
      }
    }
  }
}
