/** goldenSectionMin (ls_hymix/script.js): bounded one-dimensional minimisation by golden-section
    search. Numbers are idealised as reals. The ratio (√5 − 1)/2, which the source computes
    with Math.sqrt, is passed in and characterised by gr > 0 and gr² + gr = 1. */
module GoldenSection {

  /** The ratio the search uses: the positive root of gr² + gr = 1, i.e. (√5 − 1)/2. */
  predicate IsGoldenRatio(gr: real) {
    0.0 < gr && gr * gr + gr == 1.0
  }

  function Pow(r: real, k: nat): real {
    if k == 0 then 1.0 else r * Pow(r, k - 1)
  }

  /** The golden ratio lies strictly between 1/2 and 1, which is what keeps the two probes
      inside the bracket and in order; more precisely it lies in (0.618, 0.62). */
  lemma GoldenRatioBounds(gr: real)
    requires IsGoldenRatio(gr)
    ensures 0.5 < gr < 1.0
    ensures 0.618 < gr < 0.62
    ensures 1.0 - gr == gr * gr
  {
  }

  /** Powers of a ratio in (0, 1) are in (0, 1] and do not increase. */
  lemma {:induction false} PowBounds(r: real, k: nat)
    requires 0.0 < r < 1.0
    ensures 0.0 < Pow(r, k) <= 1.0
    ensures Pow(r, k + 1) <= Pow(r, k)
  {
    if k > 0 {
      PowBounds(r, k - 1);
    }
    assert Pow(r, k + 1) == r * Pow(r, k);
  }

  /** Powers of a ratio in (0, 1) do not increase with the exponent. */
  lemma {:induction false} PowAntitone(r: real, k1: nat, k2: nat)
    requires 0.0 < r < 1.0
    ensures k1 <= k2 ==> Pow(r, k2) <= Pow(r, k1)
    decreases k2
  {
    if k1 < k2 {
      PowAntitone(r, k1, k2 - 1);
      PowBounds(r, k2 - 1);
    }
  }

  /** x1·y1 ≤ x2·y2 for 0 ≤ x1 ≤ x2 and 0 ≤ y1 ≤ y2. */
  lemma ProductMonotone(x1: real, y1: real, x2: real, y2: real)
    requires 0.0 <= x1 <= x2 && 0.0 <= y1 <= y2
    ensures x1 * y1 <= x2 * y2
  {
    assert x1 * y1 <= x2 * y1;
  }

  /** Powers are monotone in a non-negative base. */
  lemma {:induction false} PowMonotoneBase(r: real, s: real, k: nat)
    requires 0.0 <= r <= s
    ensures 0.0 <= Pow(r, k) <= Pow(s, k)
  {
    if k > 0 {
      PowMonotoneBase(r, s, k - 1);
      ProductMonotone(r, Pow(r, k - 1), s, Pow(s, k - 1));
    }
  }

  /** r^(m+n) = r^m · r^n. */
  lemma {:induction false} PowAdd(r: real, m: nat, n: nat)
    ensures Pow(r, m + n) == Pow(r, m) * Pow(r, n)
  {
    if m > 0 {
      PowAdd(r, m - 1, n);
      assert r * (Pow(r, m - 1) * Pow(r, n)) == (r * Pow(r, m - 1)) * Pow(r, n);
    }
  }

  /** Any ratio in (0.618, 0.62) raised to the 33rd power is above 10⁻⁷, and to the 34th power
      is below it. */
  lemma PowCrossesTolerance(gr: real)
    requires 0.618 < gr < 0.62
    ensures Pow(gr, 33) > 0.0000001
    ensures Pow(gr, 34) < 0.0000001
  {
    PowAdd(0.618, 10, 3);
    PowAdd(0.618, 10, 13);
    PowAdd(0.618, 10, 23);
    PowMonotoneBase(0.618, gr, 33);
    PowAdd(0.62, 10, 4);
    PowAdd(0.62, 10, 14);
    PowAdd(0.62, 10, 24);
    PowMonotoneBase(gr, 0.62, 34);
  }

  /** The width w0 shrunk k times by the ratio r. */
  function Width(r: real, k: nat, w0: real): real {
    if k == 0 then w0 else r * Width(r, k - 1, w0)
  }

  /** Shrinking k times by r multiplies the width by r^k. */
  lemma {:induction false} WidthIsPow(r: real, k: nat, w0: real)
    ensures Width(r, k, w0) == Pow(r, k) * w0
  {
    if k > 0 {
      WidthIsPow(r, k - 1, w0);
      assert r * (Pow(r, k - 1) * w0) == (r * Pow(r, k - 1)) * w0;
    }
  }

  /** The probe points of a bracket [a, b]. */
  function LowerProbe(a: real, b: real, gr: real): real { b - gr * (b - a) }

  function UpperProbe(a: real, b: real, gr: real): real { a + gr * (b - a) }

  /** In a bracket of width w ≥ 0 the probes sit at a + (1−gr)·w and a + gr·w, so
      a ≤ c ≤ d ≤ b. */
  lemma ProbesOrdered(a: real, b: real, gr: real)
    requires IsGoldenRatio(gr) && a <= b
    ensures a <= LowerProbe(a, b, gr) <= UpperProbe(a, b, gr) <= b
  {
    GoldenRatioBounds(gr);
    var w := b - a;
    assert (1.0 - gr) * w >= 0.0;
    assert (2.0 * gr - 1.0) * w >= 0.0;
  }

  /** After the bracket shrinks to [a, d], the old lower probe c is exactly the upper probe of
      the new bracket: the one probe that survives need not be evaluated again. */
  lemma ShrinkRightReusesProbe(a: real, b: real, gr: real)
    requires IsGoldenRatio(gr)
    ensures var d := UpperProbe(a, b, gr);
      && d - a == gr * (b - a)
      && LowerProbe(a, b, gr) == UpperProbe(a, d, gr)
  {
    GoldenRatioBounds(gr);
    var w := b - a;
    calc {
      UpperProbe(a, a + gr * w, gr);
      a + gr * (gr * w);
      { assert gr * (gr * w) == (gr * gr) * w; }
      a + (1.0 - gr) * w;
      b - gr * w;
    }
  }

  /** After the bracket shrinks to [c, b], the old upper probe d is exactly the lower probe of
      the new bracket. */
  lemma ShrinkLeftReusesProbe(a: real, b: real, gr: real)
    requires IsGoldenRatio(gr)
    ensures var c := LowerProbe(a, b, gr);
      && b - c == gr * (b - a)
      && UpperProbe(a, b, gr) == LowerProbe(c, b, gr)
  {
    GoldenRatioBounds(gr);
    var w := b - a;
    calc {
      LowerProbe(b - gr * w, b, gr);
      b - gr * (gr * w);
      { assert gr * (gr * w) == (gr * gr) * w; }
      b - (1.0 - gr) * w;
      a + gr * w;
    }
  }

  /** The loop invariant of the search over the original bracket [a0, b0] after k
      iterations: the bracket lies inside the original one, its probes are the golden
      points of the current bracket, and its width is gr^k times the original width. */
  predicate Bracketed(a: real, b: real, c: real, d: real, gr: real, a0: real, b0: real, k: nat) {
    && a0 <= a <= c <= d <= b <= b0
    && c == LowerProbe(a, b, gr) && d == UpperProbe(a, b, gr)
    && b - a == Width(gr, k, b0 - a0)
  }

  /** The initial bracket satisfies the invariant. */
  lemma BracketedInitially(gr: real, a0: real, b0: real)
    requires IsGoldenRatio(gr) && a0 <= b0
    ensures Bracketed(a0, b0, LowerProbe(a0, b0, gr), UpperProbe(a0, b0, gr), gr, a0, b0, 0)
  {
    ProbesOrdered(a0, b0, gr);
  }

  /** Keeping [a, d] preserves the invariant, with the old c as the new d. */
  lemma {:induction false} BracketedShrinkRight(a: real, b: real, c: real, d: real, gr: real, a0: real, b0: real, k: nat)
    requires IsGoldenRatio(gr) && Bracketed(a, b, c, d, gr, a0, b0, k)
    ensures Bracketed(a, d, LowerProbe(a, d, gr), c, gr, a0, b0, k + 1)
  {
    ShrinkRightReusesProbe(a, b, gr);
    ProbesOrdered(a, d, gr);
  }

  /** Keeping [c, b] preserves the invariant, with the old d as the new c. */
  lemma {:induction false} BracketedShrinkLeft(a: real, b: real, c: real, d: real, gr: real, a0: real, b0: real, k: nat)
    requires IsGoldenRatio(gr) && Bracketed(a, b, c, d, gr, a0, b0, k)
    ensures Bracketed(c, b, d, UpperProbe(c, b, gr), gr, a0, b0, k + 1)
  {
    ShrinkLeftReusesProbe(a, b, gr);
    ProbesOrdered(c, b, gr);
  }

  /** The bracket was still wider than tol when the k-th iteration began. */
  predicate WasWide(gr: real, a0: real, b0: real, tol: real, k: nat) {
    k > 0 ==> Width(gr, k - 1, b0 - a0) > tol
  }

  /** An iteration starts only on a bracket wider than tol. */
  lemma WasWideStep(a: real, b: real, c: real, d: real, gr: real, a0: real, b0: real, tol: real, k: nat)
    requires Bracketed(a, b, c, d, gr, a0, b0, k) && b - a > tol
    ensures WasWide(gr, a0, b0, tol, k + 1)
  {
  }

  /** Every evaluation point lies in [a0, b0]. */
  predicate ProbesWithin(probes: seq<real>, a0: real, b0: real) {
    forall i :: 0 <= i < |probes| ==> a0 <= probes[i] <= b0
  }

  /** Adding a point of [a0, b0] keeps every evaluation point in [a0, b0]. */
  lemma ProbesWithinAppend(probes: seq<real>, p: real, a0: real, b0: real)
    requires ProbesWithin(probes, a0, b0) && a0 <= p <= b0
    ensures ProbesWithin(probes + [p], a0, b0)
  {
  }

  /** On the unit interval with tolerance 10⁻⁷ — the bracket and tolerance both fitters use —
      a run that stops as goldenSectionMin stops has made exactly 34 iterations: the caps of 200
      and 300 iterations never bind, and the final bracket is at most 10⁻⁷ wide. */
  lemma UnitIntervalSearchLength(gr: real, iters: nat, maxIter: nat)
    requires IsGoldenRatio(gr) && maxIter >= 34
    requires Width(gr, iters, 1.0 - 0.0) <= 0.0000001 || iters == maxIter
    requires iters > 0 ==> Width(gr, iters - 1, 1.0 - 0.0) > 0.0000001
    ensures iters == 34
    ensures Width(gr, iters, 1.0 - 0.0) <= 0.0000001
  {
    WidthIsPow(gr, iters, 1.0 - 0.0);
    if iters > 0 {
      WidthIsPow(gr, iters - 1, 1.0 - 0.0);
    }
    GoldenRatioBounds(gr);
    PowCrossesTolerance(gr);
    PowAntitone(gr, iters, 33);
    if iters > 0 {
      PowAntitone(gr, 34, iters - 1);
    }
  }

  // ---------------------------------------------------------------- the run, as a function

  /** The variables of the search loop: the bracket [a, b], its probes c and d with their
      values fc and fd, and the number of iterations made. */
  datatype Search = Search(a: real, b: real, c: real, d: real, fc: real, fd: real, iter: nat)

  /** The state before the loop: the whole bracket with its two probes evaluated. */
  function Start(f: real -> real, a0: real, b0: real, gr: real): Search {
    var c := LowerProbe(a0, b0, gr);
    var d := UpperProbe(a0, b0, gr);
    Search(a0, b0, c, d, f(c), f(d), 0)
  }

  /** One iteration: when fc < fd the bracket shrinks to [a, d] and c becomes its upper probe,
      otherwise it shrinks to [c, b] and d becomes its lower probe; the one new probe is
      evaluated. */
  function Step(f: real -> real, s: Search, gr: real): (t: Search)
    ensures t.iter == s.iter + 1
  {
    if s.fc < s.fd then
      var c := LowerProbe(s.a, s.d, gr);
      Search(s.a, s.d, c, s.c, f(c), s.fc, s.iter + 1)
    else
      var d := UpperProbe(s.c, s.b, gr);
      Search(s.c, s.b, s.d, d, s.fd, f(d), s.iter + 1)
  }

  /** The loop from state s: iterate while the bracket is wider than tol and fewer than
      maxIter iterations were made. */
  function Run(f: real -> real, s: Search, tol: real, maxIter: nat, gr: real): Search
    decreases maxIter - s.iter
  {
    if s.b - s.a > tol && s.iter < maxIter then Run(f, Step(f, s, gr), tol, maxIter, gr) else s
  }

  /** The result of goldenSectionMin: the midpoint of the final bracket. */
  function GoldenMid(f: real -> real, a0: real, b0: real, tol: real, maxIter: nat, gr: real): real {
    var r := Run(f, Start(f, a0, b0, gr), tol, maxIter, gr);
    (r.a + r.b) / 2.0
  }

  /** The points the loop from state s evaluates, in order: one new probe per iteration. */
  function Trace(f: real -> real, s: Search, tol: real, maxIter: nat, gr: real): seq<real>
    decreases maxIter - s.iter
  {
    if s.b - s.a > tol && s.iter < maxIter then
      var t := Step(f, s, gr);
      [if s.fc < s.fd then t.c else t.d] + Trace(f, t, tol, maxIter, gr)
    else []
  }

  /** An iteration that appends its new probe to the points seen so far leaves the points
      seen followed by the rest of the run unchanged. */
  lemma TraceStep(f: real -> real, s: Search, tol: real, maxIter: nat, gr: real, seen: seq<real>, probes: seq<real>)
    requires s.b - s.a > tol && s.iter < maxIter
    requires probes == seen + [if s.fc < s.fd then Step(f, s, gr).c else Step(f, s, gr).d]
    ensures probes + Trace(f, Step(f, s, gr), tol, maxIter, gr) == seen + Trace(f, s, tol, maxIter, gr)
  {
    var t := Step(f, s, gr);
    assert Trace(f, s, tol, maxIter, gr) == [if s.fc < s.fd then t.c else t.d] + Trace(f, t, tol, maxIter, gr);
  }

  /** The loop from state s evaluates f once per iteration it makes. */
  lemma {:induction false} TraceLength(f: real -> real, s: Search, tol: real, maxIter: nat, gr: real)
    requires s.iter <= maxIter
    ensures |Trace(f, s, tol, maxIter, gr)| == Run(f, s, tol, maxIter, gr).iter - s.iter
    decreases maxIter - s.iter
  {
    if s.b - s.a > tol && s.iter < maxIter {
      TraceLength(f, Step(f, s, gr), tol, maxIter, gr);
    }
  }

  /** The smaller of the two probe values. */
  function Best(s: Search): real {
    if s.fc < s.fd then s.fc else s.fd
  }

  /** The probe values are the values of f at the probes. */
  predicate Evaluated(f: real -> real, s: Search) {
    s.fc == f(s.c) && s.fd == f(s.d)
  }

  /** An iteration keeps the better probe, with its value, as a probe of the new bracket and
      drops the part beyond the worse one, so the best probe value never gets worse. */
  lemma StepKeepsBetterProbe(f: real -> real, s: Search, gr: real)
    requires Evaluated(f, s)
    ensures var t := Step(f, s, gr);
      && Evaluated(f, t)
      && Best(t) <= Best(s)
      && (s.fc < s.fd ==> t.b == s.d && t.d == s.c && t.fd == s.fc)
      && (s.fc >= s.fd ==> t.a == s.c && t.c == s.d && t.fc == s.fd)
  {
  }

  /** The run keeps the loop invariant: it ends bracketed inside [a0, b0] with probes that
      carry their values, the best value no worse than at the start, the width shrunk by gr
      once per iteration, and it stops narrow enough or out of iterations, every iteration
      having begun on a bracket wider than tol. */
  lemma {:induction false} RunInvariant(f: real -> real, s: Search, tol: real, maxIter: nat, gr: real, a0: real, b0: real)
    requires IsGoldenRatio(gr) && s.iter <= maxIter
    requires Bracketed(s.a, s.b, s.c, s.d, gr, a0, b0, s.iter) && WasWide(gr, a0, b0, tol, s.iter)
    requires Evaluated(f, s)
    ensures var r := Run(f, s, tol, maxIter, gr);
      && Bracketed(r.a, r.b, r.c, r.d, gr, a0, b0, r.iter) && WasWide(gr, a0, b0, tol, r.iter)
      && Evaluated(f, r) && Best(r) <= Best(s)
      && s.iter <= r.iter <= maxIter
      && (r.b - r.a <= tol || r.iter == maxIter)
    decreases maxIter - s.iter
  {
    if s.b - s.a > tol && s.iter < maxIter {
      var t := Step(f, s, gr);
      WasWideStep(s.a, s.b, s.c, s.d, gr, a0, b0, tol, s.iter);
      StepKeepsBetterProbe(f, s, gr);
      if s.fc < s.fd {
        BracketedShrinkRight(s.a, s.b, s.c, s.d, gr, a0, b0, s.iter);
      } else {
        BracketedShrinkLeft(s.a, s.b, s.c, s.d, gr, a0, b0, s.iter);
      }
      RunInvariant(f, t, tol, maxIter, gr, a0, b0);
    }
  }

  /** What the search computes: its final bracket lies in [a0, b0] and holds the result; its
      width is b0 − a0 shrunk by gr once per iteration (WidthIsPow: times gr^iter); it was
      reached by iterating exactly while wider than tol and under maxIter; and its best probe
      value is no worse than either first probe. */
  lemma GoldenRunSpec(f: real -> real, a0: real, b0: real, tol: real, maxIter: nat, gr: real)
    requires IsGoldenRatio(gr) && a0 <= b0
    ensures var r := Run(f, Start(f, a0, b0, gr), tol, maxIter, gr);
      a0 <= r.a <= r.c <= r.d <= r.b <= b0 && r.a <= GoldenMid(f, a0, b0, tol, maxIter, gr) <= r.b
    ensures var r := Run(f, Start(f, a0, b0, gr), tol, maxIter, gr);
      r.b - r.a == Width(gr, r.iter, b0 - a0)
    ensures var r := Run(f, Start(f, a0, b0, gr), tol, maxIter, gr);
      && r.iter <= maxIter && (b0 - a0 <= tol ==> r.iter == 0)
      && (r.b - r.a <= tol || r.iter == maxIter)
      && (r.iter > 0 ==> Width(gr, r.iter - 1, b0 - a0) > tol)
    ensures var r := Run(f, Start(f, a0, b0, gr), tol, maxIter, gr);
      Evaluated(f, r) && Best(r) <= f(LowerProbe(a0, b0, gr)) && Best(r) <= f(UpperProbe(a0, b0, gr))
  {
    var s := Start(f, a0, b0, gr);
    BracketedInitially(gr, a0, b0);
    assert Evaluated(f, s) && WasWide(gr, a0, b0, tol, 0);
    RunInvariant(f, s, tol, maxIter, gr, a0, b0);
    var r := Run(f, s, tol, maxIter, gr);
    if b0 - a0 <= tol {
      assert r == s;
    }
    assert GoldenMid(f, a0, b0, tol, maxIter, gr) == (r.a + r.b) / 2.0;
  }

  /** On the unit interval with tolerance 10⁻⁷ — the bracket and tolerance both fitters use —
      the search makes exactly 34 iterations whatever f is, so any cap of at least 34 (the
      fitters use 200 and 300) never binds. */
  lemma UnitIntervalRunLength(f: real -> real, gr: real, maxIter: nat)
    requires IsGoldenRatio(gr) && maxIter >= 34
    ensures Run(f, Start(f, 0.0, 1.0, gr), 0.0000001, maxIter, gr).iter == 34
  {
    GoldenRunSpec(f, 0.0, 1.0, 0.0000001, maxIter, gr);
    var r := Run(f, Start(f, 0.0, 1.0, gr), 0.0000001, maxIter, gr);
    UnitIntervalSearchLength(gr, r.iter, maxIter);
  }

  /** goldenSectionMin(f, a0, b0, tol, maxIter). The ghost results describe the run: the final
      bracket [lo, hi], the number of loop iterations, and every point at which `f` was
      evaluated, in order: the two first probes, the trace of the run, and the result. */
  method GoldenSectionMin(f: real -> real, a0: real, b0: real, tol: real, maxIter: nat, gr: real)
    returns (x: real, fx: real, ghost iters: nat, ghost lo: real, ghost hi: real, ghost probes: seq<real>)
    requires IsGoldenRatio(gr) && a0 <= b0
    // the loop computes the run: x is its midpoint and [lo, hi] its final bracket
    ensures x == GoldenMid(f, a0, b0, tol, maxIter, gr)
    ensures var r := Run(f, Start(f, a0, b0, gr), tol, maxIter, gr); lo == r.a && hi == r.b && iters == r.iter
    // the result is the midpoint of the final bracket, which lies in the original one
    ensures a0 <= lo <= x <= hi <= b0 && x == (lo + hi) / 2.0
    ensures fx == f(x)
    // the loop runs at most maxIter times, and not at all when [a0, b0] is already narrow
    ensures iters <= maxIter
    ensures b0 - a0 <= tol ==> iters == 0 && x == (a0 + b0) / 2.0
    // each iteration multiplies the width by exactly gr; the loop stops narrow enough or out of iterations
    ensures hi - lo == Width(gr, iters, b0 - a0)
    ensures hi - lo <= tol || iters == maxIter
    ensures iters > 0 ==> Width(gr, iters - 1, b0 - a0) > tol
    // two initial evaluations, one per iteration and one for the result, all inside [a0, b0]
    ensures probes == [LowerProbe(a0, b0, gr), UpperProbe(a0, b0, gr)] + Trace(f, Start(f, a0, b0, gr), tol, maxIter, gr) + [x]
    ensures |probes| == iters + 3
    ensures ProbesWithin(probes, a0, b0)
  {
    var a, b := a0, b0;
    var c := LowerProbe(a, b, gr);
    var d := UpperProbe(a, b, gr);
    var fc, fd := f(c), f(d);
    probes := [c, d];
    ghost var trace := Trace(f, Start(f, a0, b0, gr), tol, maxIter, gr);
    BracketedInitially(gr, a0, b0);
    var iter: nat := 0;
    assert WasWide(gr, a0, b0, tol, 0);
    while b - a > tol && iter < maxIter
      invariant Bracketed(a, b, c, d, gr, a0, b0, iter)
      invariant fc == f(c) && fd == f(d)
      invariant iter <= maxIter
      invariant iter > 0 ==> b0 - a0 > tol
      invariant WasWide(gr, a0, b0, tol, iter)
      invariant |probes| == iter + 2
      invariant probes + Trace(f, Search(a, b, c, d, fc, fd, iter), tol, maxIter, gr) == [LowerProbe(a0, b0, gr), UpperProbe(a0, b0, gr)] + trace
      invariant ProbesWithin(probes, a0, b0)
      invariant Run(f, Search(a, b, c, d, fc, fd, iter), tol, maxIter, gr) == Run(f, Start(f, a0, b0, gr), tol, maxIter, gr)
      decreases maxIter - iter
    {
      ghost var before := Search(a, b, c, d, fc, fd, iter);
      ghost var seen := probes;
      WasWideStep(a, b, c, d, gr, a0, b0, tol, iter);
      if fc < fd {
        // keep [a, d]: the old c becomes the new d
        BracketedShrinkRight(a, b, c, d, gr, a0, b0, iter);
        b := d;
        d := c;
        fd := fc;
        c := LowerProbe(a, b, gr);
        fc := f(c);
        ProbesWithinAppend(probes, c, a0, b0);
        probes := probes + [c];
      } else {
        // keep [c, b]: the old d becomes the new c
        BracketedShrinkLeft(a, b, c, d, gr, a0, b0, iter);
        a := c;
        c := d;
        fc := fd;
        d := UpperProbe(a, b, gr);
        fd := f(d);
        ProbesWithinAppend(probes, d, a0, b0);
        probes := probes + [d];
      }
      iter := iter + 1;
      assert Search(a, b, c, d, fc, fd, iter) == Step(f, before, gr);
      TraceStep(f, before, tol, maxIter, gr, seen, probes);
    }
    assert probes == [LowerProbe(a0, b0, gr), UpperProbe(a0, b0, gr)] + trace;
    x := (a + b) / 2.0;
    fx := f(x);
    ProbesWithinAppend(probes, x, a0, b0);
    probes := probes + [x];
    iters, lo, hi := iter, a, b;
  }
}
