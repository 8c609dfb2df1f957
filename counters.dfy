/**
 * The integer counters that the key-press handler of PlotVTK.py keeps:
 * the cyclic scalar index (key `t`) and the two triangle waves of the
 * warp factor (key `d`, step 5) and the opacity factor (key `o`, step 10).
 */
module Counters {

  // ---------------------------------------------------------------------
  // The cyclic index of `t` (PlotVTK.py:89-91)
  // ---------------------------------------------------------------------

  /** One step of `index_scalar`: add one, and wrap to 0 at the length. */
  function NextIndex(i: int, n: int): (r: int)
    requires 0 <= i < n
    ensures 0 <= r < n
    ensures r == (i + 1) % n
  {
    if i + 1 == n then 0 else i + 1
  }

  /** `k` steps of the index, the first step applied first. */
  function Advance(i: int, n: int, k: nat): (r: int)
    requires 0 <= i < n
    ensures 0 <= r < n
    decreases k
  {
    if k == 0 then i else Advance(NextIndex(i, n), n, k - 1)
  }

  /** Below the wrap the index just climbs. */
  lemma {:induction false} AdvanceClimbs(i: int, n: int, k: nat)
    requires 0 <= i && i + k < n
    ensures Advance(i, n, k) == i + k
    decreases k
  {
    if k > 0 {
      AdvanceClimbs(i + 1, n, k - 1);
    }
  }

  /** `a + b` steps are `a` steps followed by `b` steps. */
  lemma {:induction false} AdvanceSplit(i: int, n: int, a: nat, b: nat)
    requires 0 <= i < n
    ensures Advance(i, n, a + b) == Advance(Advance(i, n, a), n, b)
    decreases a
  {
    if a > 0 {
      AdvanceSplit(NextIndex(i, n), n, a - 1, b);
    }
  }

  /** `n` steps bring every index back to where it started. */
  lemma AdvanceCycle(i: int, n: int)
    requires 0 <= i < n
    ensures Advance(i, n, n) == i
  {
    AdvanceSplit(i, n, n - 1 - i, i + 1);
    AdvanceClimbs(i, n, n - 1 - i);
    assert Advance(n - 1, n, i + 1) == Advance(0, n, i);
    AdvanceClimbs(0, n, i);
  }

  // ---------------------------------------------------------------------
  // The triangle waves of `d` and `o` (PlotVTK.py:69-74, 109-111, 118-121)
  // ---------------------------------------------------------------------

  /** A factor in percent and the direction it moves in. */
  datatype Wave = Wave(factor: int, sign: int)

  /** `warp_step` (PlotVTK.py:69) */
  const WarpStep := 5
  /** `opacity_step` (PlotVTK.py:74) */
  const OpacityStep := 10

  /** The two steps the handler uses. */
  predicate SourceStep(step: int) {
    step == WarpStep || step == OpacityStep
  }

  /**
   * One key press: move by `sign * step`, then reverse the sign when the
   * factor is now exactly 0 or exactly 100. A sign of +1 or -1 stays one of
   * the two, and flips exactly at the ends.
   */
  function Bounce(w: Wave, step: int): (r: Wave)
    ensures r.factor == w.factor + w.sign * step
    ensures w.sign == 1 || w.sign == -1 ==>
              && (r.sign == 1 || r.sign == -1)
              && (r.sign == -w.sign <==> r.factor == 0 || r.factor == 100)
  {
    var f := w.factor + w.sign * step;
    Wave(f, if f == 100 || f == 0 then -1 * w.sign else w.sign)
  }

  /** `k` presses, the first applied first. A sign of +1 or -1 stays one of the two. */
  function Iterate(w: Wave, step: int, k: nat): (r: Wave)
    ensures w.sign == 1 || w.sign == -1 ==> r.sign == 1 || r.sign == -1
    decreases k
  {
    if k == 0 then w else Iterate(Bounce(w, step), step, k - 1)
  }

  /**
   * The states a wave visits when it starts on a multiple of the step
   * inside [0, 100]: the factor stays such a multiple, and the sign points
   * back inwards at either end.
   */
  ghost predicate OnWave(w: Wave, step: int) {
    && SourceStep(step)
    && 0 <= w.factor <= 100
    && w.factor % step == 0
    && (w.sign == 1 || w.sign == -1)
    && (w.factor == 0 ==> w.sign == 1)
    && (w.factor == 100 ==> w.sign == -1)
  }

  /** Presses in one full period: up from 0 to 100 and back down. */
  function Period(step: int): (p: nat)
    requires SourceStep(step)
    ensures p * step == 200
  {
    2 * (100 / step)
  }

  /** How many presses from (0, +1) lead to `w`. */
  ghost function Phase(w: Wave, step: int): (p: int)
    requires OnWave(w, step)
    ensures 0 <= p < Period(step)
  {
    if w.sign == 1 then w.factor / step else Period(step) - w.factor / step
  }

  /**
   * A press keeps a wave on the wave, and its phase advances exactly like
   * the cyclic scalar index does.
   */
  lemma BounceAdvancesPhase(w: Wave, step: int)
    requires OnWave(w, step)
    ensures OnWave(Bounce(w, step), step)
    ensures Phase(Bounce(w, step), step) == NextIndex(Phase(w, step), Period(step))
  {
    var r := Bounce(w, step);
    var half := Period(step) / 2;
    assert half * step == 100;
    if w.sign == 1 {
      assert r.factor == w.factor + step && w.factor / step < half;
      if r.factor == 100 {
        assert r == Wave(100, -1) && Phase(w, step) == half - 1;
      } else {
        assert r == Wave(w.factor + step, 1) && r.factor / step == w.factor / step + 1;
      }
    } else {
      assert r.factor == w.factor - step && 0 < w.factor / step;
      if r.factor == 0 {
        assert r == Wave(0, 1) && Phase(w, step) == Period(step) - 1;
      } else {
        assert r == Wave(w.factor - step, -1) && r.factor / step == w.factor / step - 1;
      }
    }
  }

  /** The phase determines the state. */
  lemma PhaseDetermines(a: Wave, b: Wave, step: int)
    requires OnWave(a, step) && OnWave(b, step)
    requires Phase(a, step) == Phase(b, step)
    ensures a == b
  {
  }

  /** After `k` presses a wave is still on the wave, `k` phases further on. */
  lemma {:induction false} IterateOnWave(w: Wave, step: int, k: nat)
    requires OnWave(w, step)
    ensures OnWave(Iterate(w, step, k), step)
    ensures Phase(Iterate(w, step, k), step) == Advance(Phase(w, step), Period(step), k)
    decreases k
  {
    if k > 0 {
      BounceAdvancesPhase(w, step);
      IterateOnWave(Bounce(w, step), step, k - 1);
    }
  }

  /** A wave repeats after one period: 40 presses of `d`, 20 of `o`. */
  lemma WavePeriodic(w: Wave, step: int)
    requires OnWave(w, step)
    ensures Iterate(w, step, Period(step)) == w
  {
    IterateOnWave(w, step, Period(step));
    AdvanceCycle(Phase(w, step), Period(step));
    PhaseDetermines(Iterate(w, step, Period(step)), w, step);
  }

  /**
   * An opacity that starts at 100 or off the multiples of 10 never meets
   * the exact `== 100` / `== 0` test and climbs for ever.
   */
  lemma {:induction false} OpacityOvershoots(f: int, k: nat)
    requires f >= 100 || f % OpacityStep != 0
    ensures Iterate(Wave(f, 1), OpacityStep, k) == Wave(f + OpacityStep * k, 1)
    decreases k
  {
    if k > 0 {
      assert Bounce(Wave(f, 1), OpacityStep) == Wave(f + OpacityStep, 1);
      OpacityOvershoots(f + OpacityStep, k - 1);
    }
  }

  /**
   * Going up from a start percentage in [0, 100], the opacity factor stays
   * inside [0, 100] for every number of presses exactly when the start is
   * a multiple of 10 no larger than 90.
   */
  lemma OpacityBoundedIff(f: int)
    requires 0 <= f <= 100
    ensures (forall k: nat :: 0 <= Iterate(Wave(f, 1), OpacityStep, k).factor <= 100)
        <==> (f % OpacityStep == 0 && f <= 90)
  {
    if f % OpacityStep == 0 && f <= 90 {
      forall k: nat ensures 0 <= Iterate(Wave(f, 1), OpacityStep, k).factor <= 100 {
        IterateOnWave(Wave(f, 1), OpacityStep, k);
      }
    } else {
      var k: nat := if f >= 100 then 1 else (100 - f) / OpacityStep + 1;
      OpacityOvershoots(f, k);
      assert Iterate(Wave(f, 1), OpacityStep, k).factor > 100;
    }
  }
}
