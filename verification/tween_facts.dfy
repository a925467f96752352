/** Boundary, identity and monotonicity properties of the interpolators in `Tween`. */
module TweenFacts {
  import opened Values
  import opened Tween

  /** The tween fractions at which a value sits at its start keyframe. */
  predicate AtStart(t: real, loop: bool) {
    t == 0.0 || (loop && t == 1.0)
  }

  /** The tween fractions at which a value sits at its end keyframe. */
  predicate AtEnd(t: real, loop: bool) {
    (!loop && t == 1.0) || (loop && t == 0.5)
  }

  /** The loop phase is a triangle wave: symmetric about the midpoint, 0 at both ends
      and 1 in the middle; without looping it is the identity. */
  lemma PhaseShape(t: real)
    requires 0.0 <= t <= 1.0
    ensures Phase(t, true) == Phase(1.0 - t, true)
    ensures Phase(t, false) == t
    ensures Phase(0.0, true) == 0.0 && Phase(0.5, true) == 1.0 && Phase(1.0, true) == 0.0
  {
  }

  lemma PhaseAtEnds(t: real, loop: bool)
    ensures AtStart(t, loop) ==> Phase(t, loop) == 0.0
    ensures AtEnd(t, loop) ==> Phase(t, loop) == 1.0
  {
  }

  lemma {:induction false} TimesZero(n: int)
    ensures Times(n, 0.0) == 0.0
    decreases if n < 0 then -n else n
  {
    if n > 0 {
      TimesZero(n - 1);
    } else if n < 0 {
      TimesZero(n + 1);
    }
  }

  lemma {:induction false} TimesOne(n: int)
    ensures Times(n, 1.0) == n as real
    decreases if n < 0 then -n else n
  {
    if n > 0 {
      TimesOne(n - 1);
    } else if n < 0 {
      TimesOne(n + 1);
    }
  }

  /** A larger fraction of a whole number is larger when the number is positive and
      smaller when it is negative. */
  lemma {:induction false} TimesMonotone(n: int, u: real, v: real)
    requires u <= v
    ensures 0 <= n ==> Times(n, u) <= Times(n, v)
    ensures n <= 0 ==> Times(n, u) >= Times(n, v)
    decreases if n < 0 then -n else n
  {
    if n > 0 {
      TimesMonotone(n - 1, u, v);
    } else if n < 0 {
      TimesMonotone(n + 1, u, v);
    }
  }

  lemma FloorMonotone(x: real, y: real)
    requires x <= y
    ensures Floor(x) <= Floor(y) && Ceil(x) <= Ceil(y)
  {
  }

  /** Stepped whole numbers start at the start value and reach the end value. */
  lemma StepWholeEnds(s: int, e: int, t: real, loop: bool)
    requires 0.0 <= t <= 1.0
    ensures AtStart(t, loop) ==> StepWhole(s, e, t, loop) == s
    ensures AtEnd(t, loop) ==> StepWhole(s, e, t, loop) == e
    ensures StepWhole(s, s, t, loop) == s
  {
    TimesZero(e - s);
    TimesZero(e - s + 1);
    TimesZero(e - s - 1);
    TimesZero(0);
    TimesOne(e - s);
  }

  lemma StepLenEnds(n: nat, m: nat, t: real, loop: bool)
    requires 0.0 <= t <= 1.0
    ensures AtStart(t, loop) ==> StepLen(n, m, t, loop) == n
    ensures AtEnd(t, loop) ==> StepLen(n, m, t, loop) == m
    ensures StepLen(n, n, t, loop) == n
  {
    StepWholeEnds(n, m, t, loop);
    StepWholeEnds(n, n, t, loop);
    StepWholeAgrees(n, m, t, loop);
    StepWholeAgrees(n, n, t, loop);
  }

  /** Without looping, a growing stepped number never decreases as the tween advances,
      and a shrinking one never increases. */
  lemma StepWholeMonotone(s: int, e: int, t1: real, t2: real)
    requires 0.0 <= t1 <= t2 <= 1.0
    ensures s <= e ==> StepWhole(s, e, t1, false) <= StepWhole(s, e, t2, false)
    ensures e <= s ==> StepWhole(s, e, t1, false) >= StepWhole(s, e, t2, false)
  {
    if t2 < 1.0 && s != e {
      if s < e {
        TimesMonotone(e - s + 1, t1, t2);
        FloorMonotone(Times(e - s + 1, t1) + s as real, Times(e - s + 1, t2) + s as real);
      } else {
        TimesMonotone(e - s - 1, t1, t2);
        FloorMonotone(Times(e - s - 1, t2) + s as real, Times(e - s - 1, t1) + s as real);
      }
    }
  }

  /** On whole numbers given as reals, `StepNumber` is the whole-number computation. */
  lemma StepNumberWhole(x: real, y: real, t: real, loop: bool)
    requires IsInt(x) && IsInt(y) && 0.0 <= t <= 1.0
    ensures StepNumber(x, y, t, loop) == StepWhole(x.Floor, y.Floor, t, loop) as real
  {
    StepWholeAgrees(x.Floor, y.Floor, t, loop);
  }

  /** Continuous interpolation of a numeric value is exactly the start value at the
      start of the tween and when a loop closes. */
  lemma {:induction false} InterpAtStart(a: Val, b: Val, t: real, loop: bool)
    requires Compatible(a, b) && Numeric(a) && AtStart(t, loop)
    ensures Interp(a, b, t, loop) == a
    decreases a
  {
    PhaseAtEnds(t, loop);
    match a
    case Num(x) =>
    case Arr(xs) =>
      var ys := b.items;
      var r := Interp(a, b, t, loop);
      StepLenEnds(|xs|, |ys|, t, loop);
      forall i | 0 <= i < |xs|
        ensures r.items[i] == xs[i]
      {
        if i < |ys| {
          InterpAtStart(xs[i], ys[i], t, loop);
        }
      }
  }

  /** Continuous interpolation of a numeric value is exactly the end value at the end of
      the tween and at the turning point of a loop. */
  lemma {:induction false} InterpAtEnd(a: Val, b: Val, t: real, loop: bool)
    requires Compatible(a, b) && Numeric(a) && AtEnd(t, loop)
    ensures Interp(a, b, t, loop) == b
    decreases a
  {
    PhaseAtEnds(t, loop);
    match a
    case Num(x) =>
    case Arr(xs) =>
      var ys := b.items;
      var r := Interp(a, b, t, loop);
      StepLenEnds(|xs|, |ys|, t, loop);
      forall i | 0 <= i < |ys|
        ensures r.items[i] == ys[i]
      {
        if i < |xs| {
          InterpAtEnd(xs[i], ys[i], t, loop);
        }
      }
  }

  /** Interpolating a value towards an equal value leaves it unchanged, for every shape
      of value (the source's `===` shortcut, and element-wise for arrays). */
  lemma {:induction false} InterpSame(a: Val, t: real, loop: bool)
    requires 0.0 <= t <= 1.0
    ensures Compatible(a, a) && Interp(a, a, t, loop) == a
    decreases a
  {
    CompatibleReflexive(a);
    match a
    case Arr(xs) =>
      var r := Interp(a, a, t, loop);
      StepLenEnds(|xs|, |xs|, t, loop);
      forall i | 0 <= i < |xs|
        ensures r.items[i] == xs[i]
      {
        InterpSame(xs[i], t, loop);
      }
    case _ =>
  }

  /** A product of two non-negative reals is non-negative. */
  lemma ProductNonNegative(a: real, b: real)
    requires a >= 0.0 && b >= 0.0
    ensures a * b >= 0.0
  {
  }

  /** Scaling a non-negative amount by a fraction in [0, 1] stays between 0 and the
      amount. */
  lemma ScaleBetween(d: real, u: real)
    requires 0.0 <= u <= 1.0 && d >= 0.0
    ensures 0.0 <= d * u
    ensures d * u <= d
  {
    ProductNonNegative(d, u);
    ProductNonNegative(d, 1.0 - u);
    assert d * (1.0 - u) == d - d * u;
  }

  /** A continuously interpolated number stays between its two keyframe values. */
  lemma InterpNumberBetween(s: real, e: real, t: real, loop: bool)
    requires 0.0 <= t <= 1.0
    ensures var r := Interp(Num(s), Num(e), t, loop).x; RealMin(s, e) <= r <= RealMax(s, e)
  {
    LerpBetween(s, e, Phase(t, loop));
  }

  /** Moving a fraction in [0, 1] of the way from `s` to `e` stays between them. */
  lemma LerpBetween(s: real, e: real, p: real)
    requires 0.0 <= p <= 1.0
    ensures RealMin(s, e) <= (e - s) * p + s <= RealMax(s, e)
  {
    if s <= e {
      var d := e - s;
      ScaleBetween(d, p);
      var q := d * p;
      assert 0.0 <= q <= d;
    } else {
      var d := s - e;
      ScaleBetween(d, p);
      var q := d * p;
      assert 0.0 <= q <= d;
      assert (e - s) * p == -q;
    }
  }

  /** Two different booleans interpolate to `undefined`: the continuous interpolator
      has no case for them. */
  lemma InterpFlagsUndefined(x: bool, t: real, loop: bool)
    requires 0.0 <= t <= 1.0
    ensures Interp(Flag(x), Flag(!x), t, loop) == Undef
  {
  }

  lemma InterpScenario()
    ensures Interp(Num(10.0), Num(20.0), 0.25, false) == Num(12.5)
  {
  }

  /** A stepped whole number at the start, at the end, or stepped towards itself. */
  lemma StepNumberEnds(x: real, y: real, t: real, loop: bool)
    requires IsInt(x) && IsInt(y) && 0.0 <= t <= 1.0
    ensures AtStart(t, loop) ==> StepNumber(x, y, t, loop) == x
    ensures AtEnd(t, loop) ==> StepNumber(x, y, t, loop) == y
    ensures StepNumber(x, x, t, loop) == x
  {
    StepNumberWhole(x, y, t, loop);
    StepNumberWhole(x, x, t, loop);
    StepWholeEnds(x.Floor, y.Floor, t, loop);
    StepWholeEnds(x.Floor, x.Floor, t, loop);
  }

  /** Stepped interpolation of whole numbers, flags and arrays of them starts exactly at
      the start value. */
  lemma {:induction false} StepAtStart(a: Val, b: Val, loop: bool)
    requires Compatible(a, b) && Stepwise(a) && Stepwise(b)
    ensures StepVal(a, b, 0.0, loop) == a
    decreases a
  {
    match a
    case Num(x) =>
      StepNumberEnds(x, b.x, 0.0, loop);
    case Arr(xs) =>
      var ys := b.items;
      var r := StepVal(a, b, 0.0, loop);
      StepLenEnds(|xs|, |ys|, 0.0, loop);
      forall i | 0 <= i < |xs|
        ensures r.items[i] == xs[i]
      {
        if i < |ys| {
          StepAtStart(xs[i], ys[i], loop);
        }
      }
    case _ =>
  }

  /** Without looping, stepped interpolation ends exactly at the end value, whatever the
      values are. */
  lemma StepAtEnd(a: Val, b: Val)
    requires Compatible(a, b)
    ensures StepVal(a, b, 1.0, false) == b
  {
  }

  /** At the turning point of a loop, stepped interpolation reaches the end value. */
  lemma {:induction false} StepAtLoopMiddle(a: Val, b: Val)
    requires Compatible(a, b) && Stepwise(a) && Stepwise(b)
    ensures StepVal(a, b, 0.5, true) == b
    decreases a
  {
    match a
    case Num(x) =>
      StepNumberEnds(x, b.x, 0.5, true);
    case Arr(xs) =>
      var ys := b.items;
      var r := StepVal(a, b, 0.5, true);
      StepLenEnds(|xs|, |ys|, 0.5, true);
      forall i | 0 <= i < |ys|
        ensures r.items[i] == ys[i]
      {
        if i < |xs| {
          StepAtLoopMiddle(xs[i], ys[i]);
        }
      }
    case _ =>
  }

  /** At the end of a loop, stepped whole numbers (and arrays of them) are back at their
      start values. */
  lemma {:induction false} StepLoopClosure(a: Val, b: Val)
    requires Compatible(a, b) && Integral(a) && Integral(b)
    ensures StepVal(a, b, 1.0, true) == a
    decreases a
  {
    IntegralIsStepwise(a);
    IntegralIsStepwise(b);
    match a
    case Num(x) =>
      StepNumberEnds(x, b.x, 1.0, true);
    case Arr(xs) =>
      var ys := b.items;
      var r := StepVal(a, b, 1.0, true);
      StepLenEnds(|xs|, |ys|, 1.0, true);
      forall i | 0 <= i < |xs|
        ensures r.items[i] == xs[i]
      {
        if i < |ys| {
          StepLoopClosure(xs[i], ys[i]);
        }
      }
  }

  /** Flags switch at the raw midpoint and stay switched when looping: at the end of a
      loop a flag holds its end value, not its start value. */
  lemma StepFlagLoopEnd(x: bool, y: bool)
    ensures StepVal(Flag(x), Flag(y), 1.0, true) == Flag(y)
    ensures StepVal(Flag(x), Flag(y), 0.4, true) == Flag(x)
  {
  }

  /** Stepping a value towards an equal value leaves it unchanged. */
  lemma {:induction false} StepSame(a: Val, t: real, loop: bool)
    requires Stepwise(a) && 0.0 <= t <= 1.0
    ensures Compatible(a, a) && StepVal(a, a, t, loop) == a
    decreases a
  {
    CompatibleReflexive(a);
    match a
    case Num(x) =>
      StepNumberEnds(x, x, t, loop);
    case Arr(xs) =>
      if loop || t != 1.0 {
        var r := StepVal(a, a, t, loop);
        StepLenEnds(|xs|, |xs|, t, loop);
        forall i | 0 <= i < |xs|
          ensures r.items[i] == xs[i]
        {
          StepSame(xs[i], t, loop);
        }
      }
    case _ =>
  }

  /** A stepped whole number is a whole number between its keyframe values, and without
      looping it moves monotonically towards the end value. */
  lemma StepNumberBetween(x: real, y: real, t1: real, t2: real, loop: bool)
    requires IsInt(x) && IsInt(y) && 0.0 <= t1 <= t2 <= 1.0
    ensures IsInt(StepNumber(x, y, t1, loop))
    ensures RealMin(x, y) <= StepNumber(x, y, t1, loop) <= RealMax(x, y)
    ensures !loop && x <= y ==> StepNumber(x, y, t1, false) <= StepNumber(x, y, t2, false)
    ensures !loop && y <= x ==> StepNumber(x, y, t1, false) >= StepNumber(x, y, t2, false)
  {
    StepNumberWhole(x, y, t1, loop);
    StepNumberWhole(x, y, t1, false);
    StepNumberWhole(x, y, t2, false);
    StepWholeMonotone(x.Floor, y.Floor, t1, t2);
    var k := StepWhole(x.Floor, y.Floor, t1, loop);
    assert (k as real).Floor == k;
  }

  lemma StepScenarios()
    ensures StepNumber(2.0, 10.0, 0.5, false) == 6.0
    ensures StepNumber(10.0, 2.0, 0.5, false) == 6.0
    ensures StepWhole(2, 10, 0.5, false) == 6 && StepWhole(10, 2, 0.5, false) == 6
  {
    UnfoldGrow(2.0, 10.0, 0.5);
    UnfoldShrink(10.0, 2.0, 0.5);
  }
}
