/** The continuous and stepped interpolators of js/math-art.js: `calcTween`,
    `interpolateValue` and `interpolateStep`. */
module Tween {
  import opened Values

  /** `calcTween`: without looping the tween fraction is used as it is; when looping it
      becomes a triangle wave that reaches 1 at the midpoint and returns to 0. */
  function Phase(t: real, loop: bool): (p: real)
    ensures 0.0 <= t <= 1.0 ==> 0.0 <= p <= 1.0
  {
    if loop then
      if t > 0.5 then 1.0 - (t - 0.5) * 2.0 else t * 2.0
    else
      t
  }

  /** `interpolateStep` on two numbers: the result is discrete, rounding down while
      growing and up while shrinking, so that it starts at `s` and ends at `e`. */
  function StepNumber(s: real, e: real, t: real, loop: bool): (r: real)
    ensures !loop && t == 1.0 ==> r == e
    ensures r == e || IsInt(r)
  {
    if !loop && (t == 1.0 || s == e) then e
    else
      var d := e - s;
      if loop then
        if t <= 0.5 then Floor(d * Phase(t, true) + s) as real
        else Ceil(d * Phase(t, true) + s) as real
      else if d > 0.0 then Floor((d + 1.0) * t + s) as real
      else Ceil((d - 1.0) * t + s) as real
  }

  /** `n * u` for a whole number `n`, as `n` repeated additions of `u`. It is the product
      in every step of `interpolateStep` on whole numbers, where the factor multiplying
      the tween fraction is a difference of whole numbers. */
  function Times(n: int, u: real): real
    decreases if n < 0 then -n else n
  {
    if n == 0 then 0.0
    else if n > 0 then Times(n - 1, u) + u
    else Times(n + 1, u) - u
  }

  lemma {:induction false} TimesIsProduct(n: int, u: real)
    ensures Times(n, u) == n as real * u
    decreases if n < 0 then -n else n
  {
    if n > 0 {
      TimesIsProduct(n - 1, u);
      assert (n - 1) as real * u + u == n as real * u;
    } else if n < 0 {
      TimesIsProduct(n + 1, u);
      assert (n + 1) as real * u - u == n as real * u;
    }
  }

  /** A fraction in [0, 1] of a whole number lies between 0 and that number, strictly
      below it in magnitude when the fraction is below 1. */
  lemma {:induction false} TimesBetween(n: int, u: real)
    requires 0.0 <= u <= 1.0
    ensures 0 <= n ==> 0.0 <= Times(n, u) <= n as real
    ensures n <= 0 ==> n as real <= Times(n, u) <= 0.0
    ensures 0 < n && u < 1.0 ==> Times(n, u) < n as real
    ensures n < 0 && u < 1.0 ==> n as real < Times(n, u)
    decreases if n < 0 then -n else n
  {
    if n > 0 {
      TimesBetween(n - 1, u);
    } else if n < 0 {
      TimesBetween(n + 1, u);
    }
  }

  /** `interpolateStep` on two whole numbers, computed in whole-number terms. It agrees
      with `StepNumber` (`StepWholeAgrees`) and never leaves the range of its ends. */
  function StepWhole(s: int, e: int, t: real, loop: bool): (k: int)
    requires 0.0 <= t <= 1.0
    ensures Min(s, e) <= k <= Max(s, e)
  {
    if !loop && (t == 1.0 || s == e) then e
    else if loop then
      TimesBetween(e - s, Phase(t, true));
      if t <= 0.5 then Floor(Times(e - s, Phase(t, true)) + s as real)
      else Ceil(Times(e - s, Phase(t, true)) + s as real)
    else if s < e then
      TimesBetween(e - s + 1, t);
      Floor(Times(e - s + 1, t) + s as real)
    else
      TimesBetween(e - s - 1, t);
      Ceil(Times(e - s - 1, t) + s as real)
  }

  /** On whole numbers, `StepNumber` is `StepWhole`: the stepped value is a whole number
      between the two ends. */
  lemma StepWholeAgrees(s: int, e: int, t: real, loop: bool)
    requires 0.0 <= t <= 1.0
    ensures StepNumber(s as real, e as real, t, loop) == StepWhole(s, e, t, loop) as real
  {
    if !loop && (t == 1.0 || s == e) {
    } else if loop && t <= 0.5 {
      AgreeOut(s, e, t);
    } else if loop {
      AgreeBack(s, e, t);
    } else if s < e {
      AgreeGrow(s, e, t);
    } else {
      AgreeShrink(s, e, t);
    }
  }

  lemma AgreeOut(s: int, e: int, t: real)
    requires 0.0 <= t <= 0.5
    ensures StepNumber(s as real, e as real, t, true) == StepWhole(s, e, t, true) as real
  {
    UnfoldLoopOut(s as real, e as real, t);
    TimesDiff(s, e, Phase(t, true));
    assert StepWhole(s, e, t, true) == Floor(Times(e - s, Phase(t, true)) + s as real);
    assert Times(e - s, Phase(t, true)) + s as real == (e as real - s as real) * Phase(t, true) + s as real;
  }

  lemma AgreeBack(s: int, e: int, t: real)
    requires 0.5 < t <= 1.0
    ensures StepNumber(s as real, e as real, t, true) == StepWhole(s, e, t, true) as real
  {
    UnfoldLoopBack(s as real, e as real, t);
    TimesDiff(s, e, Phase(t, true));
    assert StepWhole(s, e, t, true) == Ceil(Times(e - s, Phase(t, true)) + s as real);
    assert Times(e - s, Phase(t, true)) + s as real == (e as real - s as real) * Phase(t, true) + s as real;
  }

  lemma AgreeGrow(s: int, e: int, t: real)
    requires s < e && 0.0 <= t < 1.0
    ensures StepNumber(s as real, e as real, t, false) == StepWhole(s, e, t, false) as real
  {
    UnfoldGrow(s as real, e as real, t);
    TimesDiffPlus(s, e, t);
    assert StepWhole(s, e, t, false) == Floor(Times(e - s + 1, t) + s as real);
    assert Times(e - s + 1, t) + s as real == (e as real - s as real + 1.0) * t + s as real;
  }

  lemma AgreeShrink(s: int, e: int, t: real)
    requires e < s && 0.0 <= t < 1.0
    ensures StepNumber(s as real, e as real, t, false) == StepWhole(s, e, t, false) as real
  {
    UnfoldShrink(s as real, e as real, t);
    TimesDiffMinus(s, e, t);
    assert StepWhole(s, e, t, false) == Ceil(Times(e - s - 1, t) + s as real);
    assert Times(e - s - 1, t) + s as real == (e as real - s as real - 1.0) * t + s as real;
  }

  lemma TimesDiff(s: int, e: int, u: real)
    ensures Times(e - s, u) == (e as real - s as real) * u
  {
    TimesIsProduct(e - s, u);
    CastTimesDiff(s, e, u);
  }

  lemma CastTimesDiff(s: int, e: int, u: real)
    ensures (e - s) as real * u == (e as real - s as real) * u
  {
  }

  lemma TimesDiffPlus(s: int, e: int, u: real)
    ensures Times(e - s + 1, u) == (e as real - s as real + 1.0) * u
  {
    TimesIsProduct(e - s + 1, u);
    CastTimesDiffPlus(s, e, u);
  }

  lemma CastTimesDiffPlus(s: int, e: int, u: real)
    ensures (e - s + 1) as real * u == (e as real - s as real + 1.0) * u
  {
  }

  lemma TimesDiffMinus(s: int, e: int, u: real)
    ensures Times(e - s - 1, u) == (e as real - s as real - 1.0) * u
  {
    TimesIsProduct(e - s - 1, u);
    CastTimesDiffMinus(s, e, u);
  }

  lemma CastTimesDiffMinus(s: int, e: int, u: real)
    ensures (e - s - 1) as real * u == (e as real - s as real - 1.0) * u
  {
  }

  lemma UnfoldLoopOut(s: real, e: real, t: real)
    requires t <= 0.5
    ensures StepNumber(s, e, t, true) == Floor((e - s) * Phase(t, true) + s) as real
  {
  }

  lemma UnfoldLoopBack(s: real, e: real, t: real)
    requires t > 0.5
    ensures StepNumber(s, e, t, true) == Ceil((e - s) * Phase(t, true) + s) as real
  {
  }

  lemma UnfoldGrow(s: real, e: real, t: real)
    requires s < e && t != 1.0
    ensures StepNumber(s, e, t, false) == Floor((e - s + 1.0) * t + s) as real
  {
  }

  lemma UnfoldShrink(s: real, e: real, t: real)
    requires e < s && t != 1.0
    ensures StepNumber(s, e, t, false) == Ceil((e - s - 1.0) * t + s) as real
  {
  }

  /** `interpolateStep` applied to two array lengths: how many items an array holds at
      tween fraction `t`. */
  function StepLen(n: nat, m: nat, t: real, loop: bool): (k: nat)
    requires 0.0 <= t <= 1.0
    ensures Min(n, m) <= k <= Max(n, m)
    ensures k as real == StepNumber(n as real, m as real, t, loop)
  {
    StepWholeAgrees(n, m, t, loop);
    StepWhole(n, m, t, loop)
  }

  /** The items of an interpolated array: the interpolated overlap `common`, then the
      items of the longer array at the following indices, up to length `len`. */
  function Spread(common: seq<Val>, xs: seq<Val>, ys: seq<Val>, len: nat): (r: seq<Val>)
    requires |common| == Min(|xs|, |ys|) <= len <= Max(|xs|, |ys|)
    ensures |r| == len
    ensures forall i :: 0 <= i < |common| ==> r[i] == common[i]
    ensures forall i :: |common| <= i < len ==> r[i] == (if |xs| >= |ys| then xs[i] else ys[i])
  {
    common + (if |xs| >= |ys| then xs else ys)[|common|..len]
  }

  /** `interpolateValue`: linear interpolation of numbers, element-wise interpolation of
      arrays whose extra items appear or disappear one at a time (the length itself is
      stepped), and `undefined` for two different non-numbers. */
  function Interp(a: Val, b: Val, t: real, loop: bool): (r: Val)
    requires Compatible(a, b)
    requires 0.0 <= t <= 1.0
    ensures a.Arr? ==> r.Arr? && |r.items| == StepLen(|a.items|, |b.items|, t, loop)
    ensures a.Arr? ==> forall i :: 0 <= i < Min(|a.items|, |b.items|) ==>
      r.items[i] == Interp(a.items[i], b.items[i], t, loop)
    ensures a.Arr? ==> forall i :: Min(|a.items|, |b.items|) <= i < |r.items| ==>
      r.items[i] == (if |a.items| >= |b.items| then a.items[i] else b.items[i])
    ensures a.Num? ==> r.Num?
    decreases a
  {
    match a
    case Arr(xs) =>
      var ys := b.items;
      var k := Min(|xs|, |ys|);
      var common := seq(k, i requires 0 <= i < k => Interp(xs[i], ys[i], t, loop));
      Arr(Spread(common, xs, ys, StepLen(|xs|, |ys|, t, loop)))
    case Num(x) =>
      if a == b then a else Num((b.x - x) * Phase(t, loop) + x)
    case _ =>
      if a == b then a else Undef
  }

  /** `interpolateStep`: stepped interpolation of whole numbers, element-wise for arrays,
      and a switch from start to end at the midpoint for any other value. */
  function StepVal(a: Val, b: Val, t: real, loop: bool): (r: Val)
    requires Compatible(a, b)
    requires 0.0 <= t <= 1.0
    ensures !loop && t == 1.0 ==> r == b
    ensures a.Arr? ==> r.Arr?
    ensures a.Arr? ==> |r.items| == StepLen(|a.items|, |b.items|, t, loop)
    ensures a.Arr? ==> forall i :: 0 <= i < Min(|a.items|, |b.items|) ==>
      r.items[i] == StepVal(a.items[i], b.items[i], t, loop)
    ensures a.Arr? ==> forall i :: Min(|a.items|, |b.items|) <= i < |r.items| ==>
      r.items[i] == (if |a.items| >= |b.items| then a.items[i] else b.items[i])
    ensures a.Num? ==> r.Num?
    decreases a
  {
    match a
    case Num(x) => Num(StepNumber(x, b.x, t, loop))
    case Arr(xs) =>
      if !loop && t == 1.0 then
        assert forall i :: 0 <= i < Min(|xs|, |b.items|) ==> StepVal(xs[i], b.items[i], t, loop) == b.items[i];
        b
      else
        var ys := b.items;
        var k := Min(|xs|, |ys|);
        var common := seq(k, i requires 0 <= i < k => StepVal(xs[i], ys[i], t, loop));
        Arr(Spread(common, xs, ys, StepLen(|xs|, |ys|, t, loop)))
    case _ =>
      if !loop && (t == 1.0 || a == b) then b
      else if t < 0.5 then a else b
  }

  /** Either interpolator, as `interpolatePairs` chooses between them. */
  function Apply(stepped: bool, a: Val, b: Val, t: real, loop: bool): (r: Val)
    requires Compatible(a, b)
    requires 0.0 <= t <= 1.0
    ensures a.Arr? ==> r.Arr?
    ensures a.Num? ==> r.Num?
  {
    if stepped then StepVal(a, b, t, loop) else Interp(a, b, t, loop)
  }
}
