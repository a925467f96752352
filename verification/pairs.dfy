/** Coupled property pairs: `interpolatePair` and `interpolatePairs` in js/math-art.js.

    In the first half of a tween, and throughout a tween that does not loop, the two
    properties of a pair are interpolated independently. In the second half of a loop they
    are interpolated together: element-wise for arrays, and with a fixed anchor when both
    properties start from the same scalar. */
module Pairs {
  import opened Values
  import opened Tween
  import opened TweenFacts

  /** The keyframe values of a pair that `interpolatePair` combines without producing
      `NaN` or holes. Each property's start and end values are compatible. For arrays,
      all four values are arrays, and the shorter start array is no longer than the longer
      end array; otherwise the source interpolates towards `undefined` and leaves holes in
      the second result. The overlapping elements are pairs of this kind themselves. */
  predicate PairReady(s1: Val, e1: Val, s2: Val, e2: Val)
    decreases s1
  {
    Compatible(s1, e1) && Compatible(s2, e2) &&
    if s1.Arr? then
      s2.Arr? && e2.Arr? &&
      Min(|s1.items|, |s2.items|) <= Max(|e1.items|, |e2.items|) &&
      forall i :: 0 <= i < |s1.items| && i < |s2.items| && i < |e1.items| && i < |e2.items| ==>
        PairReady(s1.items[i], e1.items[i], s2.items[i], e2.items[i])
    else
      !s2.Arr?
  }

  /** `interpolatePair`, used in the second half of a loop (`0.5 < t <= 1`).

      Arrays: each result has the length of its end array. An index within both start
      arrays and both end arrays is a pair of its own; an index that only one property
      has is interpolated alone, as a loop; indices beyond a start array copy the end
      array's items.

      Scalars: when both properties start from the same value, the first is held at its
      end value and the second moves from its end value towards the first's end value
      over the second half; otherwise each follows its own loop. */
  function PairTween(s1: Val, e1: Val, s2: Val, e2: Val, stepped: bool, t: real): (r: (Val, Val))
    requires PairReady(s1, e1, s2, e2)
    requires 0.5 < t <= 1.0
    ensures s1.Arr? ==> r.0.Arr? && |r.0.items| == |e1.items|
    ensures s1.Arr? ==> r.1.Arr? && |r.1.items| == |e2.items|
    ensures s1.Arr? ==> forall i :: |s1.items| <= i < |e1.items| ==> r.0.items[i] == e1.items[i]
    ensures s1.Arr? ==> forall i :: |s2.items| <= i < |e2.items| ==> r.1.items[i] == e2.items[i]
    ensures s1.Arr? ==> forall i ::
      0 <= i < |s1.items| && i < |s2.items| && i < |e1.items| && i < |e2.items| ==>
        r.0.items[i] == PairTween(s1.items[i], e1.items[i], s2.items[i], e2.items[i], stepped, t).0 &&
        r.1.items[i] == PairTween(s1.items[i], e1.items[i], s2.items[i], e2.items[i], stepped, t).1
    ensures s1.Arr? ==> forall i ::
      0 <= i < |s1.items| && i < |e1.items| && !(i < |s2.items| && i < |e2.items|) ==>
        r.0.items[i] == Apply(stepped, s1.items[i], e1.items[i], t, true)
    ensures s1.Arr? ==> forall i ::
      0 <= i < |s2.items| && i < |e2.items| && !(i < |s1.items| && i < |e1.items|) ==>
        r.1.items[i] == Apply(stepped, s2.items[i], e2.items[i], t, true)
    ensures !s1.Arr? && s1 == s2 ==> r.0 == e1 && r.1 == Apply(stepped, e2, e1, (t - 0.5) * 2.0, false)
    ensures !s1.Arr? && s1 != s2 ==>
      r == (Apply(stepped, s1, e1, t, true), Apply(stepped, s2, e2, t, true))
    ensures !stepped && s1.Num? && s1 == s2 ==>
      e1.Num? && e2.Num? && r.1.Num? && RealMin(e1.x, e2.x) <= r.1.x <= RealMax(e1.x, e2.x)
    ensures !stepped && s1.Num? && s2.Num? && s1 != s2 ==>
      e1.Num? && e2.Num? && r.0.Num? && r.1.Num? &&
      RealMin(s1.x, e1.x) <= r.0.x <= RealMax(s1.x, e1.x) &&
      RealMin(s2.x, e2.x) <= r.1.x <= RealMax(s2.x, e2.x)
    decreases s1
  {
    match s1
    case Arr(xs1) =>
      var xs2, ys1, ys2 := s2.items, e1.items, e2.items;
      var v1 := seq(|ys1|, i requires 0 <= i < |ys1| =>
        if i >= |xs1| then ys1[i]
        else if i < |xs2| && i < |ys2| then PairTween(xs1[i], ys1[i], xs2[i], ys2[i], stepped, t).0
        else Apply(stepped, xs1[i], ys1[i], t, true));
      var v2 := seq(|ys2|, i requires 0 <= i < |ys2| =>
        if i >= |xs2| then ys2[i]
        else if i < |xs1| && i < |ys1| then PairTween(xs1[i], ys1[i], xs2[i], ys2[i], stepped, t).1
        else Apply(stepped, xs2[i], ys2[i], t, true));
      (Arr(v1), Arr(v2))
    case Num(x1) =>
      if s1 == s2 then
        InterpNumberBetween(e2.x, e1.x, (t - 0.5) * 2.0, false);
        (e1, Apply(stepped, e2, e1, (t - 0.5) * 2.0, false))
      else if s2.Num? then
        InterpNumberBetween(x1, e1.x, t, true);
        InterpNumberBetween(s2.x, e2.x, t, true);
        (Apply(stepped, s1, e1, t, true), Apply(stepped, s2, e2, t, true))
      else
        (Apply(stepped, s1, e1, t, true), Apply(stepped, s2, e2, t, true))
    case _ =>
      if s1 == s2 then
        (e1, Apply(stepped, e2, e1, (t - 0.5) * 2.0, false))
      else
        (Apply(stepped, s1, e1, t, true), Apply(stepped, s2, e2, t, true))
  }

  /** Both properties of a pair have keyframe values that `interpolatePairs` can use. */
  predicate PairOk(pair: (string, string), start: map<string, Val>, end: map<string, Val>) {
    pair.0 in start && pair.0 in end && pair.1 in start && pair.1 in end &&
    PairReady(start[pair.0], end[pair.0], start[pair.1], end[pair.1])
  }

  /** The values `interpolatePairs` gives the two properties of one pair. */
  function PairValues(pair: (string, string), start: map<string, Val>, end: map<string, Val>,
                      stepped: bool, t: real, loop: bool): (r: (Val, Val))
    requires PairOk(pair, start, end)
    requires 0.0 <= t <= 1.0
    ensures !loop || t <= 0.5 ==>
      r == (Apply(stepped, start[pair.0], end[pair.0], t, loop),
            Apply(stepped, start[pair.1], end[pair.1], t, loop))
  {
    var (p1, p2) := pair;
    if !loop || t <= 0.5 then
      (Apply(stepped, start[p1], end[p1], t, loop), Apply(stepped, start[p2], end[p2], t, loop))
    else
      PairTween(start[p1], end[p1], start[p2], end[p2], stepped, t)
  }

  /** Whether a property is named in a list of pairs. */
  predicate Named(pairs: seq<(string, string)>, p: string) {
    exists k :: 0 <= k < |pairs| && (pairs[k].0 == p || pairs[k].1 == p)
  }

  /** `interpolatePairs`: writes the values of every pair, in list order, onto the
      generator's properties `gen`. Every named property is written; nothing else
      changes. */
  function PairsTween(gen: map<string, Val>, pairs: seq<(string, string)>,
                      start: map<string, Val>, end: map<string, Val>,
                      stepped: bool, t: real, loop: bool): (g: map<string, Val>)
    requires forall k :: 0 <= k < |pairs| ==> PairOk(pairs[k], start, end)
    requires 0.0 <= t <= 1.0
    ensures forall p :: p in g <==> p in gen || Named(pairs, p)
    ensures forall p :: p in gen && !Named(pairs, p) ==> g[p] == gen[p]
    decreases |pairs|
  {
    if |pairs| == 0 then gen
    else
      var v := PairValues(pairs[0], start, end, stepped, t, loop);
      var g := PairsTween(gen[pairs[0].0 := v.0][pairs[0].1 := v.1], pairs[1..], start, end, stepped, t, loop);
      assert forall p :: Named(pairs, p) <==> p == pairs[0].0 || p == pairs[0].1 || Named(pairs[1..], p) by {
        forall p | Named(pairs, p)
          ensures p == pairs[0].0 || p == pairs[0].1 || Named(pairs[1..], p)
        {
          var k :| 0 <= k < |pairs| && (pairs[k].0 == p || pairs[k].1 == p);
          if k > 0 {
            assert pairs[1..][k - 1] == pairs[k];
          }
        }
        forall p | Named(pairs[1..], p)
          ensures Named(pairs, p)
        {
          var k :| 0 <= k < |pairs[1..]| && (pairs[1..][k].0 == p || pairs[1..][k].1 == p);
          assert pairs[k + 1] == pairs[1..][k];
        }
      }
      g
  }

  /** No property is named twice in a list of pairs. */
  predicate DistinctNames(pairs: seq<(string, string)>) {
    (forall k :: 0 <= k < |pairs| ==> pairs[k].0 != pairs[k].1) &&
    forall j, k :: 0 <= j < k < |pairs| ==>
      pairs[j].0 != pairs[k].0 && pairs[j].0 != pairs[k].1 &&
      pairs[j].1 != pairs[k].0 && pairs[j].1 != pairs[k].1
  }

  /** The pairs after the first keep distinct names, and none of them names a property of
      the first pair. */
  lemma RestDistinct(pairs: seq<(string, string)>)
    requires DistinctNames(pairs) && |pairs| > 0
    ensures DistinctNames(pairs[1..])
    ensures !Named(pairs[1..], pairs[0].0) && !Named(pairs[1..], pairs[0].1)
  {
    var rest := pairs[1..];
    forall j, k | 0 <= j < k < |rest|
      ensures rest[j].0 != rest[k].0 && rest[j].0 != rest[k].1 &&
              rest[j].1 != rest[k].0 && rest[j].1 != rest[k].1
    {
      assert rest[j] == pairs[j + 1] && rest[k] == pairs[k + 1];
    }
    forall k | 0 <= k < |rest|
      ensures rest[k].0 != pairs[0].0 && rest[k].1 != pairs[0].0
      ensures rest[k].0 != pairs[0].1 && rest[k].1 != pairs[0].1
    {
      assert rest[k] == pairs[k + 1];
    }
  }

  /** With distinct names, every property of every pair ends up holding the value its
      own pair computes: pairs do not interfere with each other. */
  lemma {:induction false} PairsWritten(gen: map<string, Val>, pairs: seq<(string, string)>,
                                        start: map<string, Val>, end: map<string, Val>,
                                        stepped: bool, t: real, loop: bool)
    requires forall k :: 0 <= k < |pairs| ==> PairOk(pairs[k], start, end)
    requires 0.0 <= t <= 1.0
    requires DistinctNames(pairs)
    ensures var g := PairsTween(gen, pairs, start, end, stepped, t, loop);
      forall k :: 0 <= k < |pairs| ==>
        g[pairs[k].0] == PairValues(pairs[k], start, end, stepped, t, loop).0 &&
        g[pairs[k].1] == PairValues(pairs[k], start, end, stepped, t, loop).1
    decreases |pairs|
  {
    if |pairs| > 0 {
      var v := PairValues(pairs[0], start, end, stepped, t, loop);
      var gen' := gen[pairs[0].0 := v.0][pairs[0].1 := v.1];
      var rest := pairs[1..];
      RestDistinct(pairs);
      assert forall k :: 0 <= k < |rest| ==> PairOk(rest[k], start, end) by {
        forall k | 0 <= k < |rest| ensures PairOk(rest[k], start, end) {
          assert rest[k] == pairs[k + 1];
        }
      }
      PairsWritten(gen', rest, start, end, stepped, t, loop);
      var g := PairsTween(gen, pairs, start, end, stepped, t, loop);
      assert g == PairsTween(gen', rest, start, end, stepped, t, loop);
      assert g[pairs[0].0] == v.0 && g[pairs[0].1] == v.1 by {
        assert pairs[0].0 != pairs[0].1;
      }
      forall k | 0 < k < |pairs|
        ensures g[pairs[k].0] == PairValues(pairs[k], start, end, stepped, t, loop).0
        ensures g[pairs[k].1] == PairValues(pairs[k], start, end, stepped, t, loop).1
      {
        assert pairs[k] == rest[k - 1];
      }
    }
  }

  /** Without looping, and in the first half of a loop, each property of a pair is
      interpolated on its own, exactly as an unpaired property would be. */
  lemma PairsIndependent(gen: map<string, Val>, pairs: seq<(string, string)>,
                         start: map<string, Val>, end: map<string, Val>,
                         stepped: bool, t: real, loop: bool)
    requires forall k :: 0 <= k < |pairs| ==> PairOk(pairs[k], start, end)
    requires 0.0 <= t <= 1.0 && (!loop || t <= 0.5)
    requires DistinctNames(pairs)
    ensures var g := PairsTween(gen, pairs, start, end, stepped, t, loop);
      forall k :: 0 <= k < |pairs| ==>
        g[pairs[k].0] == Apply(stepped, start[pairs[k].0], end[pairs[k].0], t, loop) &&
        g[pairs[k].1] == Apply(stepped, start[pairs[k].1], end[pairs[k].1], t, loop)
  {
    PairsWritten(gen, pairs, start, end, stepped, t, loop);
  }

  /** With a fixed anchor, the second half of a loop ends with both properties at the
      first property's end value: the pair does not return to its start values. */
  lemma PairAnchorAtEnd(s: Val, e1: Val, e2: Val, stepped: bool)
    requires PairReady(s, e1, s, e2) && !s.Arr?
    requires stepped || Numeric(e2)
    ensures PairTween(s, e1, s, e2, stepped, 1.0) == (e1, e1)
  {
    assert Compatible(e2, e1);
    if stepped {
      StepAtEnd(e2, e1);
    } else {
      InterpAtEnd(e2, e1, 1.0, false);
    }
  }

  /** Two numbers that start apart each follow their own loop, and return to their start
      values when the loop closes. */
  lemma PairFreeClosure(s1: Val, e1: Val, s2: Val, e2: Val, stepped: bool)
    requires PairReady(s1, e1, s2, e2) && s1.Num? && s2.Num? && s1 != s2
    requires stepped ==> Integral(s1) && Integral(s2) && Integral(e1) && Integral(e2)
    ensures PairTween(s1, e1, s2, e2, stepped, 1.0) == (s1, s2)
  {
    if stepped {
      StepLoopClosure(s1, e1);
      StepLoopClosure(s2, e2);
    } else {
      InterpAtStart(s1, e1, 1.0, true);
      InterpAtStart(s2, e2, 1.0, true);
    }
  }
}
