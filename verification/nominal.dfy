/** Nominal arrays: `NominalArrayInterpolator` in js/math-art.js.

    A nominal array is an array of on/off markers whose length may differ between the
    two keyframes. Instead of blending, the interpolator computes an edit plan once
    (trailing deletions or appends, indices to switch on, indices to switch off) and at
    each frame applies as many edits of the plan as the tween position allows. The
    markers are modelled as booleans, so the source's "truthy" marker is `true`. */
module Nominal {
  import opened Values
  import opened Tween
  import opened TweenFacts

  /** The plan the constructor computes: how many trailing items to delete or append, and
      the overlap indices to switch on (`toSet`) and off (`toClear`), in index order. */
  datatype Plan = Plan(del: nat, add: nat, toSet: seq<nat>, toClear: seq<nat>)

  /** The number of edits a plan holds. */
  function Steps(p: Plan): nat {
    p.del + p.add + |p.toSet| + |p.toClear|
  }

  predicate Ascending(xs: seq<nat>) {
    forall i, j :: 0 <= i < j < |xs| ==> xs[i] < xs[j]
  }

  /** The shape of a plan for the keyframe arrays `s` and `e`: the length change between
      them, and listed indices inside both. */
  predicate Fits(p: Plan, s: seq<bool>, e: seq<bool>) {
    p.del == (if |s| >= |e| then |s| - |e| else 0) &&
    p.add == (if |s| >= |e| then 0 else |e| - |s|) &&
    (forall k :: 0 <= k < |p.toSet| ==> p.toSet[k] < |s| && p.toSet[k] < |e|) &&
    (forall k :: 0 <= k < |p.toClear| ==> p.toClear[k] < |s| && p.toClear[k] < |e|)
  }

  /** The plan the constructor builds for the keyframe arrays `s` and `e`. */
  ghost predicate ValidPlan(p: Plan, s: seq<bool>, e: seq<bool>) {
    Fits(p, s, e) &&
    Ascending(p.toSet) && Ascending(p.toClear) &&
    (forall i: nat :: i in p.toSet <==> i < |s| && i < |e| && !s[i] && e[i]) &&
    (forall i: nat :: i in p.toClear <==> i < |s| && i < |e| && s[i] && !e[i])
  }

  /** The constructor: one pass over the overlapping indices. */
  method NewPlan(s: seq<bool>, e: seq<bool>) returns (p: Plan)
    ensures ValidPlan(p, s, e)
  {
    var del: nat, add: nat, overlap: nat;
    if |s| >= |e| {
      del, add, overlap := |s| - |e|, 0, |e|;
    } else {
      del, add, overlap := 0, |e| - |s|, |s|;
    }
    var toSet: seq<nat> := [];
    var toClear: seq<nat> := [];
    var i: nat := 0;
    while i < overlap
      invariant i <= overlap
      invariant Ascending(toSet) && Ascending(toClear)
      invariant forall k :: 0 <= k < |toSet| ==> toSet[k] < i
      invariant forall k :: 0 <= k < |toClear| ==> toClear[k] < i
      invariant forall j: nat :: j in toSet <==> j < i && !s[j] && e[j]
      invariant forall j: nat :: j in toClear <==> j < i && s[j] && !e[j]
    {
      if e[i] && !s[i] {
        toSet := toSet + [i];
      } else if s[i] != e[i] {
        toClear := toClear + [i];
      }
      i := i + 1;
    }
    p := Plan(del, add, toSet, toClear);
  }

  /** The tail of an ascending list is ascending and holds every member but the head. */
  lemma AscendingTail(xs: seq<nat>)
    requires Ascending(xs) && |xs| > 0
    ensures Ascending(xs[1..])
    ensures forall i :: i in xs[1..] <==> i in xs && i != xs[0]
  {
    forall i
      ensures i in xs[1..] <==> i in xs && i != xs[0]
    {
      if i in xs && i != xs[0] {
        var m :| 0 <= m < |xs| && xs[m] == i;
        assert xs[1..][m - 1] == i;
      }
    }
  }

  /** The head of an ascending list is its least member. */
  lemma AscendingHead(xs: seq<nat>, i: nat)
    requires Ascending(xs) && i in xs
    ensures xs[0] <= i
  {
    var m :| 0 <= m < |xs| && xs[m] == i;
    if m > 0 {
      assert xs[0] < xs[m];
    }
  }

  /** Two ascending lists with the same members are the same list. */
  lemma {:induction false} AscendingUnique(xs: seq<nat>, ys: seq<nat>)
    requires Ascending(xs) && Ascending(ys)
    requires forall i :: i in xs <==> i in ys
    ensures xs == ys
    decreases |xs|
  {
    if |xs| == 0 || |ys| == 0 {
      if |xs| > 0 {
        AscendingHead(xs, xs[0]);
      } else if |ys| > 0 {
        AscendingHead(ys, ys[0]);
      }
    } else {
      assert xs[0] in ys && ys[0] in xs;
      AscendingHead(xs, ys[0]);
      AscendingHead(ys, xs[0]);
      AscendingTail(xs);
      AscendingTail(ys);
      AscendingUnique(xs[1..], ys[1..]);
      assert xs == [xs[0]] + xs[1..] && ys == [ys[0]] + ys[1..];
    }
  }

  /** The keyframes determine the plan. */
  lemma PlanUnique(p: Plan, q: Plan, s: seq<bool>, e: seq<bool>)
    requires ValidPlan(p, s, e) && ValidPlan(q, s, e)
    ensures p == q
  {
    AscendingUnique(p.toSet, q.toSet);
    AscendingUnique(p.toClear, q.toClear);
  }

  /** What a plan says about its keyframes: at most one of the length changes is non-zero
      and together they turn the start length into the end length; the two index lists
      are disjoint and cover exactly the overlap indices where the keyframes differ. */
  lemma PlanShape(p: Plan, s: seq<bool>, e: seq<bool>)
    requires ValidPlan(p, s, e)
    ensures p.del == 0 || p.add == 0
    ensures |s| - p.del + p.add == |e|
    ensures forall i :: i in p.toSet ==> i !in p.toClear
    ensures forall i: nat :: i < |s| && i < |e| ==> (s[i] != e[i] <==> i in p.toSet || i in p.toClear)
  {
  }

  /** `Math.trunc((numSteps + 1) * tween)` for a tween position `u` in [0, 1]. */
  function StepAt(n: nat, u: real): (k: nat)
    requires 0.0 <= u <= 1.0
    ensures k <= n + 1
    ensures k as real <= (n + 1) as real * u < k as real + 1.0
  {
    TimesBetween(n + 1, u);
    TimesIsProduct(n + 1, u);
    Floor(Times(n + 1, u))
  }

  /** No edit is due at the start of a phase, and every edit is due at its end. */
  lemma StepAtEnds(n: nat, u: real)
    requires u == 0.0 || u == 1.0
    ensures u == 0.0 ==> StepAt(n, u) == 0
    ensures u == 1.0 ==> StepAt(n, u) == n + 1
  {
    if u == 0.0 {
      TimesZero(n + 1);
    } else {
      TimesOne(n + 1);
    }
  }

  /** `j` is one of the first `n` indices of `idx`. */
  predicate Listed(idx: seq<nat>, n: nat, j: int)
    requires n <= |idx|
    ensures Listed(idx, n, j) ==> exists k :: 0 <= k < n && idx[k] == j
    decreases n
  {
    n > 0 && (idx[n - 1] == j || Listed(idx, n - 1, j))
  }

  /** Being among the first `n` listed indices is membership in that prefix. */
  lemma {:induction false} ListedPrefix(idx: seq<nat>, n: nat, j: int)
    requires n <= |idx|
    ensures Listed(idx, n, j) <==> j in idx[..n]
    decreases n
  {
    if n > 0 {
      ListedPrefix(idx, n - 1, j);
      assert idx[..n] == idx[..n - 1] + [idx[n - 1]];
    }
  }

  lemma ListedWhole(idx: seq<nat>, j: int)
    ensures Listed(idx, |idx|, j) <==> j in idx
  {
    ListedPrefix(idx, |idx|, j);
    assert idx[..|idx|] == idx;
  }

  /** In an ascending list, an index is not among the ones listed before it. */
  lemma {:induction false} NotYetListed(idx: seq<nat>, n: nat, m: nat)
    requires Ascending(idx) && n <= m < |idx|
    ensures !Listed(idx, n, idx[m])
    decreases n
  {
    if n > 0 {
      assert idx[n - 1] < idx[m];
      NotYetListed(idx, n - 1, m);
    }
  }

  /** The source's loop `value[idx[i]] = src[idx[i]]` over the first `n` listed indices. */
  function CopyAt(v: seq<bool>, idx: seq<nat>, n: nat, src: seq<bool>): (r: seq<bool>)
    requires n <= |idx|
    requires forall k :: 0 <= k < |idx| ==> idx[k] < |v| && idx[k] < |src|
    ensures |r| == |v|
    decreases n
  {
    if n == 0 then v
    else CopyAt(v, idx, n - 1, src)[idx[n - 1] := src[idx[n - 1]]]
  }

  /** Copying the first `n` listed indices changes exactly those items. */
  lemma {:induction false} CopyAtItems(v: seq<bool>, idx: seq<nat>, n: nat, src: seq<bool>)
    requires n <= |idx|
    requires forall k :: 0 <= k < |idx| ==> idx[k] < |v| && idx[k] < |src|
    ensures forall j :: 0 <= j < |v| ==> CopyAt(v, idx, n, src)[j] == if Listed(idx, n, j) then src[j] else v[j]
    decreases n
  {
    if n > 0 {
      CopyAtItems(v, idx, n - 1, src);
    }
  }

  /** The source's loop `value[i] = src[i]` for the `n` positions after the end of `v`. */
  function Extend(v: seq<bool>, src: seq<bool>, n: nat): (r: seq<bool>)
    requires n > 0 ==> |v| + n <= |src|
    ensures |r| == |v| + n
  {
    if n == 0 then v else v + src[|v|..|v| + n]
  }

  /** The extended array keeps `v` and continues with the items of `src` after it. */
  lemma ExtendItems(v: seq<bool>, src: seq<bool>, n: nat)
    requires n > 0 ==> |v| + n <= |src|
    ensures var r := Extend(v, src, n);
      r[..|v|] == v && (forall j :: 0 <= j < |v| ==> r[j] == v[j]) &&
      (forall j :: |v| <= j < |r| ==> r[j] == src[j])
  {
  }

  /** How many edits of each kind have been applied: trailing deletions `d`, appends `a`,
      switch-ons `ns` and switch-offs `nc`. In the second half of a loop `d` counts the
      deleted items appended again and `a` the appended items spliced off again. */
  datatype Counts = Counts(d: nat, a: nat, ns: nat, nc: nat)

  /** No count exceeds what the plan holds. */
  predicate Within(c: Counts, p: Plan) {
    c.d <= p.del && c.a <= p.add && c.ns <= |p.toSet| && c.nc <= |p.toClear|
  }

  function Total(c: Counts): nat {
    c.d + c.a + c.ns + c.nc
  }

  /** Every edit of the plan. */
  function Full(p: Plan): Counts {
    Counts(p.del, p.add, |p.toSet|, |p.toClear|)
  }

  /** The forward edit order: deletions, then (when `addFirst`, the forward half of a loop)
      appends, then switch-ons, then switch-offs, then (without a loop) appends. An edit
      kind starts only once every edit of the kinds before it is applied. */
  predicate InForwardOrder(c: Counts, p: Plan, addFirst: bool) {
    Within(c, p) &&
    (c.a > 0 || c.ns > 0 || c.nc > 0 ==> c.d == p.del) &&
    (addFirst && (c.ns > 0 || c.nc > 0) ==> c.a == p.add) &&
    (c.nc > 0 ==> c.ns == |p.toSet|) &&
    (!addFirst && c.a > 0 ==> c.ns == |p.toSet| && c.nc == |p.toClear|)
  }

  /** The edit order of the second half of a loop: switch-ons undone, then switch-offs
      undone, then the length restored. */
  predicate InBackOrder(c: Counts, p: Plan) {
    Within(c, p) &&
    (c.nc > 0 ==> c.ns == |p.toSet|) &&
    (c.d > 0 || c.a > 0 ==> c.ns == |p.toSet| && c.nc == |p.toClear|)
  }

  /** How `interpolate` spends `step` on the forward phases, one `Math.min` per phase. */
  function ForwardBudget(p: Plan, k: nat, addFirst: bool): (c: Counts)
    ensures InForwardOrder(c, p, addFirst)
    ensures Total(c) == Min(k, Steps(p))
  {
    var d: nat := Min(p.del, k);
    var k0: nat := k - d;
    var a: nat := if addFirst then Min(p.add, k0) else 0;
    var k1: nat := k0 - a;
    var ns: nat := Min(k1, |p.toSet|);
    var k2: nat := k1 - ns;
    var nc: nat := Min(k2, |p.toClear|);
    var k3: nat := k2 - nc;
    Counts(d, if addFirst then a else Min(p.add, k3), ns, nc)
  }

  /** How `interpolate` spends `step` in the second half of a loop. The source computes
      both length restorations from the same remaining step count; at most one of them is
      non-zero. */
  function BackBudget(p: Plan, k: nat): (c: Counts)
    requires p.del == 0 || p.add == 0
    ensures InBackOrder(c, p)
    ensures Total(c) == Min(k, Steps(p))
  {
    var ns: nat := Min(k, |p.toSet|);
    var k1: nat := k - ns;
    var nc: nat := Min(k1, |p.toClear|);
    var k2: nat := k1 - nc;
    Counts(Min(p.del, k2), Min(p.add, k2), ns, nc)
  }

  /** The array after applying the counted forward edits to `s`. */
  function ForwardArray(s: seq<bool>, e: seq<bool>, p: Plan, c: Counts, addFirst: bool): (r: seq<bool>)
    requires Fits(p, s, e) && Within(c, p)
    ensures Min(|s|, |e|) <= |r| <= Max(|s|, |e|)
  {
    var v0 := s[..|s| - c.d];
    var v1 := if addFirst then Extend(v0, e, c.a) else v0;
    var v2 := CopyAt(v1, p.toSet, c.ns, e);
    var v3 := CopyAt(v2, p.toClear, c.nc, e);
    if addFirst then v3 else Extend(v3, e, c.a)
  }

  /** The array after applying the counted edits of the second half of a loop to `e`. */
  function BackArray(s: seq<bool>, e: seq<bool>, p: Plan, c: Counts): (r: seq<bool>)
    requires Fits(p, s, e) && Within(c, p)
    ensures Min(|s|, |e|) <= |r| <= Max(|s|, |e|)
  {
    var v1 := CopyAt(e, p.toSet, c.ns, s);
    var v2 := CopyAt(v1, p.toClear, c.nc, s);
    var v3 := Extend(v2, s, c.d);
    if c.a == 0 then v3 else v3[..|v3| - c.a]
  }

  /** The array after the first `k` edits going from `s` to `e`. */
  function Forward(s: seq<bool>, e: seq<bool>, p: Plan, k: nat, addFirst: bool): (r: seq<bool>)
    requires Fits(p, s, e)
  {
    ForwardArray(s, e, p, ForwardBudget(p, k, addFirst), addFirst)
  }

  /** The array after the first `k` edits of the second half of a loop, from `e` back to `s`. */
  function Back(s: seq<bool>, e: seq<bool>, p: Plan, k: nat): (r: seq<bool>)
    requires Fits(p, s, e)
  {
    BackArray(s, e, p, BackBudget(p, k))
  }

  /** `interpolate(startValue, endValue, tween, loop)`. */
  function Interpolate(p: Plan, s: seq<bool>, e: seq<bool>, t: real, loop: bool): (r: seq<bool>)
    requires Fits(p, s, e)
    requires 0.0 <= t <= 1.0
    ensures Min(|s|, |e|) <= |r| <= Max(|s|, |e|)
  {
    if loop && t > 0.5 then Back(s, e, p, StepAt(Steps(p), (t - 0.5) * 2.0))
    else Forward(s, e, p, StepAt(Steps(p), if loop then t * 2.0 else t), loop)
  }

  /** The counts after one more forward edit: one more of the first kind, in forward
      order, that has edits left. */
  function NextForward(c: Counts, p: Plan, addFirst: bool): Counts {
    if c.d < p.del then c.(d := c.d + 1)
    else if addFirst && c.a < p.add then c.(a := c.a + 1)
    else if c.ns < |p.toSet| then c.(ns := c.ns + 1)
    else if c.nc < |p.toClear| then c.(nc := c.nc + 1)
    else c.(a := c.a + 1)
  }

  /** The counts after one more edit of the second half of a loop. */
  function NextBack(c: Counts, p: Plan): Counts {
    if c.ns < |p.toSet| then c.(ns := c.ns + 1)
    else if c.nc < |p.toClear| then c.(nc := c.nc + 1)
    else if c.d < p.del then c.(d := c.d + 1)
    else c.(a := c.a + 1)
  }

  /** One more step applies exactly the next edit in forward order. */
  lemma ForwardBudgetStep(p: Plan, k: nat, addFirst: bool)
    requires k < Steps(p)
    ensures ForwardBudget(p, k + 1, addFirst) == NextForward(ForwardBudget(p, k, addFirst), p, addFirst)
  {
  }

  /** One more step applies exactly the next edit of the second half of a loop. */
  lemma BackBudgetStep(p: Plan, k: nat)
    requires p.del == 0 || p.add == 0
    requires k < Steps(p)
    ensures BackBudget(p, k + 1) == NextBack(BackBudget(p, k), p)
  {
  }

  /** No forward edit is applied at step 0. */
  lemma ForwardBudgetStart(p: Plan, addFirst: bool)
    ensures ForwardBudget(p, 0, addFirst) == Counts(0, 0, 0, 0)
  {
  }

  /** Every forward edit is applied from step `Steps(p)` on. */
  lemma ForwardBudgetDone(p: Plan, k: nat, addFirst: bool)
    requires k >= Steps(p)
    ensures ForwardBudget(p, k, addFirst) == Full(p)
  {
    if addFirst {
      assert ForwardBudget(p, k, true) == Full(p);
    } else {
      assert ForwardBudget(p, k, false) == Full(p);
    }
  }

  /** No edit of the second half of a loop is applied at step 0. */
  lemma BackBudgetStart(p: Plan)
    requires p.del == 0 || p.add == 0
    ensures BackBudget(p, 0) == Counts(0, 0, 0, 0)
  {
  }

  /** Every edit of the second half of a loop is applied from step `Steps(p)` on. */
  lemma BackBudgetDone(p: Plan, k: nat)
    requires p.del == 0 || p.add == 0
    requires k >= Steps(p)
    ensures BackBudget(p, k) == Full(p)
  {
  }

  /** `b` is `a` with exactly one edit: one item appended, the last item removed, or one
      item changed. */
  predicate OneEdit(a: seq<bool>, b: seq<bool>) {
    (|b| == |a| + 1 && Prefix(a, b)) ||
    (|a| == |b| + 1 && Prefix(b, a)) ||
    (exists i :: 0 <= i < |a| && ChangedAt(a, b, i))
  }

  /** Every item of `a` is the item of `b` at the same index. */
  predicate Prefix(a: seq<bool>, b: seq<bool>) {
    |a| <= |b| && forall j :: 0 <= j < |a| ==> a[j] == b[j]
  }

  /** `b` is `a` with only the item at index `i` changed. */
  predicate ChangedAt(a: seq<bool>, b: seq<bool>, i: int) {
    |a| == |b| && 0 <= i < |a| && a[i] != b[i] &&
    forall j :: 0 <= j < |a| && j != i ==> a[j] == b[j]
  }

  /** Copying one more listed index is one edit when that index still holds a different
      value. */
  lemma CopyStep(v: seq<bool>, idx: seq<nat>, n: nat, src: seq<bool>)
    requires n < |idx| && Ascending(idx)
    requires forall k :: 0 <= k < |idx| ==> idx[k] < |v| && idx[k] < |src|
    requires v[idx[n]] != src[idx[n]]
    ensures OneEdit(CopyAt(v, idx, n, src), CopyAt(v, idx, n + 1, src))
  {
    var a, b := CopyAt(v, idx, n, src), CopyAt(v, idx, n + 1, src);
    CopyAtItems(v, idx, n, src);
    NotYetListed(idx, n, n);
    assert b == a[idx[n] := src[idx[n]]];
    assert ChangedAt(a, b, idx[n]);
  }

  /** Appending one more item is one edit. */
  lemma ExtendStep(v: seq<bool>, src: seq<bool>, n: nat)
    requires |v| + n + 1 <= |src|
    ensures OneEdit(Extend(v, src, n), Extend(v, src, n + 1))
  {
    var a, b := Extend(v, src, n), Extend(v, src, n + 1);
    ExtendItems(v, src, n);
    ExtendItems(v, src, n + 1);
    assert Prefix(a, b);
  }

  /** Removing the last item is one edit. */
  lemma TruncateStep(v: seq<bool>, m: nat)
    requires m < |v|
    ensures OneEdit(v[..m + 1], v[..m])
  {
    assert v[..m + 1][..m] == v[..m];
  }

  /** The array the forward switches are applied to. */
  function Trimmed(s: seq<bool>, e: seq<bool>, p: Plan, c: Counts, addFirst: bool): (r: seq<bool>)
    requires Fits(p, s, e) && Within(c, p)
    ensures |r| >= Min(|s|, |e|)
  {
    var v0 := s[..|s| - c.d];
    if addFirst then Extend(v0, e, c.a) else v0
  }

  /** The trimmed array has lost the deleted items and gained the early appends. */
  lemma TrimmedLength(s: seq<bool>, e: seq<bool>, p: Plan, c: Counts, addFirst: bool)
    requires Fits(p, s, e) && Within(c, p)
    ensures |Trimmed(s, e, p, c, addFirst)| == |s| - c.d + if addFirst then c.a else 0
  {
  }

  /** The trimmed array agrees with the start array on the overlap. */
  lemma TrimmedItems(s: seq<bool>, e: seq<bool>, p: Plan, c: Counts, addFirst: bool)
    requires Fits(p, s, e) && Within(c, p)
    ensures var r := Trimmed(s, e, p, c, addFirst);
      forall j :: 0 <= j < Min(|s|, |e|) ==> r[j] == s[j]
  {
    if addFirst {
      ExtendItems(s[..|s| - c.d], e, c.a);
    }
  }

  /** The trimmed array depends only on the deletions and early appends. */
  lemma TrimmedSame(s: seq<bool>, e: seq<bool>, p: Plan, c: Counts, c': Counts, addFirst: bool)
    requires Fits(p, s, e) && Within(c, p) && Within(c', p) && c'.d == c.d && c'.a == c.a
    ensures Trimmed(s, e, p, c', addFirst) == Trimmed(s, e, p, c, addFirst)
  {
  }

  /** While items are being deleted, the forward array is the start array without its last
      items. */
  lemma ForwardDeleteShape(s: seq<bool>, e: seq<bool>, p: Plan, c: Counts, addFirst: bool)
    requires Fits(p, s, e) && Within(c, p) && c.a == 0 && c.ns == 0 && c.nc == 0
    ensures ForwardArray(s, e, p, c, addFirst) == s[..|s| - c.d]
  {
  }

  lemma ForwardDeleteEdit(s: seq<bool>, e: seq<bool>, p: Plan, c: Counts, addFirst: bool)
    requires Fits(p, s, e) && InForwardOrder(c, p, addFirst) && c.d < p.del
    ensures OneEdit(ForwardArray(s, e, p, c, addFirst), ForwardArray(s, e, p, NextForward(c, p, addFirst), addFirst))
  {
    var c' := c.(d := c.d + 1);
    assert NextForward(c, p, addFirst) == c';
    ForwardDeleteShape(s, e, p, c, addFirst);
    ForwardDeleteShape(s, e, p, c', addFirst);
    TruncateStep(s, |s| - c.d - 1);
  }

  /** While items are appended early, the forward array is the trimmed start array with
      the first appends. */
  lemma ForwardAppendShape(s: seq<bool>, e: seq<bool>, p: Plan, c: Counts)
    requires Fits(p, s, e) && Within(c, p) && c.ns == 0 && c.nc == 0
    ensures ForwardArray(s, e, p, c, true) == Extend(s[..|s| - c.d], e, c.a)
  {
  }

  lemma ForwardAppendFirstEdit(s: seq<bool>, e: seq<bool>, p: Plan, c: Counts)
    requires Fits(p, s, e) && InForwardOrder(c, p, true) && c.d == p.del && c.a < p.add
    ensures OneEdit(ForwardArray(s, e, p, c, true), ForwardArray(s, e, p, NextForward(c, p, true), true))
  {
    var c' := c.(a := c.a + 1);
    assert NextForward(c, p, true) == c';
    ForwardAppendShape(s, e, p, c);
    ForwardAppendShape(s, e, p, c');
    ExtendStep(s[..|s| - c.d], e, c.a);
  }

  /** Switching on one more listed index is one edit. */
  lemma SetFlip(s: seq<bool>, e: seq<bool>, p: Plan, t: seq<bool>, n: nat)
    requires ValidPlan(p, s, e) && n < |p.toSet|
    requires |t| >= Min(|s|, |e|) && forall j :: 0 <= j < Min(|s|, |e|) ==> t[j] == s[j]
    ensures OneEdit(CopyAt(t, p.toSet, n, e), CopyAt(t, p.toSet, n + 1, e))
  {
    assert p.toSet[n] in p.toSet;
    CopyStep(t, p.toSet, n, e);
  }

  /** Switching off one more listed index, after every switch-on, is one edit. */
  lemma ClearFlip(s: seq<bool>, e: seq<bool>, p: Plan, t: seq<bool>, n: nat)
    requires ValidPlan(p, s, e) && n < |p.toClear|
    requires |t| >= Min(|s|, |e|) && forall j :: 0 <= j < Min(|s|, |e|) ==> t[j] == s[j]
    ensures OneEdit(CopyAt(CopyAt(t, p.toSet, |p.toSet|, e), p.toClear, n, e),
                    CopyAt(CopyAt(t, p.toSet, |p.toSet|, e), p.toClear, n + 1, e))
  {
    var u := CopyAt(t, p.toSet, |p.toSet|, e);
    var i := p.toClear[n];
    assert i in p.toClear && i !in p.toSet;
    ListedWhole(p.toSet, i);
    CopyAtItems(t, p.toSet, |p.toSet|, e);
    assert u[i] == t[i];
    CopyStep(u, p.toClear, n, e);
  }

  /** Before any late append, the forward array is the trimmed start with its switches. */
  lemma ForwardArrayShape(s: seq<bool>, e: seq<bool>, p: Plan, c: Counts, addFirst: bool)
    requires Fits(p, s, e) && Within(c, p) && (!addFirst ==> c.a == 0)
    ensures ForwardArray(s, e, p, c, addFirst) ==
            CopyAt(CopyAt(Trimmed(s, e, p, c, addFirst), p.toSet, c.ns, e), p.toClear, c.nc, e)
  {
  }

  /** While switches are being turned on, the forward array is the trimmed start with the
      first switch-ons. */
  lemma ForwardSetShape(s: seq<bool>, e: seq<bool>, p: Plan, c: Counts, addFirst: bool)
    requires Fits(p, s, e) && Within(c, p) && (!addFirst ==> c.a == 0) && c.nc == 0
    ensures ForwardArray(s, e, p, c, addFirst) == CopyAt(Trimmed(s, e, p, c, addFirst), p.toSet, c.ns, e)
  {
    ForwardArrayShape(s, e, p, c, addFirst);
  }

  lemma ForwardSetEdit(s: seq<bool>, e: seq<bool>, p: Plan, c: Counts, addFirst: bool)
    requires ValidPlan(p, s, e) && Within(c, p) && (!addFirst ==> c.a == 0)
    requires c.nc == 0 && c.ns < |p.toSet|
    ensures OneEdit(ForwardArray(s, e, p, c, addFirst), ForwardArray(s, e, p, c.(ns := c.ns + 1), addFirst))
  {
    var c' := c.(ns := c.ns + 1);
    TrimmedSame(s, e, p, c, c', addFirst);
    ForwardSetShape(s, e, p, c, addFirst);
    ForwardSetShape(s, e, p, c', addFirst);
    TrimmedItems(s, e, p, c, addFirst);
    SetFlip(s, e, p, Trimmed(s, e, p, c, addFirst), c.ns);
  }

  lemma ForwardClearEdit(s: seq<bool>, e: seq<bool>, p: Plan, c: Counts, addFirst: bool)
    requires ValidPlan(p, s, e) && Within(c, p) && (!addFirst ==> c.a == 0)
    requires c.ns == |p.toSet| && c.nc < |p.toClear|
    ensures OneEdit(ForwardArray(s, e, p, c, addFirst), ForwardArray(s, e, p, c.(nc := c.nc + 1), addFirst))
  {
    var c' := c.(nc := c.nc + 1);
    TrimmedSame(s, e, p, c, c', addFirst);
    ForwardArrayShape(s, e, p, c, addFirst);
    ForwardArrayShape(s, e, p, c', addFirst);
    TrimmedItems(s, e, p, c, addFirst);
    ClearFlip(s, e, p, Trimmed(s, e, p, c, addFirst), c.nc);
  }

  /** Without a loop, the forward array is the switched, trimmed start array followed by
      the appended items. */
  lemma ForwardLateShape(s: seq<bool>, e: seq<bool>, p: Plan, c: Counts)
    requires Fits(p, s, e) && Within(c, p)
    ensures ForwardArray(s, e, p, c, false) ==
            Extend(CopyAt(CopyAt(s[..|s| - c.d], p.toSet, c.ns, e), p.toClear, c.nc, e), e, c.a)
  {
  }

  lemma ForwardAppendLastEdit(s: seq<bool>, e: seq<bool>, p: Plan, c: Counts)
    requires Fits(p, s, e) && InForwardOrder(c, p, false)
    requires c.d == p.del && c.ns == |p.toSet| && c.nc == |p.toClear| && c.a < p.add
    ensures OneEdit(ForwardArray(s, e, p, c, false), ForwardArray(s, e, p, NextForward(c, p, false), false))
  {
    var c' := c.(a := c.a + 1);
    assert NextForward(c, p, false) == c';
    ForwardLateShape(s, e, p, c);
    ForwardLateShape(s, e, p, c');
    ExtendStep(CopyAt(CopyAt(s[..|s| - c.d], p.toSet, c.ns, e), p.toClear, c.nc, e), e, c.a);
  }

  /** Without a loop, and in the forward half of a loop, every further step up to the
      plan's length applies exactly one edit. */
  lemma ForwardOneEdit(s: seq<bool>, e: seq<bool>, p: Plan, k: nat, addFirst: bool)
    requires ValidPlan(p, s, e) && k < Steps(p)
    ensures OneEdit(Forward(s, e, p, k, addFirst), Forward(s, e, p, k + 1, addFirst))
  {
    ForwardBudgetStep(p, k, addFirst);
    var c := ForwardBudget(p, k, addFirst);
    if c.d < p.del {
      ForwardDeleteEdit(s, e, p, c, addFirst);
    } else if addFirst && c.a < p.add {
      ForwardAppendFirstEdit(s, e, p, c);
    } else if c.ns < |p.toSet| {
      assert NextForward(c, p, addFirst) == c.(ns := c.ns + 1);
      ForwardSetEdit(s, e, p, c, addFirst);
    } else if c.nc < |p.toClear| {
      assert NextForward(c, p, addFirst) == c.(nc := c.nc + 1);
      ForwardClearEdit(s, e, p, c, addFirst);
    } else {
      ForwardAppendLastEdit(s, e, p, c);
    }
  }

  /** Before the length is restored, the array of the second half of a loop is the end
      array with its switches undone. */
  lemma BackArrayShape(s: seq<bool>, e: seq<bool>, p: Plan, c: Counts)
    requires Fits(p, s, e) && Within(c, p) && c.d == 0 && c.a == 0
    ensures BackArray(s, e, p, c) == CopyAt(CopyAt(e, p.toSet, c.ns, s), p.toClear, c.nc, s)
  {
    var v := CopyAt(CopyAt(e, p.toSet, c.ns, s), p.toClear, c.nc, s);
    assert v[..|v|] == v;
  }

  lemma BackSetEdit(s: seq<bool>, e: seq<bool>, p: Plan, c: Counts)
    requires ValidPlan(p, s, e) && Within(c, p) && c.d == 0 && c.a == 0
    requires c.nc == 0 && c.ns < |p.toSet|
    ensures OneEdit(BackArray(s, e, p, c), BackArray(s, e, p, c.(ns := c.ns + 1)))
  {
    BackSetShape(s, e, p, c, c.ns);
    BackSetShape(s, e, p, c.(ns := c.ns + 1), c.ns + 1);
    SetDiffers(s, e, p, c.ns);
    CopyStep(e, p.toSet, c.ns, s);
  }

  /** While switch-ons are being undone, the array is the end array with the first `n`
      undone. */
  lemma BackSetShape(s: seq<bool>, e: seq<bool>, p: Plan, c: Counts, n: nat)
    requires Fits(p, s, e) && Within(c, p) && c.d == 0 && c.a == 0 && c.nc == 0 && c.ns == n
    ensures BackArray(s, e, p, c) == CopyAt(e, p.toSet, n, s)
  {
    BackArrayShape(s, e, p, c);
  }

  /** The keyframes differ at every index listed to switch on, which lies in both. */
  lemma SetDiffers(s: seq<bool>, e: seq<bool>, p: Plan, n: nat)
    requires ValidPlan(p, s, e) && n < |p.toSet|
    ensures forall k :: 0 <= k < |p.toSet| ==> p.toSet[k] < |e| && p.toSet[k] < |s|
    ensures e[p.toSet[n]] != s[p.toSet[n]]
  {
    assert p.toSet[n] in p.toSet;
  }

  lemma BackClearEdit(s: seq<bool>, e: seq<bool>, p: Plan, c: Counts)
    requires ValidPlan(p, s, e) && Within(c, p) && c.d == 0 && c.a == 0
    requires c.ns == |p.toSet| && c.nc < |p.toClear|
    ensures OneEdit(BackArray(s, e, p, c), BackArray(s, e, p, c.(nc := c.nc + 1)))
  {
    var c' := c.(nc := c.nc + 1);
    BackArrayShape(s, e, p, c);
    BackArrayShape(s, e, p, c');
    RestoreFlip(s, e, p, c.nc);
  }

  /** Switching a switched-off index back on, after every switch-on is undone, is one
      edit. */
  lemma RestoreFlip(s: seq<bool>, e: seq<bool>, p: Plan, n: nat)
    requires ValidPlan(p, s, e) && n < |p.toClear|
    ensures OneEdit(CopyAt(CopyAt(e, p.toSet, |p.toSet|, s), p.toClear, n, s),
                    CopyAt(CopyAt(e, p.toSet, |p.toSet|, s), p.toClear, n + 1, s))
  {
    var u := CopyAt(e, p.toSet, |p.toSet|, s);
    var i := p.toClear[n];
    assert i in p.toClear && i !in p.toSet;
    ListedWhole(p.toSet, i);
    CopyAtItems(e, p.toSet, |p.toSet|, s);
    assert u[i] == e[i];
    CopyStep(u, p.toClear, n, s);
  }

  /** While deleted items are restored, the array is the switched end array followed by
      the first restored items. */
  lemma BackRestoreShape(s: seq<bool>, e: seq<bool>, p: Plan, c: Counts)
    requires Fits(p, s, e) && Within(c, p) && c.a == 0
    ensures BackArray(s, e, p, c) == Extend(CopyAt(CopyAt(e, p.toSet, c.ns, s), p.toClear, c.nc, s), s, c.d)
  {
    var v := Extend(CopyAt(CopyAt(e, p.toSet, c.ns, s), p.toClear, c.nc, s), s, c.d);
    assert v[..|v|] == v;
  }

  lemma BackRestoreEdit(s: seq<bool>, e: seq<bool>, p: Plan, c: Counts)
    requires ValidPlan(p, s, e) && Within(c, p) && c.a == 0
    requires c.ns == |p.toSet| && c.nc == |p.toClear| && c.d < p.del
    ensures OneEdit(BackArray(s, e, p, c), BackArray(s, e, p, c.(d := c.d + 1)))
  {
    var c' := c.(d := c.d + 1);
    BackRestoreShape(s, e, p, c);
    BackRestoreShape(s, e, p, c');
    ExtendStep(CopyAt(CopyAt(e, p.toSet, c.ns, s), p.toClear, c.nc, s), s, c.d);
  }

  /** Once the appended items are being removed, the array is the switched end array
      without its last items. */
  lemma BackSpliceShape(s: seq<bool>, e: seq<bool>, p: Plan, c: Counts)
    requires Fits(p, s, e) && Within(c, p) && c.d == 0
    ensures var w := CopyAt(CopyAt(e, p.toSet, c.ns, s), p.toClear, c.nc, s);
      c.a <= |w| && BackArray(s, e, p, c) == w[..|w| - c.a]
  {
  }

  lemma BackSpliceEdit(s: seq<bool>, e: seq<bool>, p: Plan, c: Counts)
    requires ValidPlan(p, s, e) && Within(c, p) && c.d == 0 && p.del == 0
    requires c.ns == |p.toSet| && c.nc == |p.toClear| && c.a < p.add
    ensures OneEdit(BackArray(s, e, p, c), BackArray(s, e, p, c.(a := c.a + 1)))
  {
    var c' := c.(a := c.a + 1);
    var w := CopyAt(CopyAt(e, p.toSet, c.ns, s), p.toClear, c.nc, s);
    BackSpliceShape(s, e, p, c);
    BackSpliceShape(s, e, p, c');
    TruncateStep(w, |w| - c.a - 1);
  }

  /** In the second half of a loop, every further step up to the plan's length applies
      exactly one edit. */
  lemma BackOneEdit(s: seq<bool>, e: seq<bool>, p: Plan, k: nat)
    requires ValidPlan(p, s, e) && k < Steps(p)
    ensures OneEdit(Back(s, e, p, k), Back(s, e, p, k + 1))
  {
    BackBudgetStep(p, k);
    var c := BackBudget(p, k);
    if c.ns < |p.toSet| {
      assert NextBack(c, p) == c.(ns := c.ns + 1);
      BackSetEdit(s, e, p, c);
    } else if c.nc < |p.toClear| {
      assert NextBack(c, p) == c.(nc := c.nc + 1);
      BackClearEdit(s, e, p, c);
    } else if c.d < p.del {
      assert NextBack(c, p) == c.(d := c.d + 1);
      BackRestoreEdit(s, e, p, c);
    } else {
      assert NextBack(c, p) == c.(a := c.a + 1);
      BackSpliceEdit(s, e, p, c);
    }
  }

  /** Applying no edit copies the start array (forward) or the end array (second half of
      a loop). */
  lemma NoEdits(s: seq<bool>, e: seq<bool>, p: Plan, addFirst: bool)
    requires Fits(p, s, e)
    ensures ForwardArray(s, e, p, Counts(0, 0, 0, 0), addFirst) == s
    ensures BackArray(s, e, p, Counts(0, 0, 0, 0)) == e
  {
    assert s[..|s|] == s && e[..|e|] == e;
  }

  /** Applying every switch of the plan to an array that holds, at each overlap index,
      the start or the end item gives the target's item there. */
  lemma AllSwitched(t: seq<bool>, s: seq<bool>, e: seq<bool>, p: Plan, src: seq<bool>)
    requires ValidPlan(p, s, e)
    requires |t| >= Min(|s|, |e|) && |src| >= Min(|s|, |e|)
    requires forall j :: 0 <= j < Min(|s|, |e|) ==> (t[j] == s[j] || t[j] == e[j])
    requires forall j :: 0 <= j < Min(|s|, |e|) ==> (src[j] == s[j] || src[j] == e[j])
    ensures var r := CopyAt(CopyAt(t, p.toSet, |p.toSet|, src), p.toClear, |p.toClear|, src);
      |r| == |t| &&
      (forall j :: 0 <= j < Min(|s|, |e|) ==> r[j] == src[j]) &&
      (forall j :: Min(|s|, |e|) <= j < |t| ==> r[j] == t[j])
  {
    CopyAtItems(t, p.toSet, |p.toSet|, src);
    CopyAtItems(CopyAt(t, p.toSet, |p.toSet|, src), p.toClear, |p.toClear|, src);
    forall j | 0 <= j < |t|
      ensures Listed(p.toSet, |p.toSet|, j) <==> j in p.toSet
      ensures Listed(p.toClear, |p.toClear|, j) <==> j in p.toClear
    {
      ListedWhole(p.toSet, j);
      ListedWhole(p.toClear, j);
    }
  }

  lemma ForwardFullShape(s: seq<bool>, e: seq<bool>, p: Plan, addFirst: bool)
    requires Fits(p, s, e)
    ensures var t := Trimmed(s, e, p, Full(p), addFirst);
            var w := CopyAt(CopyAt(t, p.toSet, |p.toSet|, e), p.toClear, |p.toClear|, e);
            ForwardArray(s, e, p, Full(p), addFirst) == if addFirst then w else Extend(w, e, p.add)
  {
  }

  /** Applying every forward edit produces the end array. */
  lemma AllForward(s: seq<bool>, e: seq<bool>, p: Plan, addFirst: bool)
    requires ValidPlan(p, s, e)
    ensures ForwardArray(s, e, p, Full(p), addFirst) == e
  {
    ForwardFullShape(s, e, p, addFirst);
    TrimmedItems(s, e, p, Full(p), addFirst);
    AllSwitched(Trimmed(s, e, p, Full(p), addFirst), s, e, p, e);
    if addFirst {
      AllForwardLoop(s, e, p);
    } else {
      AllForwardPlain(s, e, p);
    }
  }

  /** In the forward half of a loop the trimmed array already has the end array's length,
      and the switches make it the end array. */
  lemma AllForwardLoop(s: seq<bool>, e: seq<bool>, p: Plan)
    requires Fits(p, s, e)
    requires var t := Trimmed(s, e, p, Full(p), true);
      var w := CopyAt(CopyAt(t, p.toSet, |p.toSet|, e), p.toClear, |p.toClear|, e);
      (forall j :: 0 <= j < Min(|s|, |e|) ==> w[j] == e[j]) &&
      (forall j :: Min(|s|, |e|) <= j < |t| ==> w[j] == t[j])
    ensures CopyAt(CopyAt(Trimmed(s, e, p, Full(p), true), p.toSet, |p.toSet|, e), p.toClear, |p.toClear|, e) == e
  {
    ExtendItems(s[..|s| - p.del], e, p.add);
    SwitchedEnd(Trimmed(s, e, p, Full(p), true), e, p, Min(|s|, |e|));
  }

  /** Without a loop the trimmed array has the overlap's length, the switches make it
      the end array's prefix, and the late appends complete it. */
  lemma AllForwardPlain(s: seq<bool>, e: seq<bool>, p: Plan)
    requires Fits(p, s, e)
    requires var t := Trimmed(s, e, p, Full(p), false);
      var w := CopyAt(CopyAt(t, p.toSet, |p.toSet|, e), p.toClear, |p.toClear|, e);
      (forall j :: 0 <= j < Min(|s|, |e|) ==> w[j] == e[j])
    ensures var w := CopyAt(CopyAt(Trimmed(s, e, p, Full(p), false), p.toSet, |p.toSet|, e), p.toClear, |p.toClear|, e);
      Extend(w, e, p.add) == e
  {
    var t := Trimmed(s, e, p, Full(p), false);
    TrimmedLength(s, e, p, Full(p), false);
    AppendsComplete(CopyAt(CopyAt(t, p.toSet, |p.toSet|, e), p.toClear, |p.toClear|, e), e, p.add);
  }

  /** A prefix of the end array, extended by the end array's remaining items, is the end
      array. */
  lemma AppendsComplete(w: seq<bool>, e: seq<bool>, n: nat)
    requires |w| + n == |e|
    requires forall j :: 0 <= j < |w| ==> w[j] == e[j]
    ensures Extend(w, e, n) == e
  {
    assert w == e[..|w|];
    assert e[..|w|] + e[|w|..|w| + n] == e;
  }

  /** An array whose switched items agree with the end array below `m`, and whose other
      items agree with it from `m` on, has become the end array's prefix. */
  lemma SwitchedEnd(t: seq<bool>, e: seq<bool>, p: Plan, m: nat)
    requires m <= |t| <= |e|
    requires forall k :: 0 <= k < |p.toSet| ==> p.toSet[k] < |t| && p.toSet[k] < |e|
    requires forall k :: 0 <= k < |p.toClear| ==> p.toClear[k] < |t| && p.toClear[k] < |e|
    requires var w := CopyAt(CopyAt(t, p.toSet, |p.toSet|, e), p.toClear, |p.toClear|, e);
      (forall j :: 0 <= j < m ==> w[j] == e[j]) && (forall j :: m <= j < |t| ==> w[j] == t[j])
    requires forall j :: m <= j < |t| ==> t[j] == e[j]
    ensures CopyAt(CopyAt(t, p.toSet, |p.toSet|, e), p.toClear, |p.toClear|, e) == e[..|t|]
  {
  }

  lemma BackFullShape(s: seq<bool>, e: seq<bool>, p: Plan)
    requires Fits(p, s, e)
    ensures var w := CopyAt(CopyAt(e, p.toSet, |p.toSet|, s), p.toClear, |p.toClear|, s);
            var v := Extend(w, s, p.del);
            BackArray(s, e, p, Full(p)) == v[..|v| - p.add]
  {
  }

  /** Applying every edit of the second half of a loop restores the start array. */
  lemma AllBack(s: seq<bool>, e: seq<bool>, p: Plan)
    requires ValidPlan(p, s, e)
    ensures BackArray(s, e, p, Full(p)) == s
  {
    BackFullShape(s, e, p);
    AllSwitched(e, s, e, p, s);
    RestoreLength(CopyAt(CopyAt(e, p.toSet, |p.toSet|, s), p.toClear, |p.toClear|, s), s, e, p);
  }

  /** An end-length array that agrees with the start array on the overlap becomes the start
      array once the deleted items are restored and the appended ones dropped. */
  lemma RestoreLength(w: seq<bool>, s: seq<bool>, e: seq<bool>, p: Plan)
    requires Fits(p, s, e) && |w| == |e|
    requires forall j :: 0 <= j < Min(|s|, |e|) ==> w[j] == s[j]
    ensures var v := Extend(w, s, p.del); v[..|v| - p.add] == s
  {
    var v := Extend(w, s, p.del);
    ExtendItems(w, s, p.del);
    assert |v[..|v| - p.add]| == |s|;
    forall j | 0 <= j < |s|
      ensures v[..|v| - p.add][j] == s[j]
    {
      if j < |w| {
        assert v[j] == w[j];
      }
    }
  }

  /** `interpolate` at the ends of the tween: the start array at 0; without a loop the end
      array at 1; with a loop the end array at 0.5, and the start array again at 1. Just
      after 0.5 the second half starts from a copy of the end array. */
  lemma InterpolateEnds(p: Plan, s: seq<bool>, e: seq<bool>)
    requires ValidPlan(p, s, e)
    ensures Interpolate(p, s, e, 0.0, false) == s && Interpolate(p, s, e, 0.0, true) == s
    ensures Interpolate(p, s, e, 1.0, false) == e
    ensures Interpolate(p, s, e, 0.5, true) == e
    ensures Interpolate(p, s, e, 1.0, true) == s
    ensures Back(s, e, p, 0) == e
  {
    var n := Steps(p);
    StepAtEnds(n, 0.0);
    StepAtEnds(n, 1.0);
    ForwardBudgetStart(p, false);
    ForwardBudgetStart(p, true);
    ForwardBudgetDone(p, n + 1, false);
    ForwardBudgetDone(p, n + 1, true);
    BackBudgetStart(p);
    BackBudgetDone(p, n + 1);
    NoEdits(s, e, p, false);
    NoEdits(s, e, p, true);
    AllForward(s, e, p, false);
    AllForward(s, e, p, true);
    AllBack(s, e, p);
  }

  /** A worked example: from [on, off, off] to [off, on, on, on] the plan appends one item,
      switches indices 1 and 2 on and index 0 off: four edits. */
  lemma PlanScenario(p: Plan)
    requires ValidPlan(p, [true, false, false], [false, true, true, true])
    ensures p == Plan(0, 1, [1, 2], [0]) && Steps(p) == 4
  {
    ScenarioPlanValid();
    PlanUnique(p, Plan(0, 1, [1, 2], [0]), [true, false, false], [false, true, true, true]);
  }

  lemma ScenarioPlanValid()
    ensures ValidPlan(Plan(0, 1, [1, 2], [0]), [true, false, false], [false, true, true, true])
  {
    var s, e := [true, false, false], [false, true, true, true];
    var q := Plan(0, 1, [1, 2], [0]);
    forall i: nat
      ensures i in q.toSet <==> i < |s| && i < |e| && !s[i] && e[i]
      ensures i in q.toClear <==> i < |s| && i < |e| && s[i] && !e[i]
    {
    }
  }

  /** The same example after its first edit: without a loop the first switch-on comes
      first; in the forward half of a loop the append does. */
  lemma FirstEditScenario(p: Plan)
    requires ValidPlan(p, [true, false, false], [false, true, true, true])
    ensures Forward([true, false, false], [false, true, true, true], p, 1, false) == [true, true, false]
    ensures Forward([true, false, false], [false, true, true, true], p, 1, true) == [true, false, false, true]
  {
    PlanScenario(p);
    FirstEditPlain(p);
    FirstEditLoop(p);
  }

  lemma FirstEditPlain(p: Plan)
    requires p == Plan(0, 1, [1, 2], [0])
    requires ValidPlan(p, [true, false, false], [false, true, true, true])
    ensures Forward([true, false, false], [false, true, true, true], p, 1, false) == [true, true, false]
  {
    var s, e := [true, false, false], [false, true, true, true];
    var c := Counts(0, 0, 1, 0);
    ScenarioBudget(p);
    ScenarioSwitch(p);
    ForwardArrayShape(s, e, p, c, false);
  }

  lemma ScenarioBudget(p: Plan)
    requires p == Plan(0, 1, [1, 2], [0])
    ensures ForwardBudget(p, 1, false) == Counts(0, 0, 1, 0)
  {
  }

  lemma ScenarioSwitch(p: Plan)
    requires p == Plan(0, 1, [1, 2], [0])
    requires ValidPlan(p, [true, false, false], [false, true, true, true])
    ensures Trimmed([true, false, false], [false, true, true, true], p, Counts(0, 0, 1, 0), false) == [true, false, false]
    ensures CopyAt([true, false, false], p.toSet, 1, [false, true, true, true]) == [true, true, false]
    ensures CopyAt([true, true, false], p.toClear, 0, [false, true, true, true]) == [true, true, false]
  {
  }

  lemma FirstEditLoop(p: Plan)
    requires p == Plan(0, 1, [1, 2], [0])
    requires ValidPlan(p, [true, false, false], [false, true, true, true])
    ensures Forward([true, false, false], [false, true, true, true], p, 1, true) == [true, false, false, true]
  {
    var s, e := [true, false, false], [false, true, true, true];
    LoopBudget(p);
    ForwardAppendShape(s, e, p, Counts(0, 1, 0, 0));
    ScenarioAppend(s, e);
  }

  lemma LoopBudget(p: Plan)
    requires p == Plan(0, 1, [1, 2], [0])
    ensures ForwardBudget(p, 1, true) == Counts(0, 1, 0, 0)
  {
  }

  lemma ScenarioAppend(s: seq<bool>, e: seq<bool>)
    requires s == [true, false, false] && e == [false, true, true, true]
    ensures Extend(s[..|s| - 0], e, 1) == [true, false, false, true]
  {
    assert s[..|s| - 0] == s;
  }
}
