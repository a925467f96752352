/** Animatable values of a generator, as the tweening engine in js/math-art.js sees them.

    JavaScript has a single number type, so every number is a `Num` holding a `real`;
    booleans are `Flag`s, arrays (possibly nested, possibly of different lengths at the
    two keyframes) are `Arr`, and `Undef` stands for JavaScript's `undefined`, which
    `interpolateValue` produces for two different booleans. */
module Values {

  datatype Val = Num(x: real) | Flag(b: bool) | Arr(items: seq<Val>) | Undef

  /** A value that may be `undefined` (or, for numbers, `NaN`). */
  datatype Option<T> = None | Some(value: T)

  function Min(a: int, b: int): (r: int)
    ensures r <= a && r <= b && (r == a || r == b)
  {
    if a <= b then a else b
  }

  function Max(a: int, b: int): (r: int)
    ensures r >= a && r >= b && (r == a || r == b)
  {
    if a >= b then a else b
  }

  function RealMin(a: real, b: real): real { if a <= b then a else b }
  function RealMax(a: real, b: real): real { if a >= b then a else b }

  /** `Math.floor` on a real. */
  function Floor(x: real): (r: int)
    ensures r as real <= x < r as real + 1.0
  {
    x.Floor
  }

  /** `Math.ceil` on a real. */
  function Ceil(x: real): (r: int)
    ensures r as real - 1.0 < x <= r as real
  {
    -((-x).Floor)
  }

  /** A number with no fractional part. */
  predicate IsInt(x: real) {
    x == x.Floor as real
  }

  /** Two keyframe values the interpolators can combine: the same kind of scalar, or two
      arrays whose overlapping elements are pairwise combinable. Any other combination
      makes the source compute `NaN` or throw (`new Array(NaN)`). */
  predicate Compatible(a: Val, b: Val)
    decreases a
  {
    match a
    case Num(_) => b.Num?
    case Flag(_) => b.Flag?
    case Undef => b.Undef?
    case Arr(xs) =>
      b.Arr? && forall i :: 0 <= i < |xs| && i < |b.items| ==> Compatible(xs[i], b.items[i])
  }

  /** Numbers and arrays of numbers only: the shape of a continuous property. */
  predicate Numeric(a: Val)
    decreases a
  {
    match a
    case Num(_) => true
    case Arr(xs) => forall i :: 0 <= i < |xs| ==> Numeric(xs[i])
    case _ => false
  }

  /** Whole numbers and arrays of whole numbers only. */
  predicate Integral(a: Val)
    decreases a
  {
    match a
    case Num(x) => IsInt(x)
    case Arr(xs) => forall i :: 0 <= i < |xs| ==> Integral(xs[i])
    case _ => false
  }

  /** The shape of a stepped property: whole numbers, flags, and arrays of them. */
  predicate Stepwise(a: Val)
    decreases a
  {
    match a
    case Num(x) => IsInt(x)
    case Flag(_) => true
    case Arr(xs) => forall i :: 0 <= i < |xs| ==> Stepwise(xs[i])
    case Undef => false
  }

  lemma {:induction false} CompatibleReflexive(a: Val)
    ensures Compatible(a, a)
    decreases a
  {
    match a
    case Arr(xs) =>
      forall i | 0 <= i < |xs|
        ensures Compatible(xs[i], xs[i])
      {
        CompatibleReflexive(xs[i]);
      }
    case _ =>
  }

  lemma {:induction false} IntegralIsStepwise(a: Val)
    requires Integral(a)
    ensures Stepwise(a)
    decreases a
  {
    match a
    case Arr(xs) =>
      forall i | 0 <= i < |xs|
        ensures Stepwise(xs[i])
      {
        IntegralIsStepwise(xs[i]);
      }
    case _ =>
  }
}
