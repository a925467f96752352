/** The interpolation part of `renderFrame` in js/math-art.js: which interpolator each
    category of animatable property goes through, with which tween fraction, and in which
    order the categories are written onto the generator.

    The generator's properties are a map from property names to values; a nominal array
    is written as an array of flags. Drawing, the rotation tween, the background colour,
    the render size and blur are not part of this model. */
module Render {
  import opened Values
  import opened Tween
  import opened TweenFacts
  import opened Pairs
  import opened Nominal
  import opened Random

  /** What a generator's `animatable` declaration contributes beyond its continuous and
      stepped properties. `present` is false when the generator declares no `animatable`
      at all; an absent pair category is an empty list; `hasXY` says whether `xy` is
      declared. */
  datatype Schema = Schema(present: bool,
                           pairedContinuous: seq<(string, string)>,
                           pairedStepped: seq<(string, string)>,
                           hasXY: bool, xy: seq<(string, string)>)

  /** A keyframe: the values of each category of animatable property, the nominal arrays,
      and the keyframe's random stream. */
  datatype Frame = Frame(continuous: map<string, Val>, stepped: map<string, Val>,
                         pairedContinuous: map<string, Val>, pairedStepped: map<string, Val>,
                         xy: map<string, Val>, nominalArrays: map<string, seq<bool>>,
                         random: Stream)

  /** Every property of the start keyframe has a value of the same shape at the end. */
  predicate Matched(a: map<string, Val>, b: map<string, Val>) {
    forall k :: k in a ==> k in b && Compatible(a[k], b[k])
  }

  /** Two keyframes the dispatch can interpolate between, with `plans` the nominal-array
      plans that `TweenData` built for them, one per nominal array. */
  ghost predicate Ready(sch: Schema, start: Frame, end: Frame, plans: map<string, Plan>) {
    Matched(start.continuous, end.continuous) &&
    Matched(start.stepped, end.stepped) &&
    Matched(start.xy, end.xy) &&
    (forall k :: 0 <= k < |sch.pairedContinuous| ==>
      PairOk(sch.pairedContinuous[k], start.pairedContinuous, end.pairedContinuous)) &&
    (forall k :: 0 <= k < |sch.pairedStepped| ==>
      PairOk(sch.pairedStepped[k], start.pairedStepped, end.pairedStepped)) &&
    (forall key :: key in plans ==>
      key in start.nominalArrays && key in end.nominalArrays &&
      ValidPlan(plans[key], start.nominalArrays[key], end.nominalArrays[key]))
  }

  /** One category loop: every property of `from` is written with its interpolated
      value. */
  function Layer(gen: map<string, Val>, from: map<string, Val>, to: map<string, Val>,
                 stepped: bool, t: real, loop: bool): (g: map<string, Val>)
    requires Matched(from, to) && 0.0 <= t <= 1.0
    ensures g.Keys == gen.Keys + from.Keys
    ensures forall k :: k in from ==> g[k] == Apply(stepped, from[k], to[k], t, loop)
    ensures forall k :: k in gen && k !in from ==> g[k] == gen[k]
  {
    gen + map k | k in from :: Apply(stepped, from[k], to[k], t, loop)
  }

  /** A boolean array as a generator value. */
  function FlagsOf(bs: seq<bool>): (v: Val)
    ensures v.Arr? && |v.items| == |bs|
    ensures forall i :: 0 <= i < |bs| ==> v.items[i] == Flag(bs[i])
  {
    Arr(seq(|bs|, i requires 0 <= i < |bs| => Flag(bs[i])))
  }

  /** One nominal array as written at tween position `t`. */
  function NominalValue(p: Plan, s: seq<bool>, e: seq<bool>, t: real, loop: bool): (v: Val)
    requires Fits(p, s, e) && 0.0 <= t <= 1.0
    ensures v.Arr? && Min(|s|, |e|) <= |v.items| <= Max(|s|, |e|)
  {
    FlagsOf(Interpolate(p, s, e, t, loop))
  }

  /** The planned nominal arrays as written at tween position `t`, one per plan. */
  function NominalArrays(plans: map<string, Plan>, start: Frame, end: Frame, t: real, loop: bool):
    (m: map<string, Val>)
    requires forall key :: key in plans ==>
      key in start.nominalArrays && key in end.nominalArrays &&
      Fits(plans[key], start.nominalArrays[key], end.nominalArrays[key])
    requires 0.0 <= t <= 1.0
    ensures m.Keys == plans.Keys
    ensures forall k :: k in plans ==>
      m[k] == NominalValue(plans[k], start.nominalArrays[k], end.nominalArrays[k], t, loop)
  {
    map k | k in plans :: NominalValue(plans[k], start.nominalArrays[k], end.nominalArrays[k], t, loop)
  }

  /** `interpolateNominalArrays`: every nominal array is written with its planned edits. */
  function NominalLayer(gen: map<string, Val>, plans: map<string, Plan>, start: Frame, end: Frame,
                        t: real, loop: bool): (g: map<string, Val>)
    requires forall key :: key in plans ==>
      key in start.nominalArrays && key in end.nominalArrays &&
      Fits(plans[key], start.nominalArrays[key], end.nominalArrays[key])
    requires 0.0 <= t <= 1.0
    ensures g.Keys == gen.Keys + plans.Keys
    ensures forall k :: k in plans ==>
      g[k] == NominalValue(plans[k], start.nominalArrays[k], end.nominalArrays[k], t, loop)
    ensures forall k :: k in gen && k !in plans ==> g[k] == gen[k]
  {
    gen + NominalArrays(plans, start, end, t, loop)
  }

  /** The arc positions of the xy pairs in the second half of a loop. `arc(x)` is the
      position `interpolateXY` computes for the pair whose first property is `x`. */
  function ArcLayer(gen: map<string, Val>, xy: seq<(string, string)>, arc: string -> (Val, Val)):
    (g: map<string, Val>)
    ensures forall p :: p in g <==> p in gen || Named(xy, p)
    ensures forall p :: p in gen && !Named(xy, p) ==> g[p] == gen[p]
    decreases |xy|
  {
    if |xy| == 0 then gen
    else
      var g := ArcLayer(gen[xy[0].0 := arc(xy[0].0).0][xy[0].1 := arc(xy[0].0).1], xy[1..], arc);
      assert forall p :: Named(xy[1..], p) ==> Named(xy, p) by {
        forall p | Named(xy[1..], p)
          ensures Named(xy, p)
        {
          var k :| 0 <= k < |xy[1..]| && (xy[1..][k].0 == p || xy[1..][k].1 == p);
          assert xy[k + 1] == xy[1..][k];
        }
      }
      assert forall p :: Named(xy, p) ==> p == xy[0].0 || p == xy[0].1 || Named(xy[1..], p) by {
        forall p | Named(xy, p)
          ensures p == xy[0].0 || p == xy[0].1 || Named(xy[1..], p)
        {
          var k :| 0 <= k < |xy| && (xy[k].0 == p || xy[k].1 == p);
          if k > 0 {
            assert xy[1..][k - 1] == xy[k];
          }
        }
      }
      g
  }

  /** The categories `renderFrame` interpolates only between two different keyframes of a
      generator that declares `animatable`: continuous pairs, stepped pairs, xy pairs and
      nominal arrays, in that order. */
  function Animated(sch: Schema, start: Frame, end: Frame, plans: map<string, Plan>,
                    gen: map<string, Val>, t: real, loop: bool, arc: string -> (Val, Val)):
    (g: map<string, Val>)
    requires Ready(sch, start, end, plans) && 0.0 <= t <= 1.0
    ensures gen.Keys <= g.Keys
    ensures forall k :: k in gen && !Animates(sch, start, plans, k) ==> k in g && g[k] == gen[k]
  {
    var a1 := PairsTween(gen, sch.pairedContinuous, start.pairedContinuous, end.pairedContinuous,
                         false, t, loop);
    AfterPairs(sch, start, end, plans, a1, t, loop, arc)
  }

  /** The gated categories after the continuous pairs: stepped pairs, xy pairs and
      nominal arrays. */
  function AfterPairs(sch: Schema, start: Frame, end: Frame, plans: map<string, Plan>,
                      a1: map<string, Val>, t: real, loop: bool, arc: string -> (Val, Val)):
    (g: map<string, Val>)
    requires forall k :: 0 <= k < |sch.pairedStepped| ==>
      PairOk(sch.pairedStepped[k], start.pairedStepped, end.pairedStepped)
    requires Matched(start.xy, end.xy)
    requires forall key :: key in plans ==>
      key in start.nominalArrays && key in end.nominalArrays &&
      Fits(plans[key], start.nominalArrays[key], end.nominalArrays[key])
    requires 0.0 <= t <= 1.0
    ensures a1.Keys <= g.Keys
    ensures forall k :: k in a1 && !WrittenAfterPairs(sch, start, plans, k) ==> g[k] == a1[k]
  {
    var a2 := PairsTween(a1, sch.pairedStepped, start.pairedStepped, end.pairedStepped,
                         true, t, loop);
    var a3 := if !sch.hasXY then a2
              else if loop && t > 0.5 then ArcLayer(a2, sch.xy, arc)
              else Layer(a2, start.xy, end.xy, false, t, loop);
    NominalLayer(a3, plans, start, end, t, loop)
  }

  /** The properties the gated categories after the continuous pairs may write. */
  predicate WrittenAfterPairs(sch: Schema, start: Frame, plans: map<string, Plan>, k: string) {
    Named(sch.pairedStepped, k) || (sch.hasXY && (k in start.xy || Named(sch.xy, k))) ||
    k in plans
  }

  /** The properties the gated categories may write. */
  predicate Animates(sch: Schema, start: Frame, plans: map<string, Plan>, k: string) {
    Named(sch.pairedContinuous, k) || WrittenAfterPairs(sch, start, plans, k)
  }

  /** What one call of `renderFrame` leaves behind: the generator's properties and the
      random source the frame draws from. */
  datatype Output = Output(props: map<string, Val>, random: Source)

  /** The categories `renderFrame` always interpolates: continuous properties at the loop
      phase without looping, then stepped properties at the raw fraction with the loop
      flag. */
  function Steady(gen: map<string, Val>, start: Frame, end: Frame, t: real, loop: bool):
    (g: map<string, Val>)
    requires Matched(start.continuous, end.continuous) && Matched(start.stepped, end.stepped)
    requires 0.0 <= t <= 1.0
    ensures g.Keys == gen.Keys + start.continuous.Keys + start.stepped.Keys
  {
    var g1 := Layer(gen, start.continuous, end.continuous, false, Phase(t, loop), false);
    Layer(g1, start.stepped, end.stepped, true, t, loop)
  }

  /** Between two different keyframes of a generator that declares `animatable`, every
      property other than `tween` holds what the gated categories leave behind. */
  lemma AnimatedProps(sch: Schema, start: Frame, end: Frame, plans: map<string, Plan>,
                      gen: map<string, Val>, t: real, loop: bool, arc: string -> (Val, Val), k: string)
    requires Ready(sch, start, end, plans) && 0.0 <= t <= 1.0
    requires sch.present && k != "tween"
    ensures var g := Animated(sch, start, end, plans, Steady(gen, start, end, t, loop), t, loop, arc);
      k in g ==> RenderFrame(sch, start, end, true, plans, gen, t, loop, arc).props[k] == g[k]
  {
  }

  /** The dispatch of `renderFrame`. `distinct` says whether the start and end keyframes
      are different objects. Continuous properties go through the loop phase and are then
      interpolated without looping; stepped properties get the raw fraction and the loop
      flag; the gated categories follow; a `tween` property receives the loop phase; the
      random source is chosen at the loop phase. */
  function RenderFrame(sch: Schema, start: Frame, end: Frame, distinct: bool,
                       plans: map<string, Plan>, gen: map<string, Val>, t: real, loop: bool,
                       arc: string -> (Val, Val)): (out: Output)
    requires Ready(sch, start, end, plans) && 0.0 <= t <= 1.0
    ensures out.random == Choose(start.random, end.random, Phase(t, loop))
    ensures gen.Keys + start.continuous.Keys + start.stepped.Keys <= out.props.Keys
    ensures "tween" in gen ==> out.props["tween"] == Num(Phase(t, loop))
  {
    var p := Phase(t, loop);
    var g2 := Steady(gen, start, end, t, loop);
    var g3 := if distinct && sch.present then Animated(sch, start, end, plans, g2, t, loop, arc) else g2;
    assert g2.Keys <= g3.Keys;
    var g4 := if "tween" in g3 then g3["tween" := Num(p)] else g3;
    Output(g4, Choose(start.random, end.random, p))
  }

  /** Between a keyframe and itself, or for a generator without `animatable`, only the
      continuous and stepped properties (and `tween`) are written. */
  lemma GatedOff(sch: Schema, start: Frame, end: Frame, distinct: bool, plans: map<string, Plan>,
                 gen: map<string, Val>, t: real, loop: bool, arc: string -> (Val, Val))
    requires Ready(sch, start, end, plans) && 0.0 <= t <= 1.0
    requires !distinct || !sch.present
    ensures var out := RenderFrame(sch, start, end, distinct, plans, gen, t, loop, arc);
      out.props.Keys == gen.Keys + start.continuous.Keys + start.stepped.Keys &&
      forall k :: k in gen && k !in start.continuous && k !in start.stepped && k != "tween" ==>
        out.props[k] == gen[k]
  {
  }

  /** A continuous property that no later category writes ends up interpolated without
      looping at the loop phase of the fraction. */
  lemma ContinuousAtPhase(sch: Schema, start: Frame, end: Frame, distinct: bool,
                          plans: map<string, Plan>, gen: map<string, Val>, t: real, loop: bool,
                          arc: string -> (Val, Val), k: string)
    requires Ready(sch, start, end, plans) && 0.0 <= t <= 1.0
    requires k in start.continuous && k !in start.stepped && k != "tween"
    requires !Animates(sch, start, plans, k)
    ensures RenderFrame(sch, start, end, distinct, plans, gen, t, loop, arc).props[k] ==
            Interp(start.continuous[k], end.continuous[k], Phase(t, loop), false)
  {
  }

  /** A property of the generator that no category names keeps its value. */
  lemma Untouched(sch: Schema, start: Frame, end: Frame, distinct: bool,
                  plans: map<string, Plan>, gen: map<string, Val>, t: real, loop: bool,
                  arc: string -> (Val, Val), k: string)
    requires Ready(sch, start, end, plans) && 0.0 <= t <= 1.0
    requires k in gen && k !in start.continuous && k !in start.stepped && k != "tween"
    requires !Animates(sch, start, plans, k)
    ensures RenderFrame(sch, start, end, distinct, plans, gen, t, loop, arc).props[k] == gen[k]
  {
  }

  /** A stepped property that no gated category writes ends up stepped at the raw fraction
      with the loop flag. */
  lemma SteppedAtRaw(sch: Schema, start: Frame, end: Frame, distinct: bool,
                     plans: map<string, Plan>, gen: map<string, Val>, t: real, loop: bool,
                     arc: string -> (Val, Val), k: string)
    requires Ready(sch, start, end, plans) && 0.0 <= t <= 1.0
    requires k in start.stepped && k != "tween"
    requires !Animates(sch, start, plans, k)
    ensures RenderFrame(sch, start, end, distinct, plans, gen, t, loop, arc).props[k] ==
            StepVal(start.stepped[k], end.stepped[k], t, loop)
  {
  }

  /** Between two different keyframes, each nominal array holds the planned edits for the
      raw fraction. */
  lemma NominalWritten(sch: Schema, start: Frame, end: Frame, plans: map<string, Plan>,
                       gen: map<string, Val>, t: real, loop: bool,
                       arc: string -> (Val, Val), k: string)
    requires Ready(sch, start, end, plans) && 0.0 <= t <= 1.0
    requires sch.present && k in plans && k != "tween"
    ensures RenderFrame(sch, start, end, true, plans, gen, t, loop, arc).props[k] ==
            FlagsOf(Interpolate(plans[k], start.nominalArrays[k], end.nominalArrays[k], t, loop))
  {
  }

  /** A looping animation closes for continuous properties: at the end of the loop a
      numeric continuous property is back at its start value, as it is at the start. */
  lemma ContinuousLoopCloses(sch: Schema, start: Frame, end: Frame, distinct: bool,
                             plans: map<string, Plan>, gen: map<string, Val>, t: real,
                             arc: string -> (Val, Val), k: string)
    requires Ready(sch, start, end, plans) && (t == 0.0 || t == 1.0)
    requires k in start.continuous && k !in start.stepped && k != "tween"
    requires !Animates(sch, start, plans, k) && Numeric(start.continuous[k])
    ensures RenderFrame(sch, start, end, distinct, plans, gen, t, true, arc).props[k] ==
            start.continuous[k]
  {
    ContinuousAtPhase(sch, start, end, distinct, plans, gen, t, true, arc, k);
    PhaseShape(t);
    InterpAtStart(start.continuous[k], end.continuous[k], 0.0, false);
  }

  /** Without looping, a numeric continuous property reaches its end value at the end. */
  lemma ContinuousReachesEnd(sch: Schema, start: Frame, end: Frame, distinct: bool,
                             plans: map<string, Plan>, gen: map<string, Val>,
                             arc: string -> (Val, Val), k: string)
    requires Ready(sch, start, end, plans)
    requires k in start.continuous && k !in start.stepped && k != "tween"
    requires !Animates(sch, start, plans, k) && Numeric(start.continuous[k])
    ensures RenderFrame(sch, start, end, distinct, plans, gen, 1.0, false, arc).props[k] ==
            end.continuous[k]
  {
    ContinuousAtPhase(sch, start, end, distinct, plans, gen, 1.0, false, arc, k);
    InterpAtEnd(start.continuous[k], end.continuous[k], 1.0, false);
  }

  /** The random source follows the loop phase: the start stream at both ends of a loop
      and the end stream at its midpoint and at the end of a tween without looping. */
  lemma RandomFollowsPhase(sch: Schema, start: Frame, end: Frame, distinct: bool,
                           plans: map<string, Plan>, gen: map<string, Val>,
                           arc: string -> (Val, Val))
    requires Ready(sch, start, end, plans)
    ensures RenderFrame(sch, start, end, distinct, plans, gen, 0.0, true, arc).random == Single(start.random)
    ensures RenderFrame(sch, start, end, distinct, plans, gen, 1.0, true, arc).random == Single(start.random)
    ensures RenderFrame(sch, start, end, distinct, plans, gen, 0.5, true, arc).random == Single(end.random)
    ensures RenderFrame(sch, start, end, distinct, plans, gen, 1.0, false, arc).random == Single(end.random)
    ensures RenderFrame(sch, start, end, distinct, plans, gen, 0.0, false, arc).random == Single(start.random)
  {
    PhaseShape(0.5);
  }

  /** Whether a property is written by a gated category after the continuous pairs. */
  predicate LaterThanPairs(sch: Schema, start: Frame, plans: map<string, Plan>, k: string) {
    WrittenAfterPairs(sch, start, plans, k) || k == "tween"
  }

  /** Between two different keyframes, each property of a continuous pair holds the value
      its pair computes, provided no later category writes it: independently interpolated
      without looping and in the first half of a loop, coupled in the second half. */
  lemma PairedWritten(sch: Schema, start: Frame, end: Frame, plans: map<string, Plan>,
                      gen: map<string, Val>, t: real, loop: bool,
                      arc: string -> (Val, Val), i: nat)
    requires Ready(sch, start, end, plans) && 0.0 <= t <= 1.0
    requires sch.present && DistinctNames(sch.pairedContinuous) && i < |sch.pairedContinuous|
    requires !LaterThanPairs(sch, start, plans, sch.pairedContinuous[i].0)
    requires !LaterThanPairs(sch, start, plans, sch.pairedContinuous[i].1)
    ensures var out := RenderFrame(sch, start, end, true, plans, gen, t, loop, arc);
      var v := PairValues(sch.pairedContinuous[i], start.pairedContinuous, end.pairedContinuous,
                          false, t, loop);
      out.props[sch.pairedContinuous[i].0] == v.0 && out.props[sch.pairedContinuous[i].1] == v.1
  {
    var g2 := Steady(gen, start, end, t, loop);
    PairsWritten(g2, sch.pairedContinuous, start.pairedContinuous, end.pairedContinuous, false, t, loop);
    var pair := sch.pairedContinuous[i];
    assert Named(sch.pairedContinuous, pair.0) && Named(sch.pairedContinuous, pair.1);
    PairsSurvive(sch, start, end, plans, g2, t, loop, arc, pair.0);
    PairsSurvive(sch, start, end, plans, g2, t, loop, arc, pair.1);
    AnimatedProps(sch, start, end, plans, gen, t, loop, arc, pair.0);
    AnimatedProps(sch, start, end, plans, gen, t, loop, arc, pair.1);
  }

  /** The later gated categories leave alone a continuous-pair property they do not
      name. */
  lemma PairsSurvive(sch: Schema, start: Frame, end: Frame, plans: map<string, Plan>,
                     gen: map<string, Val>, t: real, loop: bool, arc: string -> (Val, Val), k: string)
    requires Ready(sch, start, end, plans) && 0.0 <= t <= 1.0
    requires Named(sch.pairedContinuous, k) && !LaterThanPairs(sch, start, plans, k)
    ensures k in PairsTween(gen, sch.pairedContinuous, start.pairedContinuous, end.pairedContinuous,
                            false, t, loop)
    ensures Animated(sch, start, end, plans, gen, t, loop, arc)[k] ==
            PairsTween(gen, sch.pairedContinuous, start.pairedContinuous, end.pairedContinuous,
                       false, t, loop)[k]
  {
    var a1 := PairsTween(gen, sch.pairedContinuous, start.pairedContinuous, end.pairedContinuous,
                         false, t, loop);
    assert k in a1;
    assert AfterPairs(sch, start, end, plans, a1, t, loop, arc)[k] == a1[k];
  }

  /** Without looping and in the first half of a loop, the two properties of a continuous
      pair are interpolated as two unpaired properties would be. */
  lemma PairedIndependent(sch: Schema, start: Frame, end: Frame, plans: map<string, Plan>,
                          gen: map<string, Val>, t: real, loop: bool,
                          arc: string -> (Val, Val), i: nat)
    requires Ready(sch, start, end, plans) && 0.0 <= t <= 1.0 && (!loop || t <= 0.5)
    requires sch.present && DistinctNames(sch.pairedContinuous) && i < |sch.pairedContinuous|
    requires !LaterThanPairs(sch, start, plans, sch.pairedContinuous[i].0)
    requires !LaterThanPairs(sch, start, plans, sch.pairedContinuous[i].1)
    ensures var out := RenderFrame(sch, start, end, true, plans, gen, t, loop, arc);
      var (a, b) := sch.pairedContinuous[i];
      out.props[a] == Interp(start.pairedContinuous[a], end.pairedContinuous[a], t, loop) &&
      out.props[b] == Interp(start.pairedContinuous[b], end.pairedContinuous[b], t, loop)
  {
    PairedWritten(sch, start, end, plans, gen, t, loop, arc, i);
  }
}
