/** `Contours.prototype.randomize` and the `animatable` declaration in sketch/contours.js.

    `randomize` places the sketch's attractors. Four weight arrays give the relative
    chance of each column (5), row (3), strength bin (5) and saturation bin (5); their
    running totals are built once. Each of the 50 attractors then picks a column and a row
    by scanning the running totals downwards, is placed at a random point inside that grid
    cell, and gets a strength and a saturation picked the same way. Finally the grid is
    read out column by column, alternating the direction of the rows, into the position
    arrays.

    The random generator is not part of this model: its numbers are an input sequence,
    eight per attractor, in the order the source draws them. */
module Contours {
  import opened Values
  import opened Tween
  import opened TweenFacts
  import opened Random
  import opened Render

  const MaxAttractors: nat := 50
  const NumColumns: nat := 5
  const NumRows: nat := 3
  const NumStrengths: nat := 5
  const NumSaturations: nat := 5

  /** The sum of a sequence of weights. */
  function Sum(w: seq<real>): real
    decreases |w|
  {
    if |w| == 0 then 0.0 else Sum(w[..|w| - 1]) + w[|w| - 1]
  }

  /** The running totals of a weight array: entry `i` is the sum of the first `i + 1`
      weights. */
  function Prefix(w: seq<real>): (dist: seq<real>)
    ensures |dist| == |w|
  {
    seq(|w|, i requires 0 <= i < |w| => Sum(w[..i + 1]))
  }

  /** The source's loop building a running-total array and the grand total. */
  method PrefixSums(w: seq<real>) returns (dist: seq<real>, total: real)
    ensures dist == Prefix(w) && total == Sum(w)
  {
    dist := [];
    total := 0.0;
    var i := 0;
    while i < |w|
      invariant 0 <= i <= |w| && |dist| == i
      invariant total == Sum(w[..i])
      invariant forall k :: 0 <= k < i ==> dist[k] == Sum(w[..k + 1])
    {
      assert w[..i + 1][..i] == w[..i];
      total := total + w[i];
      dist := dist + [total];
      i := i + 1;
    }
    assert w[..|w|] == w;
  }

  predicate NonNegative(w: seq<real>) {
    forall i :: 0 <= i < |w| ==> w[i] >= 0.0
  }

  predicate Ascending(dist: seq<real>) {
    forall i, j :: 0 <= i <= j < |dist| ==> dist[i] <= dist[j]
  }

  /** Adding a non-negative weight never decreases the total. */
  lemma {:induction false} SumMonotone(w: seq<real>, i: nat, j: nat)
    requires NonNegative(w) && i <= j <= |w|
    ensures Sum(w[..i]) <= Sum(w[..j])
    decreases j - i
  {
    if i < j {
      SumMonotone(w, i, j - 1);
      assert w[..j][..j - 1] == w[..j - 1];
    }
  }

  lemma SumNonNegative(w: seq<real>)
    requires NonNegative(w)
    ensures Sum(w) >= 0.0
  {
    SumMonotone(w, 0, |w|);
    assert w[..0] == [] && w[..|w|] == w;
  }

  /** With non-negative weights the running totals ascend and end at the grand total. */
  lemma PrefixAscending(w: seq<real>)
    requires NonNegative(w) && |w| > 0
    ensures Ascending(Prefix(w))
    ensures Prefix(w)[|w| - 1] == Sum(w)
  {
    PrefixOrdered(w);
    PrefixLast(w);
  }

  lemma PrefixOrdered(w: seq<real>)
    requires NonNegative(w)
    ensures Ascending(Prefix(w))
  {
    var dist := Prefix(w);
    forall i, j | 0 <= i <= j < |w|
      ensures dist[i] <= dist[j]
    {
      assert dist[i] == Sum(w[..i + 1]) && dist[j] == Sum(w[..j + 1]);
      SumMonotone(w, i + 1, j + 1);
    }
  }

  lemma PrefixLast(w: seq<real>)
    requires |w| > 0
    ensures Prefix(w)[|w| - 1] == Sum(w)
  {
    assert w[..|w|] == w;
  }

  /** The downward scan `while (c > 0 && dist[c - 1] >= p) c--`, from index `c`. */
  function ScanFrom(dist: seq<real>, p: real, c: nat): (b: nat)
    requires c < |dist|
    ensures b <= c
    ensures b == 0 || dist[b - 1] < p
    ensures forall j :: b <= j < c ==> dist[j] >= p
    decreases c
  {
    if c > 0 && dist[c - 1] >= p then ScanFrom(dist, p, c - 1) else c
  }

  /** The bin picked for the scaled random number `p`: the scan starts at the last bin. */
  function ScanDown(dist: seq<real>, p: real): (b: nat)
    requires |dist| > 0
    ensures b < |dist|
  {
    ScanFrom(dist, p, |dist| - 1)
  }

  /** With ascending running totals and `p` at most the total, the scan picks the first
      bin whose running total reaches `p`. */
  lemma ScanLeast(dist: seq<real>, p: real)
    requires |dist| > 0 && Ascending(dist) && p <= dist[|dist| - 1]
    ensures dist[ScanDown(dist, p)] >= p
    ensures forall j :: 0 <= j < ScanDown(dist, p) ==> dist[j] < p
  {
    var b := ScanDown(dist, p);
    if b > 0 {
      forall j | 0 <= j < b
        ensures dist[j] < p
      {
        assert dist[j] <= dist[b - 1];
      }
    }
  }

  /** `random.next() * total`: the random number scaled to the weights' total. */
  function Scale(r: real, total: real): real {
    r * total
  }

  /** A random number in [0, 1) scaled by the total lies between 0 and the total. */
  lemma ScaledWithinTotal(r: real, total: real)
    requires 0.0 <= r < 1.0 && total >= 0.0
    ensures 0.0 <= Scale(r, total) <= total
  {
    ScaleBetween(total, r);
  }

  /** The bin a random number in [0, 1) picks from a weight array: scaled by the total and
      looked up among the running totals. */
  function Pick(w: seq<real>, r: real): (b: nat)
    requires |w| > 0
    ensures b < |w|
  {
    ScanDown(Prefix(w), Scale(r, Sum(w)))
  }

  /** With non-negative weights the bin picked is the first whose running total reaches
      the scaled random number. */
  lemma PickLeast(w: seq<real>, r: real)
    requires |w| > 0 && NonNegative(w) && 0.0 <= r < 1.0
    ensures var p := Scale(r, Sum(w)); var b := Pick(w, r);
      Prefix(w)[b] >= p && forall j :: 0 <= j < b ==> Prefix(w)[j] < p
  {
    PrefixAscending(w);
    SumNonNegative(w);
    ScaledWithinTotal(r, Sum(w));
    ScanLeast(Prefix(w), Scale(r, Sum(w)));
  }

  /** `(bin + r) / n`: a random point inside bin `bin` of `n` equal bins of [0, 1). */
  function Jitter(bin: nat, r: real, n: nat): real
    requires n > 0
  {
    (bin as real + r) / n as real
  }

  lemma JitterBounds(bin: nat, r: real, n: nat)
    requires n > 0 && 0.0 <= r < 1.0
    ensures bin as real / n as real <= Jitter(bin, r, n) < (bin + 1) as real / n as real
    ensures bin < n ==> 0.0 <= Jitter(bin, r, n) < 1.0
  {
    var d := n as real;
    DivideMonotone(bin as real, bin as real + r, d);
    DivideStrict(bin as real + r, (bin + 1) as real, d);
    if bin < n {
      DivideMonotone(0.0, bin as real, d);
      DivideMonotone((bin + 1) as real, d, d);
    }
  }

  lemma DivideMonotone(a: real, b: real, d: real)
    requires d > 0.0 && a <= b
    ensures a / d <= b / d
  {
  }

  lemma DivideStrict(a: real, b: real, d: real)
    requires d > 0.0 && a < b
    ensures a / d < b / d
  {
  }

  /** The weight arrays of the sketch. */
  datatype Weights = Weights(x: seq<real>, y: seq<real>, strength: seq<real>, saturation: seq<real>)

  predicate ValidWeights(w: Weights) {
    |w.x| == NumColumns && |w.y| == NumRows &&
    |w.strength| == NumStrengths && |w.saturation| == NumSaturations &&
    NonNegative(w.x) && NonNegative(w.y) && NonNegative(w.strength) && NonNegative(w.saturation)
  }

  /** Random numbers as the generator yields them: in [0, 1). */
  predicate Draws(d: seq<real>) {
    forall i :: 0 <= i < |d| ==> 0.0 <= d[i] < 1.0
  }

  /** One attractor: its grid cell, its position, strength and saturation. */
  datatype Attractor = Attractor(column: nat, row: nat, x: real, y: real,
                                 strength: real, saturation: real)

  /** One iteration of the main loop, from its eight random numbers. */
  function Place(w: Weights, d: seq<real>): (a: Attractor)
    requires ValidWeights(w) && |d| == 8
    ensures a.column < NumColumns && a.row < NumRows
  {
    var column := Pick(w.x, d[0]);
    var row := Pick(w.y, d[1]);
    var s := Pick(w.strength, d[4]);
    var t := Pick(w.saturation, d[6]);
    Attractor(column, row, Jitter(column, d[2], NumColumns), Jitter(row, d[3], NumRows),
              Jitter(s, d[5], NumStrengths), Jitter(t, d[7], NumSaturations))
  }

  /** Every attractor lies inside its grid cell, and strengths and saturations lie in
      [0, 1). */
  lemma PlaceBounds(w: Weights, d: seq<real>)
    requires ValidWeights(w) && |d| == 8 && Draws(d)
    ensures var a := Place(w, d);
      a.column as real / 5.0 <= a.x < (a.column + 1) as real / 5.0 &&
      a.row as real / 3.0 <= a.y < (a.row + 1) as real / 3.0 &&
      0.0 <= a.x < 1.0 && 0.0 <= a.y < 1.0 &&
      0.0 <= a.strength < 1.0 && 0.0 <= a.saturation < 1.0
  {
    var a := Place(w, d);
    JitterBounds(a.column, d[2], NumColumns);
    JitterBounds(a.row, d[3], NumRows);
    JitterBounds(Pick(w.strength, d[4]), d[5], NumStrengths);
    JitterBounds(Pick(w.saturation, d[6]), d[7], NumSaturations);
  }

  /** The column picked is the first whose running total reaches the scaled random
      number. */
  lemma PlaceColumnLeast(w: Weights, d: seq<real>)
    requires ValidWeights(w) && |d| == 8 && Draws(d)
    ensures var p := Scale(d[0], Sum(w.x)); var c := Place(w, d).column;
      Prefix(w.x)[c] >= p && forall j :: 0 <= j < c ==> Prefix(w.x)[j] < p
  {
    PickLeast(w.x, d[0]);
  }

  /** All attractors, eight random numbers each. */
  function PlaceAll(w: Weights, d: seq<real>): (atts: seq<Attractor>)
    requires ValidWeights(w) && |d| % 8 == 0
    ensures |atts| == |d| / 8
    ensures forall i :: 0 <= i < |atts| ==> atts[i] == Place(w, d[8 * i..8 * i + 8])
  {
    seq(|d| / 8, i requires 0 <= i < |d| / 8 => Place(w, d[8 * i..8 * i + 8]))
  }

  /** The points pushed into one grid cell, in push order. */
  function Cell(atts: seq<Attractor>, c: nat, r: nat): (pts: seq<(real, real)>)
    decreases |atts|
  {
    if |atts| == 0 then []
    else
      var a := atts[|atts| - 1];
      Cell(atts[..|atts| - 1], c, r) + (if a.column == c && a.row == r then [(a.x, a.y)] else [])
  }

  /** Placing one more attractor appends its point to its own cell and to no other. */
  lemma CellPush(atts: seq<Attractor>, a: Attractor, c: nat, r: nat)
    ensures Cell(atts + [a], c, r) ==
            Cell(atts, c, r) + (if a.column == c && a.row == r then [(a.x, a.y)] else [])
  {
    assert (atts + [a])[..|atts|] == atts;
  }

  /** The order the cells are read out in: columns left to right, the rows of even
      columns from 0 up and those of odd columns from 2 down. */
  function Serpentine(): (order: seq<(nat, nat)>)
    ensures |order| == NumColumns * NumRows
  {
    seq(NumColumns * NumRows, k requires 0 <= k < NumColumns * NumRows =>
      (k / NumRows, if (k / NumRows) % 2 == 0 then k % NumRows else NumRows - 1 - k % NumRows))
  }

  /** The read-out order visits every cell. */
  lemma SerpentineCovers(c: nat, r: nat)
    requires c < NumColumns && r < NumRows
    ensures (c, r) in Serpentine()
  {
    var k := 3 * c + (if c % 2 == 0 then r else 2 - r);
    assert k / 3 == c && k % 3 == (if c % 2 == 0 then r else 2 - r);
    assert Serpentine()[k] == (c, r);
  }

  /** The read-out order visits no cell twice. */
  lemma SerpentineDistinct(i: nat, j: nat)
    requires i < j < NumColumns * NumRows
    ensures Serpentine()[i] != Serpentine()[j]
  {
    if i / 3 == j / 3 {
      assert i == 3 * (i / 3) + i % 3 && j == 3 * (j / 3) + j % 3;
    }
  }

  /** Consecutive cells of the read-out order are neighbours in the grid: the walk goes up
      or down one row within a column, or moves right one column in the same row. */
  lemma SerpentineNeighbours(k: nat)
    requires k + 1 < NumColumns * NumRows
    ensures var (c1, r1) := Serpentine()[k];
      var (c2, r2) := Serpentine()[k + 1];
      (c1 == c2 && (r1 == r2 + 1 || r2 == r1 + 1)) || (c2 == c1 + 1 && r1 == r2)
  {
    if k % 3 == 2 {
      assert (k + 1) / 3 == k / 3 + 1 && (k + 1) % 3 == 0;
    } else {
      assert (k + 1) / 3 == k / 3 && (k + 1) % 3 == k % 3 + 1;
    }
  }

  /** The read-out order without repetitions, covering the grid. */
  lemma SerpentineWalk()
    ensures forall c: nat, r: nat :: c < NumColumns && r < NumRows ==> (c, r) in Serpentine()
    ensures forall i, j :: 0 <= i < j < |Serpentine()| ==> Serpentine()[i] != Serpentine()[j]
  {
    forall c: nat, r: nat | c < NumColumns && r < NumRows
      ensures (c, r) in Serpentine()
    {
      SerpentineCovers(c, r);
    }
    forall i, j | 0 <= i < j < |Serpentine()|
      ensures Serpentine()[i] != Serpentine()[j]
    {
      SerpentineDistinct(i, j);
    }
  }

  /** How often a cell occurs in an order. */
  function Occurrences(order: seq<(nat, nat)>, cell: (nat, nat)): nat
    decreases |order|
  {
    if |order| == 0 then 0 else (if order[0] == cell then 1 else 0) + Occurrences(order[1..], cell)
  }

  /** The cells' points, concatenated in the given order. */
  function Flatten(atts: seq<Attractor>, order: seq<(nat, nat)>): (pts: seq<(real, real)>)
    decreases |order|
  {
    if |order| == 0 then [] else Cell(atts, order[0].0, order[0].1) + Flatten(atts, order[1..])
  }

  /** Placing one attractor adds to the read-out one point per occurrence of its cell. */
  lemma {:induction false} FlattenPush(atts: seq<Attractor>, a: Attractor, order: seq<(nat, nat)>)
    ensures |Flatten(atts + [a], order)| == |Flatten(atts, order)| + Occurrences(order, (a.column, a.row))
    decreases |order|
  {
    if |order| > 0 {
      CellPush(atts, a, order[0].0, order[0].1);
      FlattenPush(atts, a, order[1..]);
    }
  }

  /** A cell occurs once in an order without repetitions that contains it. */
  lemma {:induction false} OccursOnce(order: seq<(nat, nat)>, cell: (nat, nat))
    requires forall i, j :: 0 <= i < j < |order| ==> order[i] != order[j]
    requires cell in order
    ensures Occurrences(order, cell) == 1
    decreases |order|
  {
    if order[0] == cell {
      NotOccurring(order[1..], cell);
    } else {
      OccursOnce(order[1..], cell);
    }
  }

  lemma {:induction false} NotOccurring(order: seq<(nat, nat)>, cell: (nat, nat))
    requires cell !in order
    ensures Occurrences(order, cell) == 0
    decreases |order|
  {
    if |order| > 0 {
      NotOccurring(order[1..], cell);
    }
  }

  /** Every placed attractor's cell occurs once in the read-out order. */
  lemma SerpentineOnce(c: nat, r: nat)
    requires c < NumColumns && r < NumRows
    ensures Occurrences(Serpentine(), (c, r)) == 1
  {
    SerpentineWalk();
    OccursOnce(Serpentine(), (c, r));
  }

  /** The read-out writes exactly one position per attractor. */
  lemma {:induction false} FlattenCount(atts: seq<Attractor>)
    requires forall i :: 0 <= i < |atts| ==> atts[i].column < NumColumns && atts[i].row < NumRows
    ensures |Flatten(atts, Serpentine())| == |atts|
    decreases |atts|
  {
    if |atts| == 0 {
      EmptyFlatten(Serpentine());
    } else {
      var init, a := atts[..|atts| - 1], atts[|atts| - 1];
      assert atts == init + [a];
      FlattenCount(init);
      FlattenPush(init, a, Serpentine());
      SerpentineOnce(a.column, a.row);
    }
  }

  lemma {:induction false} EmptyFlatten(order: seq<(nat, nat)>)
    ensures Flatten([], order) == []
    decreases |order|
  {
    if |order| > 0 {
      EmptyFlatten(order[1..]);
    }
  }

  /** The arrays `randomize` fills. */
  datatype Layout = Layout(positionX: seq<real>, positionY: seq<real>,
                           strength: seq<real>, saturations: seq<real>)

  /** `randomize`: place every attractor, then read the grid out in serpentine order. */
  function Randomize(w: Weights, d: seq<real>): (l: Layout)
    requires ValidWeights(w) && |d| == 8 * MaxAttractors
    ensures |l.strength| == MaxAttractors && |l.saturations| == MaxAttractors
  {
    var atts := PlaceAll(w, d);
    var pts := Flatten(atts, Serpentine());
    Layout(Abscissae(pts), Ordinates(pts), Strengths(atts), Saturations(atts))
  }

  function Abscissae(pts: seq<(real, real)>): (xs: seq<real>)
    ensures |xs| == |pts|
  {
    seq(|pts|, i requires 0 <= i < |pts| => pts[i].0)
  }

  function Ordinates(pts: seq<(real, real)>): (ys: seq<real>)
    ensures |ys| == |pts|
  {
    seq(|pts|, i requires 0 <= i < |pts| => pts[i].1)
  }

  function Strengths(atts: seq<Attractor>): (s: seq<real>)
    ensures |s| == |atts| && forall i :: 0 <= i < |atts| ==> s[i] == atts[i].strength
  {
    seq(|atts|, i requires 0 <= i < |atts| => atts[i].strength)
  }

  function Saturations(atts: seq<Attractor>): (s: seq<real>)
    ensures |s| == |atts| && forall i :: 0 <= i < |atts| ==> s[i] == atts[i].saturation
  {
    seq(|atts|, i requires 0 <= i < |atts| => atts[i].saturation)
  }

  /** `randomize` writes exactly `MAX_ATTRACTORS` positions, and every strength and
      saturation lies in [0, 1). */
  lemma RandomizeFills(w: Weights, d: seq<real>)
    requires ValidWeights(w) && |d| == 8 * MaxAttractors && Draws(d)
    ensures var l := Randomize(w, d);
      |l.positionX| == MaxAttractors && |l.positionY| == MaxAttractors &&
      (forall i :: 0 <= i < MaxAttractors ==> 0.0 <= l.strength[i] < 1.0) &&
      (forall i :: 0 <= i < MaxAttractors ==> 0.0 <= l.saturations[i] < 1.0)
  {
    var atts := PlaceAll(w, d);
    FlattenCount(atts);
    forall i | 0 <= i < |atts|
      ensures 0.0 <= atts[i].strength < 1.0 && 0.0 <= atts[i].saturation < 1.0
    {
      PlacedBounds(w, d, i);
    }
  }

  /** The attractor placed from the `i`th group of eight draws has its strength and
      saturation in [0, 1). */
  lemma PlacedBounds(w: Weights, d: seq<real>, i: nat)
    requires ValidWeights(w) && |d| % 8 == 0 && Draws(d) && i < |d| / 8
    ensures 0.0 <= PlaceAll(w, d)[i].strength < 1.0 && 0.0 <= PlaceAll(w, d)[i].saturation < 1.0
  {
    var di := d[8 * i..8 * i + 8];
    assert Draws(di) by {
      forall k | 0 <= k < 8
        ensures 0.0 <= di[k] < 1.0
      {
        assert di[k] == d[8 * i + k];
      }
    }
    PlaceBounds(w, di);
  }

  /** The properties `Contours.prototype.animatable` declares, all continuous. */
  const ContinuousProperties: seq<string> := [
    "positionX", "positionY", "strength", "fieldConstant", "fieldExponent",
    "sinePower", "sineFrequency",
    "divisor", "base", "saturations", "foregroundSaturation", "backgroundSaturation",
    "contrast", "baseColor", "baseIntensity", "baseScale", "baseBrightness", "baseSaturation",
    "minkowskiOrder", "distanceWeight",
    "hueFrequency", "hueRotation", "waveHue",
    "waveLightness", "minLightness", "maxLightness", "backgroundOpacity",
    "colorPortion", "sharpness", "numAttractors", "explosion",
    "minDotSize", "maxDotSize", "dotColor"]

  /** The sketch's declaration: `animatable` exists but holds no pair, xy or nominal-array
      category. */
  const ContoursSchema: Schema := Schema(true, [], [], false, [])

  /** A keyframe of the sketch: only continuous properties, those of the declaration. */
  predicate ContoursFrame(f: Frame) {
    f.stepped == map[] && f.xy == map[] &&
    (forall k :: k in f.continuous ==> k in ContinuousProperties) &&
    (forall k :: k in ContinuousProperties ==> k in f.continuous)
  }

  /** The sketch's keyframes are ready for the dispatch with no nominal-array plans. */
  lemma ContoursReady(start: Frame, end: Frame)
    requires ContoursFrame(start) && ContoursFrame(end) && Matched(start.continuous, end.continuous)
    ensures Ready(ContoursSchema, start, end, map[])
  {
  }

  /** `renderFrame` for two keyframes of the sketch. */
  function ContoursRender(start: Frame, end: Frame, distinct: bool, gen: map<string, Val>,
                          t: real, loop: bool, arc: string -> (Val, Val)): (out: Output)
    requires ContoursFrame(start) && ContoursFrame(end) && Matched(start.continuous, end.continuous)
    requires 0.0 <= t <= 1.0
    ensures gen.Keys + start.continuous.Keys <= out.props.Keys
  {
    ContoursReady(start, end);
    RenderFrame(ContoursSchema, start, end, distinct, map[], gen, t, loop, arc)
  }

  /** For this sketch only continuous interpolation applies: every declared property is
      interpolated without looping at the loop phase, and every other property of the
      generator except `tween` keeps its value. */
  lemma ContoursOnlyContinuous(start: Frame, end: Frame, distinct: bool, gen: map<string, Val>,
                               t: real, loop: bool, arc: string -> (Val, Val), k: string)
    requires ContoursFrame(start) && ContoursFrame(end) && Matched(start.continuous, end.continuous)
    requires 0.0 <= t <= 1.0
    ensures k in ContinuousProperties ==>
      ContoursRender(start, end, distinct, gen, t, loop, arc).props[k] ==
        Interp(start.continuous[k], end.continuous[k], Phase(t, loop), false)
    ensures k in gen && k !in ContinuousProperties && k != "tween" ==>
      ContoursRender(start, end, distinct, gen, t, loop, arc).props[k] == gen[k]
  {
    ContoursReady(start, end);
    assert !Animates(ContoursSchema, start, map[], k);
    if k in ContinuousProperties {
      assert k != "tween";
      ContinuousAtPhase(ContoursSchema, start, end, distinct, map[], gen, t, loop, arc, k);
    } else if k in gen && k != "tween" {
      Untouched(ContoursSchema, start, end, distinct, map[], gen, t, loop, arc, k);
    }
  }
}
