/** Random streams while tweening: `InterpolatedRandom` and `interpolateRandom` in
    js/math-art.js.

    A keyframe carries its own seeded random number generator. While rendering a frame
    between two keyframes the sketch draws from the start stream, the end stream, or a
    blend of the two. The generator itself is not part of this model: a stream is an
    identity, a seed and a position, and `draw(id, pos)` is the number the stream with
    that identity yields at that position. */
module Random {
  import opened Values
  import opened TweenFacts

  /** One seeded generator: which object it is, its seed text and how many numbers it
      has yielded since it was last reset. */
  datatype Stream = Stream(id: nat, seed: string, pos: nat)

  /** What the sketch draws from: one stream, or an `InterpolatedRandom` blending the start
      and end streams at a fixed tween fraction. */
  datatype Source = Single(stream: Stream) | Blend(start: Stream, end: Stream, tween: real)

  /** `interpolateRandom`: at tween 0 the start stream itself, at tween 1 the end stream
      itself, the shared stream when both keyframes use the same generator object, and a
      blend otherwise. */
  function Choose(start: Stream, end: Stream, tween: real): (r: Source)
    ensures tween == 0.0 ==> r == Single(start)
    ensures tween == 1.0 ==> r == Single(end)
    ensures tween != 0.0 && tween != 1.0 && start.id == end.id ==> r == Single(start)
    ensures r.Blend? <==> tween != 0.0 && tween != 1.0 && start.id != end.id
    ensures r.Blend? ==> r.start == start && r.end == end && r.tween == tween
  {
    if tween == 0.0 then Single(start)
    else if tween == 1.0 then Single(end)
    else if start.id == end.id then Single(start)
    else Blend(start, end, tween)
  }

  /** The `seed` of a source; a blend joins the two seeds with a line break. */
  function Seed(r: Source): (seed: string)
    ensures r.Single? ==> seed == r.stream.seed
    ensures r.Blend? ==> |seed| == |r.start.seed| + 1 + |r.end.seed| &&
                         seed[..|r.start.seed|] == r.start.seed &&
                         seed[|r.start.seed|] == '\n' &&
                         seed[|r.start.seed| + 1..] == r.end.seed
  {
    match r
    case Single(s) => s.seed
    case Blend(a, b, _) => a.seed + "\n" + b.seed
  }

  /** A stream after yielding one number. */
  function Advance(s: Stream): (s': Stream)
    ensures s'.id == s.id && s'.seed == s.seed && s'.pos == s.pos + 1
  {
    s.(pos := s.pos + 1)
  }

  /** The blend of two drawn numbers: the end stream's number weighted by the tween
      fraction. */
  function Mix(t: real, x: real, y: real): real {
    (1.0 - t) * x + t * y
  }

  /** `next()`: the number drawn and the source afterwards. A blend draws once from each
      stream and weights the end stream's number by the tween fraction. */
  function Next(r: Source, draw: (nat, nat) -> real): (res: (real, Source))
    ensures r.Single? ==> res.1 == Single(Advance(r.stream))
    ensures r.Blend? ==> res.1 == Blend(Advance(r.start), Advance(r.end), r.tween)
    ensures Seed(res.1) == Seed(r)
  {
    match r
    case Single(s) => (draw(s.id, s.pos), Single(Advance(s)))
    case Blend(a, b, t) =>
      (Mix(t, draw(a.id, a.pos), draw(b.id, b.pos)), Blend(Advance(a), Advance(b), t))
  }

  /** `reset()`: every underlying stream goes back to its first number. */
  function Reset(r: Source): (r': Source)
    ensures r'.Single? <==> r.Single?
    ensures r.Single? ==> r'.stream == r.stream.(pos := 0)
    ensures r.Blend? ==> r'.start == r.start.(pos := 0) && r'.end == r.end.(pos := 0) &&
                         r'.tween == r.tween
    ensures Seed(r') == Seed(r)
  {
    match r
    case Single(s) => Single(s.(pos := 0))
    case Blend(a, b, t) => Blend(a.(pos := 0), b.(pos := 0), t)
  }

  /** The first `n` numbers drawn from a source, and the source afterwards. */
  function Take(r: Source, n: nat, draw: (nat, nat) -> real): (res: (seq<real>, Source))
    ensures |res.0| == n
    decreases n
  {
    if n == 0 then ([], r)
    else
      var first := Next(r, draw);
      var rest := Take(first.1, n - 1, draw);
      ([first.0] + rest.0, rest.1)
  }

  /** A single stream yields the numbers at its following positions and ends `n`
      positions further on. */
  lemma {:induction false} TakeSingle(s: Stream, n: nat, draw: (nat, nat) -> real)
    ensures var (xs, r) := Take(Single(s), n, draw);
      r == Single(s.(pos := s.pos + n)) &&
      forall i :: 0 <= i < n ==> xs[i] == draw(s.id, s.pos + i)
    decreases n
  {
    if n > 0 {
      TakeSingle(Advance(s), n - 1, draw);
    }
  }

  /** Drawing `n` numbers from a blend advances both streams by `n`; each number mixes
      the numbers at the same position of the two streams. */
  lemma {:induction false} TakeBlend(a: Stream, b: Stream, t: real, n: nat, draw: (nat, nat) -> real)
    ensures var (xs, r) := Take(Blend(a, b, t), n, draw);
      r == Blend(a.(pos := a.pos + n), b.(pos := b.pos + n), t) &&
      forall i :: 0 <= i < n ==> xs[i] == Mix(t, draw(a.id, a.pos + i), draw(b.id, b.pos + i))
    decreases n
  {
    if n > 0 {
      TakeBlend(Advance(a), Advance(b), t, n - 1, draw);
      var first := Next(Blend(a, b, t), draw);
      assert first.1 == Blend(Advance(a), Advance(b), t);
      var xs := Take(first.1, n - 1, draw).0;
      var ys := Take(Blend(a, b, t), n, draw).0;
      assert ys == [first.0] + xs;
      forall i | 0 < i < n
        ensures ys[i] == Mix(t, draw(a.id, a.pos + i), draw(b.id, b.pos + i))
      {
        assert ys[i] == xs[i - 1];
      }
    }
  }

  /** The numbers a blend yields are the weighted mix of the numbers its two streams yield
      on their own. */
  lemma BlendMixesStreams(a: Stream, b: Stream, t: real, n: nat, draw: (nat, nat) -> real)
    ensures forall i :: 0 <= i < n ==>
      Take(Blend(a, b, t), n, draw).0[i] ==
        Mix(t, Take(Single(a), n, draw).0[i], Take(Single(b), n, draw).0[i])
  {
    TakeBlend(a, b, t, n, draw);
    TakeSingle(a, n, draw);
    TakeSingle(b, n, draw);
    var xs, ys, zs := Take(Blend(a, b, t), n, draw).0, Take(Single(a), n, draw).0, Take(Single(b), n, draw).0;
    forall i | 0 <= i < n
      ensures xs[i] == Mix(t, ys[i], zs[i])
    {
      assert ys[i] == draw(a.id, a.pos + i) && zs[i] == draw(b.id, b.pos + i);
    }
  }

  /** After `reset()` a source yields the same numbers however far it had got. */
  lemma ResetRestarts(r: Source, k: nat, n: nat, draw: (nat, nat) -> real)
    ensures Take(Reset(Take(r, k, draw).1), n, draw).0 == Take(Reset(r), n, draw).0
  {
    match r
    case Single(s) =>
      TakeSingle(s, k, draw);
      TakeSingle(s.(pos := 0), n, draw);
      TakeSingle(s.(pos := s.pos + k).(pos := 0), n, draw);
    case Blend(a, b, t) =>
      TakeBlend(a, b, t, k, draw);
      TakeBlend(a.(pos := 0), b.(pos := 0), t, n, draw);
      TakeBlend(a.(pos := a.pos + k).(pos := 0), b.(pos := b.pos + k).(pos := 0), t, n, draw);
      assert a.(pos := a.pos + k).(pos := 0) == a.(pos := 0);
      assert b.(pos := b.pos + k).(pos := 0) == b.(pos := 0);
  }

  /** A blended number lies between the two numbers it mixes. */
  lemma BlendBetween(a: Stream, b: Stream, t: real, draw: (nat, nat) -> real)
    requires 0.0 <= t <= 1.0
    ensures var x, y := draw(a.id, a.pos), draw(b.id, b.pos);
      RealMin(x, y) <= Next(Blend(a, b, t), draw).0 <= RealMax(x, y)
  {
    var x, y := draw(a.id, a.pos), draw(b.id, b.pos);
    LerpBetween(x, y, t);
    assert (1.0 - t) * x + t * y == (y - x) * t + x;
  }

  /** Whichever source is chosen, the numbers it yields stay within the range of the two
      streams' numbers at the same positions. */
  lemma ChosenBetween(a: Stream, b: Stream, t: real, draw: (nat, nat) -> real)
    requires 0.0 <= t <= 1.0 && a.pos == b.pos
    ensures var x, y := draw(a.id, a.pos), draw(b.id, b.pos);
      RealMin(x, y) <= Next(Choose(a, b, t), draw).0 <= RealMax(x, y)
  {
    if Choose(a, b, t).Blend? {
      BlendBetween(a, b, t, draw);
    }
  }

  /** Worked example: two generators with seeds "a" and "b" blended half way. */
  lemma SeedScenario()
    ensures Seed(Choose(Stream(1, "a", 0), Stream(2, "b", 0), 0.5)) == "a\nb"
    ensures Choose(Stream(1, "a", 0), Stream(1, "a", 0), 0.5) == Single(Stream(1, "a", 0))
  {
  }
}
