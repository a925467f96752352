# Tweening core of Math Art, modelled in Dafny

Math Art animates a generator (a sketch) by interpolating its animatable properties
between two keyframes. This project models the engine that does the interpolation, plus
the helpers around it:

- `values.dfy` (module `Values`): the values an animatable property can hold. These are
  numbers, booleans, arrays of values, and `undefined`. The module also has the
  `Option` type and `Math.floor`/`Math.ceil`.
- `tween.dfy` (module `Tween`): `calcTween`, the continuous interpolator
  `interpolateValue` and the stepped interpolator `interpolateStep`.
- `tween_facts.dfy` (module `TweenFacts`): the properties the animation relies on.
  These cover both ends of a tween, the closure of a loop, identity, bounds and
  monotonicity.
- `pairs.dfy` (module `Pairs`): `interpolatePair` and `interpolatePairs`, the coupled
  property pairs.
- `nominal.dfy` (module `Nominal`): `NominalArrayInterpolator`. Its constructor plans
  the edits between two boolean arrays; `interpolate` applies the edits due at a tween.
- `random.dfy` (module `Random`): `InterpolatedRandom` and `interpolateRandom`, the
  random source a frame draws from.
- `render.dfy` (module `Render`): the dispatch in `renderFrame`. It decides which
  interpolator each category of property uses, at which tween fraction, and in which
  order the categories are written.
- `gltype.dfy` (module `GLTypes`): `GLType`, its `toString`, the `glTypes` table,
  `glBaseType` and `inferGLType`, the shader-uniform types inferred from example values.
- `color.dfy` (module `Color`): `parseColor` and `hexToRGB` from util.js.
- `color_forms.dfy` (module `ColorForms`): the functional colour texts `parseColor`
  reads back component by component, with the white space and `%` signs the pattern
  allows, and the colours the program itself writes in that form.
- `controller.dfy` (module `Controller`): `AnimationController` from util.js.
- `contours.dfy` (module `Contours`): `randomize` and the `animatable` declaration of
  the Contours sketch.

Numbers are Dafny reals, so the model has no floating-point rounding. The random number
generator is a parameter: `draw(id, pos)` is the number generator `id` yields at
position `pos`. The Contours sketch receives the numbers it draws as a sequence. The
xy arc of the second half of a loop is a parameter `arc` of `RenderFrame`.

The model follows the code of js/math-art.js and util.js. These behaviours of the code
are easy to miss:

- Stepped booleans switch at the raw midpoint `tween < 0.5`, even when looping. A
  looping stepped flag therefore ends at its end value, not back at its start
  (`TweenFacts.StepFlagLoopEnd`).
- The nominal plan from `[true, false, false]` to `[false, true, true, true]` appends
  one item, switches on indices 1 and 2, and switches off index 0. That is four steps
  (`Nominal.PlanScenario`).
- At the end of a loop, a pair with a shared start value does not return to its start.
  Its anchored property ends at the first property's end value
  (`Pairs.PairAnchorAtEnd`). Paired arrays keep the end keyframe's lengths.
- `renderFrame` passes the loop phase to `interpolateValue` with `loop` false for
  continuous properties. Stepped properties get the raw fraction and the loop flag.
- The nominal interpolator applies one edit per step index `trunc((n + 1) * u)`, not one
  per frame.
- `parseColor` reports the colour system as the text matched. `"RGB(…)"` gives
  `"RGB"`, and `"hsla(…)"` gives `"hsl"`, because the optional `a` lies outside the
  group. The `%` after a component is not captured.
- `finish` marks the animation finished and calls `resolve`, even after `abort`.
- `parseInt(…, 16)` in `hexToRGB` skips leading white space, an optional sign and an
  optional `0x` prefix.
- `inferGLType` of an empty array yields no type. The key `fvec0`/`ivec0` is not in the
  table, so the source's `.toString()` on the result would throw
  (`GLTypes.InferUndefined`).
- Boolean uniforms use the float setters, for example `uniform1f`
  (`GLTypes.BoolSetsAsFloat`).

## Model

| member | source | states |
|---|---|---|
| Tween.Phase | js/math-art.js:2015-2025 | for a tween in [0, 1] the phase is in [0, 1]; it equals the tween without looping, and when looping rises to 1 at the midpoint and falls back to 0 |
| Tween.StepNumber | js/math-art.js:2072-2108 | a stepped number is the end value at the end of a tween without looping, and is otherwise either the end value or a whole number, since every other branch rounds with `Math.floor` or `Math.ceil` |
| TweenFacts.PhaseShape | js/math-art.js:2015-2025 | the looping phase is symmetric about the midpoint and is 0, 1, 0 at the start, middle and end; without looping the phase is the tween itself |
| TweenFacts.PhaseAtEnds | js/math-art.js:2015-2025 | at the fractions where an animation sits at its start keyframe the phase is 0, and where it sits at its end keyframe it is 1 |
| Tween.Interp | js/math-art.js:2027-2070 | interpolating arrays gives an array whose length is the stepped length between the two lengths, whose overlapping items are the interpolations of the items at the same index, and whose items past the overlap come from the longer array; numbers interpolate to numbers |
| Tween.Spread | js/math-art.js:2028-2049 | an interpolated array holds the interpolated overlap followed by the surplus items of the longer keyframe array, up to the requested length |
| Tween.StepLen | js/math-art.js:2083-2084 | the stepped length of an array lies between the two keyframe lengths and is the stepped number of those lengths |
| Tween.StepVal | js/math-art.js:2072-2113 | stepped interpolation keeps the shape of its keyframes: arrays become arrays of the stepped length whose overlapping items are stepped item by item and whose other items are the longer array's surplus, numbers stay numbers; without looping, tween 1 gives the end keyframe |
| Tween.StepWhole | js/math-art.js:2094-2108 | a stepped whole number lies between its two keyframe values |
| Tween.StepWholeAgrees | js/math-art.js:2094-2108 | on whole numbers, the stepped interpolator computed on reals with floor and ceiling equals the whole-number computation |
| Tween.TimesIsProduct | js/math-art.js:2094-2108 | the repeated-addition fraction of a whole number used by the stepped model is the real product |
| Tween.TimesBetween | js/math-art.js:2094-2108 | a fraction in [0, 1] of a whole number lies between 0 and the number, strictly below it when the fraction is below 1 |
| Tween.Apply | js/math-art.js:2167-2178 | whichever interpolator a pair category chooses, arrays give arrays and numbers give numbers |
| TweenFacts.StepWholeEnds | js/math-art.js:2094-2108 | a stepped whole number is its start value at the start, its end value at the end, and constant when both keyframes agree |
| TweenFacts.StepLenEnds | js/math-art.js:2083-2084 | the length of a stepped array is the start length at the start and the end length at the end |
| TweenFacts.StepWholeMonotone | js/math-art.js:2094-2108 | without looping, a stepped whole number moves monotonically from its start value to its end value as the tween advances |
| TweenFacts.StepNumberWhole | js/math-art.js:2094-2108 | the stepped interpolation of two whole numbers is a whole number given by the whole-number computation |
| TweenFacts.InterpAtStart | js/math-art.js:2027-2070 | a numeric value or array of numbers is exactly its start keyframe at the start of the animation |
| TweenFacts.InterpAtEnd | js/math-art.js:2027-2070 | a numeric value or array of numbers is exactly its end keyframe at the end of the animation |
| TweenFacts.InterpSame | js/math-art.js:2027-2070 | interpolating any value towards an equal value leaves it unchanged |
| TweenFacts.InterpNumberBetween | js/math-art.js:2051-2054 | a continuously interpolated number stays between its two keyframe values |
| TweenFacts.LerpBetween | js/math-art.js:2051-2054 | moving a fraction in [0, 1] of the way between two numbers stays between them |
| TweenFacts.InterpFlagsUndefined | js/math-art.js:2055-2069 | two different booleans interpolate continuously to undefined |
| TweenFacts.InterpScenario | js/math-art.js:2051-2054 | 10 to 20 at a quarter of the way gives 12.5 |
| TweenFacts.StepNumberEnds | js/math-art.js:2094-2108 | a stepped whole number is the start value at the start and the end value at the end, and stepping towards itself leaves it unchanged |
| TweenFacts.StepAtStart | js/math-art.js:2072-2113 | stepped whole numbers, flags and arrays of them are exactly their start keyframe at tween 0 |
| TweenFacts.StepAtEnd | js/math-art.js:2072-2113 | without looping, every stepped value is exactly its end keyframe at tween 1 |
| TweenFacts.StepAtLoopMiddle | js/math-art.js:2072-2113 | at the turning point of a loop, every stepped value is its end keyframe |
| TweenFacts.StepLoopClosure | js/math-art.js:2094-2108 | at the end of a loop, stepped whole numbers and arrays of them are back at their start keyframe |
| TweenFacts.StepFlagLoopEnd | js/math-art.js:2110-2111 | a stepped flag switches at the raw midpoint and stays switched when looping, so a loop ends on the end flag |
| TweenFacts.StepSame | js/math-art.js:2072-2113 | stepping any stepped value towards an equal value leaves it unchanged |
| TweenFacts.StepNumberBetween | js/math-art.js:2094-2108 | a stepped whole number is a whole number between its keyframes, moving monotonically without looping |
| TweenFacts.StepScenarios | js/math-art.js:2094-2108 | 2 to 10 at the midpoint steps to 6, and so does 10 to 2 |
| Pairs.PairTween | js/math-art.js:2115-2163 | in the second half of a loop, paired arrays take the end keyframe lengths. An index both properties have at both keyframes is paired item by item. An index only one property has is looped on its own. Items beyond a start array are the end items. Scalars with a shared start anchor the first property at its end value and move the second from its end value towards it over the second half, staying between the two end values. Scalars that start apart each follow their own loop, and numbers stay between their keyframes |
| Pairs.PairValues | js/math-art.js:2165-2190 | without looping, and in the first half of a loop, each property of a pair is interpolated on its own |
| Pairs.PairsTween | js/math-art.js:2165-2190 | after writing the pairs, the generator has exactly its old properties plus the paired ones, and every unpaired property keeps its value |
| Pairs.PairsWritten | js/math-art.js:2165-2190 | with distinct names, every property of every pair holds the value its own pair computes, whatever the order of the list |
| Pairs.PairsIndependent | js/math-art.js:2169-2178 | without looping, and in the first half of a loop, each paired property is interpolated independently of its partner |
| Pairs.PairAnchorAtEnd | js/math-art.js:2153-2156 | a pair that starts at a shared value ends the loop with both properties at the first property's end value |
| Pairs.PairFreeClosure | js/math-art.js:2157-2159 | two numbers that start apart each follow their own loop and are back at their start values at the end |
| Nominal.NewPlan | js/math-art.js:2229-2258 | the constructor's plan lists in ascending order exactly the overlap indices to switch on and to switch off, and the length change between the keyframes |
| Nominal.PlanUnique | js/math-art.js:2229-2258 | the two keyframe arrays determine the plan |
| Nominal.PlanShape | js/math-art.js:2229-2258 | a plan deletes or appends but not both, turns the start length into the end length, never sets and clears the same index, and lists exactly the overlap indices where the keyframes differ |
| Nominal.StepAt | js/math-art.js:2279-2280 | the step index is the integer part of (steps + 1) times the tween position |
| Nominal.StepAtEnds | js/math-art.js:2279-2280 | no edit is due at position 0, and every edit is due at position 1 |
| Nominal.CopyAtItems | js/math-art.js:2303-2316 | copying the first n listed indices from a source changes exactly those indices |
| Nominal.ListedPrefix | js/math-art.js:2303-2316 | an index counts as copied after n copies exactly when it is among the first n listed indices |
| Nominal.NotYetListed | js/math-art.js:2303-2316 | in an ascending list, an index is not among the indices before it |
| Nominal.ExtendItems | js/math-art.js:2292-2301 | appending n items keeps the array as a prefix and takes the new items from the source array at the same indices |
| Nominal.TrimmedItems | js/math-art.js:2283-2301 | after the deletions and early appends, the array still holds the start items on the overlap |
| Nominal.TrimmedLength | js/math-art.js:2283-2301 | the deletions shorten the start array by one item each, and the early appends lengthen it by one each |
| Nominal.ForwardBudget | js/math-art.js:2279-2316 | the step is spent on the forward phases in order, and spends min(step, total edits) edits |
| Nominal.BackBudget | js/math-art.js:2279-2331 | in the second half of a loop, the step is spent on the undo phases in order, and spends min(step, total edits) edits |
| Nominal.ForwardArray | js/math-art.js:2283-2331 | the forward array's length lies between the two keyframe lengths |
| Nominal.BackArray | js/math-art.js:2283-2331 | the array of the second half of a loop has a length between the two keyframe lengths |
| Nominal.Interpolate | js/math-art.js:2260-2334 | the interpolated array's length always lies between the two keyframe lengths |
| Nominal.ForwardBudgetStep | js/math-art.js:2279-2316 | one more step applies exactly the next edit in forward order |
| Nominal.BackBudgetStep | js/math-art.js:2279-2331 | one more step applies exactly the next edit in the order of the second half of a loop |
| Nominal.ForwardBudgetStart | js/math-art.js:2279-2316 | no forward edit is applied at step 0 |
| Nominal.ForwardBudgetDone | js/math-art.js:2279-2316 | every forward edit is applied once the step reaches the plan's length |
| Nominal.BackBudgetStart | js/math-art.js:2279-2331 | no edit of the second half of a loop is applied at step 0 |
| Nominal.BackBudgetDone | js/math-art.js:2279-2331 | every edit of the second half of a loop is applied once the step reaches the plan's length |
| Nominal.ForwardDeleteEdit | js/math-art.js:2283-2290 | each trailing deletion removes exactly the last item |
| Nominal.ForwardAppendFirstEdit | js/math-art.js:2292-2301 | in the forward half of a loop, each early append adds exactly one item |
| Nominal.ForwardSetEdit | js/math-art.js:2303-2309 | each switch-on changes exactly one item |
| Nominal.ForwardClearEdit | js/math-art.js:2311-2316 | each switch-off, after the switch-ons, changes exactly one item |
| Nominal.ForwardAppendLastEdit | js/math-art.js:2318-2331 | without looping, each late append adds exactly one item |
| Nominal.ForwardOneEdit | js/math-art.js:2260-2334 | without looping and in the forward half of a loop, each further step up to the plan's length changes the array by exactly one edit |
| Nominal.BackSetEdit | js/math-art.js:2303-2309 | in the second half of a loop, undoing each switch-on changes exactly one item |
| Nominal.BackClearEdit | js/math-art.js:2311-2316 | in the second half of a loop, undoing each switch-off changes exactly one item |
| Nominal.BackRestoreEdit | js/math-art.js:2318-2331 | in the second half of a loop, restoring each deleted item adds exactly one item |
| Nominal.BackSpliceEdit | js/math-art.js:2318-2331 | in the second half of a loop, removing each appended item removes exactly the last item |
| Nominal.BackOneEdit | js/math-art.js:2260-2334 | in the second half of a loop, each further step up to the plan's length changes the array by exactly one edit |
| Nominal.NoEdits | js/math-art.js:2260-2334 | applying no edit gives the start array going forward and the end array in the second half of a loop |
| Nominal.AllForward | js/math-art.js:2260-2334 | applying every forward edit produces exactly the end keyframe array |
| Nominal.AllForwardLoop | js/math-art.js:2283-2316 | in the forward half of a loop, the switches turn the trimmed and extended start array into the end array |
| Nominal.AllForwardPlain | js/math-art.js:2283-2331 | without looping, the late appends complete the switched, trimmed start array into the end array |
| Nominal.AllBack | js/math-art.js:2260-2334 | applying every edit of the second half of a loop restores exactly the start keyframe array |
| Nominal.InterpolateEnds | js/math-art.js:2260-2334 | the array is the start array at tween 0, the end array at tween 1 without looping and at the turning point of a loop, and the start array again at the end of a loop |
| Nominal.PlanScenario | js/math-art.js:2229-2258 | from [on, off, off] to [off, on, on, on], the plan appends one item, switches on 1 and 2, switches off 0, and has four steps |
| Nominal.FirstEditScenario | js/math-art.js:2260-2334 | for that example the first edit is the switch-on of index 1 without looping, and the append when looping |
| Random.Choose | js/math-art.js:2476-2491 | the start stream at tween 0, the end stream at tween 1, a single stream when both keyframes share a generator, and otherwise a blend of the two at the tween |
| Random.Seed | js/math-art.js:2462 | a blended source's seed is the two seeds joined by a line break |
| Random.Next | js/math-art.js:2465-2468 | drawing advances every underlying stream by one position and keeps the seed |
| Random.Reset | js/math-art.js:2470-2473 | reset returns every underlying stream to its first position and keeps the seed |
| Random.Take | js/math-art.js:2465-2468 | drawing n numbers yields n numbers |
| Random.TakeSingle | js/math-art.js:2465-2468 | a single stream yields the numbers at its following positions and advances by n |
| Random.TakeBlend | js/math-art.js:2465-2468 | a blend advances both streams by n, and each number it yields mixes the two streams' numbers at the same position |
| Random.BlendMixesStreams | js/math-art.js:2465-2468 | the numbers a blend yields are the weighted mix of the numbers its streams yield on their own |
| Random.ResetRestarts | js/math-art.js:2470-2473 | after reset a source yields the same numbers however far it had got |
| Random.BlendBetween | js/math-art.js:2465-2468 | a blended number lies between the two numbers it mixes |
| Random.ChosenBetween | js/math-art.js:2476-2491 | whichever source is chosen, its next number lies between the two streams' numbers |
| Random.SeedScenario | js/math-art.js:2457-2491 | generators seeded "a" and "b" blended half way have seed "a\nb"; one generator with itself stays single |
| Render.Layer | js/math-art.js:2507-2517 | a category loop writes every property of the start keyframe with its interpolated value and leaves every other property alone |
| Render.FlagsOf | js/math-art.js:2422-2429 | a nominal array becomes an array of the same flags |
| Render.NominalValue | js/math-art.js:2422-2429 | a nominal array is written as an array whose length lies between the two keyframe lengths |
| Render.NominalArrays | js/math-art.js:2422-2429 | there is one written array per planned nominal array, holding the interpolator's result |
| Render.NominalLayer | js/math-art.js:2422-2429 | every nominal array is written with the interpolator's result, and nothing else changes |
| Render.ArcLayer | js/math-art.js:2530-2535 | in the second half of a loop, the xy pairs are written from the arc, and nothing else changes |
| Render.Animated | js/math-art.js:2519-2550 | the gated categories change no property outside the pairs, the xy properties and the nominal arrays |
| Render.AfterPairs | js/math-art.js:2521-2549 | the stepped pairs, xy pairs and nominal arrays keep every property and change none they do not name |
| Render.Steady | js/math-art.js:2507-2517 | the continuous and stepped loops keep the generator's properties and add every keyframe property |
| Render.AnimatedProps | js/math-art.js:2518-2553 | between two different keyframes, every property other than `tween` holds what the gated categories leave behind |
| Render.RenderFrame | js/math-art.js:2506-2560 | the frame draws from the random source chosen at the loop phase, keeps every generator property, adds every continuous and stepped property, and sets `tween` to the loop phase |
| Render.GatedOff | js/math-art.js:2518-2519 | between a keyframe and itself, or without `animatable`, only the continuous and stepped properties and `tween` are written |
| Render.ContinuousAtPhase | js/math-art.js:2507-2512 | a continuous property is interpolated at the loop phase without looping, unless a gated category writes it |
| Render.Untouched | js/math-art.js:2506-2553 | a generator property that no category names keeps its value |
| Render.SteppedAtRaw | js/math-art.js:2513-2517 | a stepped property is stepped at the raw fraction with the loop flag, unless a gated category writes it |
| Render.NominalWritten | js/math-art.js:2549 | between two different keyframes, each nominal array holds its planned edits for the tween |
| Render.ContinuousLoopCloses | js/math-art.js:2507-2512 | at both ends of a loop, a numeric continuous property is at its start keyframe |
| Render.ContinuousReachesEnd | js/math-art.js:2507-2512 | without looping, a numeric continuous property reaches its end keyframe |
| Render.RandomFollowsPhase | js/math-art.js:2560 | the random source is the start stream at both ends of a loop and the end stream at its middle |
| Render.PairedWritten | js/math-art.js:2520 | between two different keyframes, each property of a continuous pair holds the value its pair computes |
| Render.PairsSurvive | js/math-art.js:2521-2549 | the later gated categories leave alone a continuous-pair property they do not name |
| Render.PairedIndependent | js/math-art.js:2520 | without looping, and in the first half of a loop, a continuous pair is interpolated as two unpaired properties |
| GLTypes.Make | js/math-art.js:115-134 | a type keeps its category, base and dimensions, and boolean types are given the float setters |
| GLTypes.BaseNamed | js/math-art.js:191-199 | the letters b, i and f name the three base types |
| GLTypes.Table | js/math-art.js:191-199 | entries of the type table are scalars or vectors, never matrices or arrays; the key's first letter names the base; a one-letter key is a scalar and every base letter is one; a vector key is the letter, `vec` and a width from 1 to 4 |
| GLTypes.TableVectors | js/math-art.js:191-199 | the table holds a vector of every base for every positive width and no zero-width vector |
| GLTypes.ScalarKey | js/math-art.js:191-199 | each base letter alone names that base's scalar |
| GLTypes.BaseOf | js/math-art.js:201-211 | the base is float exactly when integers are not requested, and bool exactly when an integer request has a boolean example |
| GLTypes.Infer | js/math-art.js:213-242 | a non-integer request always infers a float type |
| GLTypes.Name | js/math-art.js:136-164 | the GLSL type name: a matrix name starts with `mat`, an array type ends in `]`, and a scalar, or a vector of width 1, that is not an array is named `bool`, `int` or `float` |
| GLTypes.InferUndefined | js/math-art.js:213-242 | no type is inferred exactly when the example is an empty array |
| GLTypes.InferHoldsExample | js/math-art.js:213-242 | for a regularly shaped example of depth at most 3, the inferred type holds exactly as many components as the example |
| GLTypes.SingletonIsScalar | js/math-art.js:213-242 | a one-item array has the same type name as its item |
| GLTypes.ScalarScenarios | js/math-art.js:136-164 | a number is "float" or "int"; a boolean is "bool" and is set with uniform1f |
| GLTypes.VectorScenarios | js/math-art.js:136-164 | three numbers are a "vec3", set as integers with uniform3iv |
| GLTypes.BoolSetsAsFloat | js/math-art.js:115-134 | boolean types use the setter of the matching float type |
| GLTypes.MatrixScenarios | js/math-art.js:213-242 | three rows of three floats infer mat3x3 and two rows infer mat2x3, each with its matrix setter |
| GLTypes.ArrayScenarios | js/math-art.js:213-242 | two rows requested as integers infer ivec3[2]; six rows infer vec3[6] |
| Color.MatchFunction | util.js:115 | the functional form matches exactly when the text starts with rgb or hsl in any case and its arguments parse; it reports the name as written, and its captures are three numerals, only the first signed, and an optional unsigned alpha |
| Color.NumberIsNumeral | util.js:115 | the text a number pattern `-?\d+(?:\.\d*)?` consumes starts with a digit (after the sign when one is allowed) and holds digits and at most one point |
| Color.ArgsCaptures | util.js:115 | whenever the arguments match, the captured components are numerals: the first may be negative, the others and the alpha may not |
| Color.MatchHex | util.js:116 | the hexadecimal form matches exactly when the text starts with # and six lower-case hex digits; a seventh and eighth hex digit give the alpha |
| Color.ParseColor | util.js:118-138 | the text is unmatched exactly when neither form matches; the functional form wins; the hexadecimal form reports "rgb"; a missing alpha becomes "1" |
| Color.HexForm | util.js:118-138 | a string starting with # is a colour exactly when six lower-case hex digits follow, and then gives its three digit pairs |
| Color.UpperHexUnmatched | util.js:116 | upper-case hexadecimal digits are not recognised |
| Color.FunctionCaseInsensitive | util.js:115 | the functional form ignores the case of its name, and reports the name as written |
| Color.RgbScenario | util.js:118-138 | "rgb(1,2%,3%)" gives rgb with 1, 2, 3 and alpha 1 |
| Color.HslaScenario | util.js:118-138 | "hsla(1,2,3,0.5)" gives hsl with 1, 2, 3 and alpha 0.5 |
| Color.NameUnmatched | util.js:118-138 | a colour name such as "blue" is not recognised |
| Color.PairValue | util.js:140-145 | two hexadecimal digits read in base 16 give a channel value in 0..255 |
| Color.HexChannels | util.js:140-145 | for a well-formed hexadecimal colour, every channel is a number in 0..255 |
| Color.HexRoundTrip | util.js:140-145 | reading a colour written as #rrggbb gives back its three channels |
| Color.ChannelRoundTrip | util.js:140-145 | the two digits written for a channel value read back in base 16 as that value |
| Color.ParseToHex | util.js:118-138 | parsing a colour written as #rrggbb gives its three digit pairs and alpha 1 |
| ColorForms.SpaceRun | util.js:115 | the `\s*` after a comma stops exactly at the first character that is not white space |
| ColorForms.NumeralAt | util.js:115 | a numeral followed by neither a digit nor a point is consumed exactly by the number pattern |
| ColorForms.GroupAt | util.js:115 | a comma, white space, an unsigned numeral and an optional `%` are read as that separator and that number, and the `%` is skipped |
| ColorForms.FirstPieces | util.js:115 | after `(`, `a(` or `A(`, a signed numeral followed by a comma is read as the first number |
| ColorForms.ArgsCore | util.js:115 | three numerals after `(` or `a(`, each comma followed by any white space and the second and third numerals by an optional `%`, are captured as written |
| ColorForms.ArgsThree | util.js:115 | three such numerals followed by neither a digit, a point, `%` nor a comma capture no alpha |
| ColorForms.ArgsFour | util.js:115 | three such numerals, then a comma, white space and a fourth numeral, capture the fourth as the alpha |
| ColorForms.AlphaAt | util.js:115 | a comma, white space, a numeral and a stop give that numeral as the alpha |
| ColorForms.FunctionForm | util.js:115-138 | every text made of rgb or hsl in any case, `(` or `a(`, and three numerals, only the first signed, each comma followed by any white space and the second and third numerals by an optional `%`, parses to the name as written, the three numerals and alpha "1" |
| ColorForms.FunctionFormAlpha | util.js:115-138 | the same text with a comma, white space and a fourth unsigned numeral parses to the name and the four numerals, the fourth as the alpha |
| ColorForms.RgbaReadBack | util.js:147-149 | a colour the `rgba` helper writes, `rgba(r, g, b, a)` with a space after each comma, parses back to the four numerals written |
| ColorForms.RgbReadBack | js/math-art.js:2445-2446 | a colour written as `rgb(r, g, b)` with a space after each comma, as the contrasting text colour is, parses back to its three numerals and alpha "1" |
| Controller.New | util.js:4-11 | a new controller keeps the given properties, is running with no progress and no begin time, and has made no calls |
| Controller.Setup | util.js:32-36 | setup records the begin time and installs abort and continue, and changes nothing else |
| Controller.Abort | util.js:13-21 | abort throws before setup; it stops a running animation and calls reject once; otherwise nothing changes |
| Controller.Continue | util.js:23-30 | continue throws before setup; it requests a frame only while running; otherwise nothing changes |
| Controller.Finish | util.js:38-41 | finish marks the animation finished and calls resolve, whatever the status |
| Controller.Step | util.js:3-43 | setup, finish and progress updates never throw |
| Controller.StepSettled | util.js:3-43 | every call keeps reject called at most once, and never while running |
| Controller.RejectAtMostOnce | util.js:13-21 | however a sketch drives its controller, reject is called at most once |
| Controller.SetupNeverThrows | util.js:32-36 | once set up, no sequence of calls throws |
| Controller.StoppedIgnoresAbortAndContinue | util.js:13-30 | once an animation is no longer running, abort and continue change nothing |
| Controller.FinishedStaysFinished | util.js:13-41 | after finish, abort has no effect |
| Controller.AbortOnce | util.js:13-36 | aborting a fresh animation calls reject once, and a second abort does not call it again |
| Controller.FramesOnlyWhileRunning | util.js:23-30 | frames are requested only while the animation runs |
| Contours.Prefix | sketch/contours.js:306-321 | the running totals have one entry per weight |
| Contours.PrefixSums | sketch/contours.js:306-321 | the loop computes the running totals of the weights and their sum |
| Contours.SumMonotone | sketch/contours.js:306-321 | with non-negative weights a longer prefix has a larger sum |
| Contours.PrefixAscending | sketch/contours.js:306-321 | with non-negative weights the running totals ascend and end at the sum |
| Contours.ScanFrom | sketch/contours.js:333-342 | the downward scan stops at an index whose predecessor is below the target, with every total from there on at or above it |
| Contours.ScanDown | sketch/contours.js:333-342 | the selected bin is a valid index |
| Contours.ScanLeast | sketch/contours.js:333-342 | with ascending totals, the selected bin is the least one whose running total reaches the target |
| Contours.ScaledWithinTotal | sketch/contours.js:333-342 | a random fraction of the sum lies between 0 and the sum |
| Contours.Pick | sketch/contours.js:333-342 | a weighted draw selects one of the bins |
| Contours.PickLeast | sketch/contours.js:333-342 | a weighted draw selects the first bin whose running total reaches the drawn fraction of the sum |
| Contours.JitterBounds | sketch/contours.js:343-359 | jittering within a bin stays inside that bin's slice of [0, 1) |
| Contours.Place | sketch/contours.js:332-360 | an attractor falls in one of the 5 columns and 3 rows |
| Contours.PlaceBounds | sketch/contours.js:332-360 | an attractor's position lies inside its cell, and its strength and saturation lie in [0, 1) |
| Contours.PlaceColumnLeast | sketch/contours.js:333-337 | an attractor's column is the first whose running weight reaches the drawn fraction |
| Contours.PlaceAll | sketch/contours.js:332-360 | each group of eight draws places one attractor |
| Contours.CellPush | sketch/contours.js:323-360 | a new attractor is appended to the points of its own cell only |
| Contours.Serpentine | sketch/contours.js:362-373 | the read-out order visits 15 cells |
| Contours.SerpentineCovers | sketch/contours.js:362-373 | the read-out order visits every cell of the grid |
| Contours.SerpentineDistinct | sketch/contours.js:362-373 | the read-out order visits no cell twice |
| Contours.SerpentineNeighbours | sketch/contours.js:362-373 | consecutive cells of the read-out order are neighbours |
| Contours.SerpentineWalk | sketch/contours.js:362-373 | the read-out order is a walk that visits every cell exactly once |
| Contours.FlattenPush | sketch/contours.js:362-373 | one more attractor adds its point as many times as its cell is visited |
| Contours.SerpentineOnce | sketch/contours.js:362-373 | each cell occurs exactly once in the read-out order |
| Contours.FlattenCount | sketch/contours.js:362-373 | the flattened positions hold exactly one point per attractor |
| Contours.Randomize | sketch/contours.js:289-374 | randomize yields 50 strengths and 50 saturations |
| Contours.RandomizeFills | sketch/contours.js:289-374 | randomize yields 50 positions, with every strength and saturation in [0, 1) |
| Contours.ContoursReady | sketch/contours.js:376-388 | the Contours declaration has only continuous properties, so any two keyframes can be interpolated |
| Contours.ContoursRender | sketch/contours.js:376-388 | rendering two keyframes of the sketch keeps every generator property and writes every declared property |
| Contours.ContoursOnlyContinuous | sketch/contours.js:376-388 | a declared property is interpolated continuously at the loop phase; any other property keeps its value |

## Left out

- The xy arc of the second half of a loop (`interpolateXY` and its `TweenData` setup,
  js/math-art.js:2363-2420) uses trigonometry. `RenderFrame` takes the arc positions as
  the parameter `arc`.
- String-valued properties are not modelled: `Val` has no strings. This leaves out
  the continuous interpolation of colour strings through colour-space conversions
  (js/math-art.js:2055-2068) and the stepped switch of any other string at the midpoint
  (js/math-art.js:2110-2111).
- The rotation tween, background colour, render size and blur that `renderFrame`
  computes after the interpolation, and all drawing, are not modelled.
- Assigning uniform values to WebGL (`assignValue` and the setter calls) is not
  modelled. Only the setter name is.
- `parseSeed` and the internals of the seeded generator are not modelled. Streams are
  abstract, and the numbers they yield come from the parameter `draw`.
- Floating-point rounding is not modelled: numbers are reals.
- Color.IsSpace: covers the ASCII white space, no-break space, line and paragraph
  separators and byte-order mark, but not the other Unicode space separators.
- Nominal.Interpolate: works on arrays of booleans. The source's `truthy` setting is
  always `true` for boolean arrays, so its other value is not modelled.
- Render.RenderFrame: "different keyframes" (`startFrame !== endFrame`) and "the same
  generator" (`startGenerator === endGenerator` in `interpolateRandom`) are object
  identity in the source. Here they are the parameter `distinct` and the stream `id`.
  The pair categories are read from and written into the same generator `gen` as the
  others. In the source, `interpolatePairs` reads `bgGenerator.animatable` and writes
  `bgGenerator` (js/math-art.js:2166-2187) rather than the `generator` parameter; the
  model assumes the two are the same object, as at every call of `renderFrame` and
  `animate` (js/math-art.js:2747, 3243, 3359, 3452, 3470).
- Pairs.PairTween: requires that the shorter of the two start arrays is no longer
  than the longer of the two end arrays, and pairs of the same kind. An overlap index
  beyond both end arrays is excluded: there the source interpolates towards `undefined`
  (js/math-art.js:2127-2128) and leaves holes in the result, which this value model
  cannot represent.
- Render.RenderFrame: requires, through `Render.Matched`, every property of a start
  keyframe to be in the end keyframe with a value of the same kind
  (`Values.Compatible`). Otherwise the source interpolates towards `undefined` or a
  value of another kind, which gives `NaN` for a number or throws on `undefined.length`
  for an array (js/math-art.js:2508-2516). Such keyframes are excluded.
- ColorForms.RgbaReadBack: takes the components as the decimal numerals JavaScript
  prints; numbers printed in exponent form, `NaN` or `Infinity` are outside the lemma,
  because the model has no number-to-text conversion.
- Color.HexToRGB: has no contract of its own. `Color.PairValue`, `Color.HexChannels`
  and `Color.HexRoundTrip` state what it computes.
- Contours.Randomize: the random numbers are an input sequence of eight draws per
  attractor, in the order the sketch draws them. Drawing them from the seeded
  generator is not modelled.
