/** `GLType` and `inferGLType` in js/math-art.js: the GLSL type a shader declares for an
    animatable property, inferred from the shape of the property's value.

    A GL type has a category (scalar, vector or matrix), a base type (bool, int or float),
    and optional width, height and array length; `None` stands for a dimension the source
    leaves `undefined`. The constructor also fixes the name of the WebGL uniform setter. */
module GLTypes {
  import opened Values

  datatype Category = Scalar | Vector | Matrix

  datatype Base = BoolBase | IntBase | FloatBase

  /** The letter the source uses for a base type. */
  function Letter(b: Base): (c: char)
    ensures c in "bif"
  {
    match b
    case BoolBase => 'b'
    case IntBase => 'i'
    case FloatBase => 'f'
  }

  function Digit(d: nat): (c: char)
    requires d < 10
    ensures '0' <= c <= '9'
  {
    ('0' as int + d) as char
  }

  /** The decimal text JavaScript writes for a non-negative integer. */
  function NatText(n: nat): (s: string)
    ensures |s| > 0 && forall i :: 0 <= i < |s| ==> '0' <= s[i] <= '9'
    ensures n < 10 ==> s == [Digit(n)]
  {
    if n < 10 then [Digit(n)] else NatText(n / 10) + [Digit(n % 10)]
  }

  /** A dimension concatenated to a string: its digits, or the text `undefined`. */
  function DimText(d: Option<nat>): string {
    match d
    case None => "undefined"
    case Some(n) => NatText(n)
  }

  datatype GLType = GLType(category: Category, base: Base, width: Option<nat>,
                           height: Option<nat>, length: Option<nat>, setterName: string)

  /** The `GLType` constructor: booleans are set through the float setters; a plain scalar
      uses `uniform1`, a matrix `uniformMatrix` with one size when square and both sizes
      otherwise, everything else the vector setter of its width. */
  function Make(category: Category, base: Base, width: Option<nat>, height: Option<nat>,
                length: Option<nat>): (g: GLType)
    ensures g.category == category && g.base == base && g.width == width &&
            g.height == height && g.length == length
  {
    var setterBase := if base == BoolBase then 'f' else Letter(base);
    var setter :=
      if category == Scalar && length == None then "uniform1" + [setterBase]
      else if category == Matrix then
        if width == height then "uniformMatrix" + DimText(width) + "fv"
        else "uniformMatrix" + DimText(height) + "x" + DimText(width) + "fv"
      else "uniform" + DimText(width) + [setterBase] + "v";
    GLType(category, base, width, height, length, setter)
  }

  /** The base type a letter names, if any. */
  function BaseNamed(c: char): (r: Option<Base>)
    ensures r.Some? <==> c in "bif"
    ensures r.Some? ==> Letter(r.value) == c
  {
    if c == 'b' then Some(BoolBase) else if c == 'i' then Some(IntBase)
    else if c == 'f' then Some(FloatBase) else None
  }

  /** Lookup in the predefined types `glTypes`: its keys are the three base letters, naming
      scalars, and a base letter followed by `vec` and a width from 1 to 4, naming
      vectors. */
  function Table(key: string): (r: Option<GLType>)
    ensures r.Some? ==> r.value.length == None && r.value.height == None
    ensures r.Some? ==> r.value.category != Matrix && 0 < |key| && Letter(r.value.base) == key[0]
    ensures r.Some? ==> (r.value.category == Scalar <==> |key| == 1)
    ensures r.Some? && r.value.category == Vector ==>
      |key| == 5 && key[1..4] == "vec" && r.value.width.Some? && 1 <= r.value.width.value <= 4
    ensures |key| == 1 && key[0] in "bif" ==> r.Some?
  {
    if |key| == 1 && BaseNamed(key[0]).Some? then
      Some(Make(Scalar, BaseNamed(key[0]).value, None, None, None))
    else if |key| == 5 && BaseNamed(key[0]).Some? && key[1..4] == "vec" && '1' <= key[4] <= '4' then
      Some(Make(Vector, BaseNamed(key[0]).value, Some(key[4] as int - '0' as int), None, None))
    else None
  }

  /** `glBaseType`: float unless the property is integral; then bool for a boolean and int
      for anything else. */
  function BaseOf(example: Val, isInteger: bool): (b: Base)
    ensures !isInteger <==> b == FloatBase
    ensures b == BoolBase <==> isInteger && example.Flag?
  {
    if isInteger then (if example.Flag? then BoolBase else IntBase) else FloatBase
  }

  /** `example[0]`: the first item of an array, `undefined` for an empty one. */
  function First(v: Val): Val {
    if v.Arr? && |v.items| > 0 then v.items[0] else Undef
  }

  /** `inferGLType`: the shape is read off the first item at each level. Arrays of arrays of
      arrays are arrays of matrices; arrays of arrays are matrices when non-integral with
      both sizes in 2..4 and arrays of vectors otherwise; short arrays are vectors from the
      table and longer ones arrays of scalars. */
  function Infer(example: Val, isInteger: bool): (r: Option<GLType>)
    ensures r.Some? && !isInteger ==> r.value.base == FloatBase
  {
    if example.Arr? then
      var dim1 := |example.items|;
      var e0 := First(example);
      if e0.Arr? then
        var dim2 := |e0.items|;
        var e00 := First(e0);
        if e00.Arr? then
          Some(Make(Matrix, FloatBase, Some(|e00.items|), Some(dim2), Some(dim1)))
        else if !isInteger && 1 < dim1 < 5 && 1 < dim2 < 5 then
          Some(Make(Matrix, FloatBase, Some(dim2), Some(dim1), None))
        else
          Some(Make(Vector, BaseOf(e00, isInteger), Some(dim2), Some(1), Some(dim1)))
      else if dim1 < 5 then
        Table([Letter(BaseOf(e0, isInteger))] + "vec" + NatText(dim1))
      else
        Some(Make(Scalar, BaseOf(e0, isInteger), Some(1), Some(1), Some(dim1)))
    else
      Table([Letter(BaseOf(example, isInteger))])
  }

  /** `GLType.prototype.toString`: the GLSL type name; a vector of width 1 is named as a
      scalar, and an array type gets its length in brackets. */
  function Name(g: GLType): (r: string)
    ensures 3 <= |r|
    ensures g.category == Matrix ==> r[..3] == "mat"
    ensures g.length.Some? ==> r[|r| - 1] == ']'
    ensures g.length.None? && (g.category == Scalar || (g.category == Vector && g.width == Some(1))) ==>
      r in {"bool", "int", "float"}
  {
    var category := if g.category == Vector && g.width == Some(1) then Scalar else g.category;
    var typeName :=
      match category
      case Scalar => (match g.base case BoolBase => "bool" case IntBase => "int" case FloatBase => "float")
      case Vector => (if g.base == FloatBase then "vec" else [Letter(g.base)] + "vec") + DimText(g.width)
      case Matrix => "mat" + DimText(g.height) + "x" + DimText(g.width);
    if g.length.Some? then typeName + "[" + NatText(g.length.value) + "]" else typeName
  }

  /** The table holds a vector of every width from 1 to 4 and no vector of width 0. */
  lemma TableVectors(b: Base, n: nat)
    requires n < 5
    ensures Table([Letter(b)] + "vec" + NatText(n)).Some? <==> n > 0
    ensures n > 0 ==> Table([Letter(b)] + "vec" + NatText(n)).value ==
                      Make(Vector, b, Some(n), None, None)
  {
    assert NatText(n) == [Digit(n)];
    var key := [Letter(b)] + "vec" + [Digit(n)];
    assert key[1..4] == "vec" && key[0] == Letter(b) && key[4] == Digit(n) && |key| == 5;
  }

  /** The table holds a scalar of every base type. */
  lemma ScalarKey(b: Base)
    ensures Table([Letter(b)]) == Some(Make(Scalar, b, None, None, None))
  {
  }

  /** `inferGLType` yields `undefined` exactly for an empty array: `example[0]` is then
      `undefined`, and the table has no vector of width 0. */
  lemma InferUndefined(example: Val, isInteger: bool)
    ensures Infer(example, isInteger).None? <==> example.Arr? && |example.items| == 0
  {
    if example.Arr? && !First(example).Arr? && |example.items| < 5 {
      TableVectors(BaseOf(First(example), isInteger), |example.items|);
    } else if !example.Arr? {
      var b := BaseOf(example, isInteger);
      ScalarKey(b);
    }
  }

  /** A value all of whose arrays at each depth have the lengths `dims`, with numbers or
      booleans at the bottom. */
  predicate Shaped(v: Val, dims: seq<nat>)
    decreases v
  {
    if |dims| == 0 then v.Num? || v.Flag?
    else v.Arr? && |v.items| == dims[0] &&
         forall i :: 0 <= i < |v.items| ==> Shaped(v.items[i], dims[1..])
  }

  function Product(dims: seq<nat>): nat
    decreases |dims|
  {
    if |dims| == 0 then 1 else dims[0] * Product(dims[1..])
  }

  function Dim(d: Option<nat>): nat {
    match d
    case None => 1
    case Some(n) => n
  }

  /** How many scalars a value of the type holds. */
  function Components(g: GLType): nat {
    Dim(g.length) * Dim(g.height) * Dim(g.width)
  }

  /** The inferred type holds exactly as many scalars as the example: one per number or
      boolean in a regularly shaped value of up to three levels of non-empty arrays. */
  lemma InferHoldsExample(example: Val, dims: seq<nat>, isInteger: bool)
    requires Shaped(example, dims) && |dims| <= 3
    requires forall i :: 0 <= i < |dims| ==> dims[i] > 0
    ensures Infer(example, isInteger).Some?
    ensures Components(Infer(example, isInteger).value) == Product(dims)
  {
    if |dims| == 0 {
      ScalarKey(BaseOf(example, isInteger));
    } else if |dims| == 1 {
      HoldsList(example, dims, isInteger);
    } else {
      HoldsNested(example, dims, isInteger);
    }
  }

  lemma HoldsList(example: Val, dims: seq<nat>, isInteger: bool)
    requires Shaped(example, dims) && |dims| == 1 && dims[0] > 0
    ensures Infer(example, isInteger).Some?
    ensures Components(Infer(example, isInteger).value) == Product(dims)
  {
    assert Product(dims) == dims[0] * Product(dims[1..]);
    assert Shaped(example.items[0], dims[1..]);
    var e0 := First(example);
    assert !e0.Arr?;
    if dims[0] < 5 {
      TableVectors(BaseOf(e0, isInteger), dims[0]);
    }
  }

  lemma HoldsNested(example: Val, dims: seq<nat>, isInteger: bool)
    requires Shaped(example, dims) && 2 <= |dims| <= 3
    requires forall i :: 0 <= i < |dims| ==> dims[i] > 0
    ensures Infer(example, isInteger).Some?
    ensures Components(Infer(example, isInteger).value) == Product(dims)
  {
    var e0 := example.items[0];
    assert Shaped(e0, dims[1..]);
    assert e0.Arr? && |e0.items| == dims[1];
    assert dims[1..][1..] == dims[2..];
    var e00 := e0.items[0];
    assert Shaped(e00, dims[2..]);
    ProductSplit(dims);
    var g := InferNested(example, isInteger);
    if |dims| == 3 {
      assert e00.Arr? && |e00.items| == dims[2];
    } else {
      assert !e00.Arr?;
    }
  }

  /** The dimensions `inferGLType` gives an array of arrays. */
  lemma InferNested(example: Val, isInteger: bool) returns (g: GLType)
    requires example.Arr? && First(example).Arr?
    ensures Infer(example, isInteger) == Some(g)
    ensures var e0 := First(example); var e00 := First(e0);
      if e00.Arr? then Components(g) == |example.items| * |e0.items| * |e00.items|
      else Components(g) == |example.items| * |e0.items|
  {
    g := Infer(example, isInteger).value;
  }

  lemma ProductSplit(dims: seq<nat>)
    requires 2 <= |dims| <= 3
    ensures |dims| == 2 ==> Product(dims) == dims[0] * dims[1]
    ensures |dims| == 3 ==> Product(dims) == dims[0] * dims[1] * dims[2]
  {
    assert dims[1..][1..] == dims[2..];
    assert Product(dims) == dims[0] * Product(dims[1..]);
    assert Product(dims[1..]) == dims[1] * Product(dims[2..]);
    if |dims| == 3 {
      assert dims[2..][1..] == dims[3..];
      assert Product(dims[2..]) == dims[2] * Product(dims[3..]);
    }
  }

  /** An array holding one scalar gets the same GLSL name as the scalar itself. */
  lemma SingletonIsScalar(x: Val, isInteger: bool)
    requires !x.Arr?
    ensures Infer(Arr([x]), isInteger).Some? && Infer(x, isInteger).Some?
    ensures Name(Infer(Arr([x]), isInteger).value) == Name(Infer(x, isInteger).value)
  {
    var b := BaseOf(x, isInteger);
    assert First(Arr([x])) == x;
    TableVectors(b, 1);
    ScalarKey(b);
  }

  /** Worked examples of scalar names and setters. */
  lemma ScalarScenarios()
    ensures Name(Infer(Num(1.0), false).value) == "float"
    ensures Name(Infer(Num(1.0), true).value) == "int"
    ensures Name(Infer(Flag(true), true).value) == "bool"
    ensures Infer(Flag(true), true).value.setterName == "uniform1f"
  {
    ScalarKey(FloatBase);
    ScalarKey(IntBase);
    ScalarKey(BoolBase);
  }

  /** Three numbers infer a vector of width 3 from the table, of floats or of integers. */
  lemma VectorInferred(v: Val)
    requires v == Arr([Num(1.0), Num(2.0), Num(3.0)])
    ensures Infer(v, false) == Some(Make(Vector, FloatBase, Some(3), None, None))
    ensures Infer(v, true) == Some(Make(Vector, IntBase, Some(3), None, None))
  {
    assert First(v) == Num(1.0);
    TableVectors(FloatBase, 3);
    TableVectors(IntBase, 3);
  }

  /** A float vector of width 3 is named `vec3`. */
  lemma Vec3Named()
    ensures Name(Make(Vector, FloatBase, Some(3), None, None)) == "vec3"
  {
    assert DimText(Some(3)) == "3";
  }

  /** Worked examples of vector names and setters. */
  lemma VectorScenarios(v: Val)
    requires v == Arr([Num(1.0), Num(2.0), Num(3.0)])
    ensures Name(Infer(v, false).value) == "vec3"
    ensures Infer(v, true).value.setterName == "uniform3iv"
  {
    VectorInferred(v);
    Vec3Named();
    assert DimText(Some(3)) == "3";
  }

  /** Boolean values are handed to WebGL through the float setters. */
  lemma BoolSetsAsFloat(category: Category, width: Option<nat>, height: Option<nat>,
                        length: Option<nat>)
    ensures Make(category, BoolBase, width, height, length).setterName ==
            Make(category, FloatBase, width, height, length).setterName
  {
  }

  /** Worked examples of matrices: three rows of three floats make a 3x3 matrix, two rows
      a 2x3 matrix, each with its matrix setter. */
  lemma MatrixScenarios(row: Val)
    requires row == Arr([Num(1.0), Num(0.0), Num(0.0)])
    ensures Name(Infer(Arr([row, row, row]), false).value) == "mat3x3"
    ensures Infer(Arr([row, row, row]), false).value.setterName == "uniformMatrix3fv"
    ensures Name(Infer(Arr([row, row]), false).value) == "mat2x3"
    ensures Infer(Arr([row, row]), false).value.setterName == "uniformMatrix2x3fv"
  {
    Mat3Scenario(row);
    Mat2x3Scenario(row);
  }

  lemma Mat3Scenario(row: Val)
    requires row == Arr([Num(1.0), Num(0.0), Num(0.0)])
    ensures Name(Infer(Arr([row, row, row]), false).value) == "mat3x3"
    ensures Infer(Arr([row, row, row]), false).value.setterName == "uniformMatrix3fv"
  {
    assert First(Arr([row, row, row])) == row && First(row) == Num(1.0);
  }

  lemma Mat2x3Scenario(row: Val)
    requires row == Arr([Num(1.0), Num(0.0), Num(0.0)])
    ensures Name(Infer(Arr([row, row]), false).value) == "mat2x3"
    ensures Infer(Arr([row, row]), false).value.setterName == "uniformMatrix2x3fv"
  {
    assert First(Arr([row, row])) == row && First(row) == Num(1.0);
  }

  /** Worked examples of arrays: rows declared integer make an array of integer vectors,
      and more than four rows make an array of vectors. */
  lemma ArrayScenarios(row: Val)
    requires row == Arr([Num(1.0), Num(0.0), Num(0.0)])
    ensures Name(Infer(Arr([row, row]), true).value) == "ivec3[2]"
    ensures Name(Infer(Arr([row, row, row, row, row, row]), false).value) == "vec3[6]"
  {
    assert First(Arr([row, row])) == row && First(row) == Num(1.0);
    assert First(Arr([row, row, row, row, row, row])) == row;
    var ints := Make(Vector, IntBase, Some(3), Some(1), Some(2));
    var floats := Make(Vector, FloatBase, Some(3), Some(1), Some(6));
    assert Infer(Arr([row, row]), true).value == ints;
    assert Infer(Arr([row, row, row, row, row, row]), false).value == floats;
    assert NatText(2) == "2" && NatText(3) == "3" && NatText(6) == "6";
  }
}
