/** The functional colour form read forwards: a system name, an opening `(` or `a(`, and
    three or four numerals separated by commas, each comma followed by any white space and
    the second and third numerals by an optional `%`, is parsed into exactly those
    numerals. The converse, that every capture is a numeral, is `Color.MatchFunction`'s
    contract. */
module ColorForms {
  import opened Values
  import opened Color

  /** A component cannot continue at `i`: the text ends, or neither a digit nor a point
      follows. */
  predicate Stops(s: string, i: nat) {
    i == |s| || (i < |s| && !IsDigit(s[i]) && s[i] != '.')
  }

  /** White space only, as `\s*` matches it. */
  predicate Blank(sp: string) {
    forall k :: 0 <= k < |sp| ==> IsSpace(sp[k])
  }

  /** The optional `%` after the second or third component. */
  predicate Marker(p: string) {
    p == "" || p == "%"
  }

  /** A run of white space from `i` to `j`, followed by something else, is skipped
      exactly. */
  lemma {:induction false} SpaceRun(s: string, i: nat, j: nat)
    requires i <= j <= |s|
    requires forall k :: i <= k < j ==> IsSpace(s[k])
    requires j == |s| || !IsSpace(s[j])
    ensures RunEnd(s, i, Spaces) == j
    decreases j - i
  {
    if i < j {
      SpaceRun(s, i + 1, j);
    }
  }

  /** A numeral between `i` and `e`, followed by a stop, is read as one number. */
  lemma NumeralAt(s: string, i: nat, e: nat, signed: bool)
    requires i <= e <= |s| && Numeral(s[i..e], signed) && Stops(s, e)
    ensures NumberEnd(s, i, signed) == Some(e)
  {
    var x := s[i..e];
    var b := if signed && 0 < |x| && x[0] == '-' then 1 else 0;
    var j := if signed && i < |s| && s[i] == '-' then i + 1 else i;
    assert s[i] == x[0];
    assert j == i + b;
    var d := RunEnd(s, j, Digits);
    RunItems(s, j, Digits);
    assert s[j] == x[b];
    forall k | b <= k < |x|
      ensures s[i + k] == x[k]
    {
    }
    if d < e {
      assert s[d] == '.';
      forall k | d + 1 <= k < e
        ensures IsDigit(s[k])
      {
        assert x[d - i] == '.' && x[k - i] != '.';
      }
      RunItems(s, d + 1, Digits);
      assert RunEnd(s, d + 1, Digits) == e;
    }
  }

  /** The pieces of a later component laid out from `i`: a comma, white space `sp` up to
      `j`, the numeral `x` up to `e`, the marker `p` up to `q`, and the text `rest`. */
  lemma GroupPieces(r: string, i: nat, j: nat, e: nat, q: nat, sp: string, x: string, p: string,
                    rest: string)
    requires i <= |r| && r[i..] == "," + (sp + (x + (p + rest)))
    requires j == i + 1 + |sp| && e == j + |x| && q == e + |p|
    ensures q + |rest| == |r| && r[i] == ','
    ensures forall k :: i + 1 <= k < j ==> r[k] == sp[k - i - 1]
    ensures r[j..e] == x && r[e..q] == p && r[q..] == rest
  {
    var u := r[i..];
    assert u[1 + |sp|..1 + |sp| + |x|] == x;
    assert u[1 + |sp| + |x|..1 + |sp| + |x| + |p|] == p;
    assert u[1 + |sp| + |x| + |p|..] == rest;
  }

  /** A later component laid out from `i` as a comma, white space, a numeral, an optional
      `%` and a text that does not continue the numeral: the separator ends at `j`, the
      number at `e`, and the `%` is skipped up to `q` unless `rest` adds another one. */
  lemma GroupAt(r: string, i: nat, j: nat, e: nat, q: nat, sp: string, x: string, p: string,
                rest: string)
    requires i <= |r| && r[i..] == "," + (sp + (x + (p + rest)))
    requires j == i + 1 + |sp| && e == j + |x| && q == e + |p|
    requires Blank(sp) && Numeral(x, false) && Marker(p)
    requires p == "%" || rest == [] || !(IsDigit(rest[0]) || rest[0] == '.')
    ensures q <= |r| && r[j..e] == x && r[q..] == rest
    ensures Separator(r, i) == Some(j) && NumberEnd(r, j, false) == Some(e)
    ensures p == "%" || rest == [] || rest[0] != '%' ==> SkipPercent(r, e) == q
  {
    GroupPieces(r, i, j, e, q, sp, x, p, rest);
    assert r[j] == x[0];
    SpaceRun(r, i + 1, j);
    if p == "%" {
      assert r[e] == p[0];
    } else if rest != [] {
      assert r[e] == rest[0];
    }
    NumeralAt(r, j, e, false);
  }

  /** The opening and the first numeral `a` of a text `open + (a + t)` whose `t` starts
      with a comma. */
  lemma FirstPieces(r: string, o: nat, e1: nat, open: string, a: string, t: string)
    requires r == open + (a + t) && o == |open| && e1 == o + |a|
    requires open == "(" || open == "a(" || open == "A("
    requires Numeral(a, true) && 0 < |t| && t[0] == ','
    ensures 0 < o < e1 < |r| && r[o..e1] == a && r[e1..] == t
    ensures (o == 1 && r[0] == '(') || (o == 2 && (r[0] == 'a' || r[0] == 'A') && r[1] == '(')
    ensures NumberEnd(r, o, true) == Some(e1)
  {
    assert r[0] == open[0] && r[o - 1] == open[o - 1];
    assert r[o..e1] == a && r[e1..] == t;
    assert r[e1] == ',';
    NumeralAt(r, o, e1, true);
  }

  /** The second and third components read between the positions the separators and
      numbers end at, and the alpha after them. */
  lemma LaterAt(r: string, i2: nat, e2: nat, q2: nat, i3: nat, e3: nat, q3: nat)
    requires i2 <= |r| && NumberEnd(r, i2, false) == Some(e2) && SkipPercent(r, e2) == q2
    requires Separator(r, q2) == Some(i3) && NumberEnd(r, i3, false) == Some(e3)
    requires SkipPercent(r, e3) == q3
    ensures MatchLater(r, i2) == Some([Some(r[i2..e2]), Some(r[i3..e3]), AlphaGroup(r, q3)])
  {
  }

  /** The first component, read between `o` and `e1`, and the rest of the arguments after
      the separator that ends at `i2`. */
  lemma FirstAt(r: string, o: nat, e1: nat, i2: nat, x2: Option<string>, x3: Option<string>,
                x4: Option<string>)
    requires o <= |r|
    requires (o == 1 && r[0] == '(') || (o == 2 && (r[0] == 'a' || r[0] == 'A') && r[1] == '(')
    requires NumberEnd(r, o, true) == Some(e1) && Separator(r, e1) == Some(i2)
    requires MatchLater(r, i2) == Some([x2, x3, x4])
    ensures MatchArgs(r) == Some([Some(r[o..e1]), x2, x3, x4])
  {
    assert CharAt(r, 0, 'a', 'A') <==> o == 2;
  }

  /** The arguments text after the system name, grouped from the right: the opening, the
      first numeral, and two later components, each a comma, white space, a numeral and a
      marker, then the tail. */
  function ArgsText(open: string, a: string, sp2: string, b: string, p2: string, sp3: string,
                    c: string, p3: string, tail: string): string
  {
    open + (a + ("," + (sp2 + (b + (p2 + ("," + (sp3 + (c + (p3 + tail)))))))))
  }

  /** The three components of an arguments text are read back as written; the tail, which
      starts at `q3`, decides the alpha. */
  lemma ArgsCore(open: string, a: string, sp2: string, b: string, p2: string, sp3: string,
                 c: string, p3: string, tail: string, q3: nat)
    requires open == "(" || open == "a(" || open == "A("
    requires Numeral(a, true) && Numeral(b, false) && Numeral(c, false)
    requires Blank(sp2) && Blank(sp3) && Marker(p2) && Marker(p3)
    requires p3 == "%" || tail == [] || !(IsDigit(tail[0]) || tail[0] == '.' || tail[0] == '%')
    requires q3 == |open| + |a| + |sp2| + |b| + |p2| + |sp3| + |c| + |p3| + 2
    ensures var r := ArgsText(open, a, sp2, b, p2, sp3, c, p3, tail);
      q3 <= |r| && r[q3..] == tail &&
      MatchArgs(r) == Some([Some(a), Some(b), Some(c), AlphaGroup(r, q3)])
  {
    var t2 := "," + (sp3 + (c + (p3 + tail)));
    var t1 := "," + (sp2 + (b + (p2 + t2)));
    var r := ArgsText(open, a, sp2, b, p2, sp3, c, p3, tail);
    var o, e1 := |open|, |open| + |a|;
    var i2 := e1 + 1 + |sp2|;
    var e2 := i2 + |b|;
    var q2 := e2 + |p2|;
    var i3 := q2 + 1 + |sp3|;
    var e3 := i3 + |c|;
    FirstPieces(r, o, e1, open, a, t1);
    GroupAt(r, e1, i2, e2, q2, sp2, b, p2, t2);
    GroupAt(r, q2, i3, e3, q3, sp3, c, p3, tail);
    LaterAt(r, i2, e2, q2, i3, e3, q3);
    FirstAt(r, o, e1, i2, Some(b), Some(c), AlphaGroup(r, q3));
  }

  /** Three components and a text that neither continues the third nor starts an
      alpha. */
  lemma ArgsThree(open: string, a: string, sp2: string, b: string, p2: string, sp3: string,
                  c: string, p3: string, rest: string)
    requires open == "(" || open == "a(" || open == "A("
    requires Numeral(a, true) && Numeral(b, false) && Numeral(c, false)
    requires Blank(sp2) && Blank(sp3) && Marker(p2) && Marker(p3)
    requires p3 == "%" || rest == [] || !(IsDigit(rest[0]) || rest[0] == '.' || rest[0] == '%')
    requires rest == [] || rest[0] != ','
    ensures MatchArgs(ArgsText(open, a, sp2, b, p2, sp3, c, p3, rest)) ==
      Some([Some(a), Some(b), Some(c), None])
  {
    var r := ArgsText(open, a, sp2, b, p2, sp3, c, p3, rest);
    var q3 := |open| + |a| + |sp2| + |b| + |p2| + |sp3| + |c| + |p3| + 2;
    ArgsCore(open, a, sp2, b, p2, sp3, c, p3, rest, q3);
    assert rest != [] ==> r[q3] == r[q3..][0] == rest[0];
  }

  /** Three components, then a comma, white space, an unsigned numeral and a text that
      does not continue it: four components. */
  lemma ArgsFour(open: string, a: string, sp2: string, b: string, p2: string, sp3: string,
                 c: string, p3: string, sp4: string, d: string, rest: string)
    requires open == "(" || open == "a(" || open == "A("
    requires Numeral(a, true) && Numeral(b, false) && Numeral(c, false) && Numeral(d, false)
    requires Blank(sp2) && Blank(sp3) && Blank(sp4) && Marker(p2) && Marker(p3)
    requires rest == [] || !(IsDigit(rest[0]) || rest[0] == '.')
    ensures MatchArgs(ArgsText(open, a, sp2, b, p2, sp3, c, p3, "," + (sp4 + (d + rest)))) ==
      Some([Some(a), Some(b), Some(c), Some(d)])
  {
    var tail := "," + (sp4 + (d + rest));
    var r := ArgsText(open, a, sp2, b, p2, sp3, c, p3, tail);
    var q3 := |open| + |a| + |sp2| + |b| + |p2| + |sp3| + |c| + |p3| + 2;
    ArgsCore(open, a, sp2, b, p2, sp3, c, p3, tail, q3);
    AlphaAt(r, q3, sp4, d, rest);
  }

  /** A comma, white space, a numeral and a text that does not continue it capture the
      numeral as the alpha. */
  lemma AlphaAt(r: string, i: nat, sp: string, d: string, rest: string)
    requires i <= |r| && r[i..] == "," + (sp + (d + rest))
    requires Blank(sp) && Numeral(d, false)
    requires rest == [] || !(IsDigit(rest[0]) || rest[0] == '.')
    ensures AlphaGroup(r, i) == Some(d)
  {
    var j := i + 1 + |sp|;
    var e := j + |d|;
    assert r[i..] == "," + (sp + (d + ("" + rest)));
    GroupAt(r, i, j, e, e, sp, d, "", rest);
  }

  /** The colour text, written left to right, is the system name followed by the
      arguments text. */
  lemma Regrouped(name: string, open: string, a: string, sp2: string, b: string, p2: string,
                  sp3: string, c: string, p3: string, tail: string)
    ensures name + open + a + "," + sp2 + b + p2 + "," + sp3 + c + p3 + tail ==
      name + ArgsText(open, a, sp2, b, p2, sp3, c, p3, tail)
  {
  }

  /** The same with a fourth component after a comma and white space. */
  lemma RegroupedAlpha(name: string, open: string, a: string, sp2: string, b: string, p2: string,
                       sp3: string, c: string, p3: string, sp4: string, d: string, rest: string)
    ensures name + open + a + "," + sp2 + b + p2 + "," + sp3 + c + p3 + "," + sp4 + d + rest ==
      name + ArgsText(open, a, sp2, b, p2, sp3, c, p3, "," + (sp4 + (d + rest)))
  {
  }

  /** Every functional colour with three numeric components and no alpha: its name as
      written, the components as written, and alpha "1". Each comma may be followed by
      white space, and the second and third components by `%`. */
  lemma FunctionForm(name: string, open: string, a: string, sp2: string, b: string, p2: string,
                     sp3: string, c: string, p3: string, rest: string)
    requires |name| == 3 && SystemName(name)
    requires open == "(" || open == "a(" || open == "A("
    requires Numeral(a, true) && Numeral(b, false) && Numeral(c, false)
    requires Blank(sp2) && Blank(sp3) && Marker(p2) && Marker(p3)
    requires p3 == "%" || rest == [] || !(IsDigit(rest[0]) || rest[0] == '.' || rest[0] == '%')
    requires rest == [] || rest[0] != ','
    ensures ParseColor(name + open + a + "," + sp2 + b + p2 + "," + sp3 + c + p3 + rest) ==
      Matched(name, [a, b, c, "1"])
  {
    var r := ArgsText(open, a, sp2, b, p2, sp3, c, p3, rest);
    Regrouped(name, open, a, sp2, b, p2, sp3, c, p3, rest);
    ArgsThree(open, a, sp2, b, p2, sp3, c, p3, rest);
    ParseFromArgs(name, r, [Some(a), Some(b), Some(c), None], [a, b, c, "1"]);
  }

  /** Every functional colour with four numeric components: its name as written and the
      components as written, the fourth being the alpha. */
  lemma FunctionFormAlpha(name: string, open: string, a: string, sp2: string, b: string,
                          p2: string, sp3: string, c: string, p3: string, sp4: string, d: string,
                          rest: string)
    requires |name| == 3 && SystemName(name)
    requires open == "(" || open == "a(" || open == "A("
    requires Numeral(a, true) && Numeral(b, false) && Numeral(c, false) && Numeral(d, false)
    requires Blank(sp2) && Blank(sp3) && Blank(sp4) && Marker(p2) && Marker(p3)
    requires rest == [] || !(IsDigit(rest[0]) || rest[0] == '.')
    ensures ParseColor(name + open + a + "," + sp2 + b + p2 + "," + sp3 + c + p3 + "," + sp4 + d + rest) ==
      Matched(name, [a, b, c, d])
  {
    var r := ArgsText(open, a, sp2, b, p2, sp3, c, p3, "," + (sp4 + (d + rest)));
    RegroupedAlpha(name, open, a, sp2, b, p2, sp3, c, p3, sp4, d, rest);
    ArgsFour(open, a, sp2, b, p2, sp3, c, p3, sp4, d, rest);
    ParseFromArgs(name, r, [Some(a), Some(b), Some(c), Some(d)], [a, b, c, d]);
  }

  /** `rgba(r, g, b, a)` is the system name `rgb` followed by an arguments text. */
  lemma RgbaText(r: string, g: string, b: string, a: string)
    ensures "rgba(" + r + ", " + g + ", " + b + ", " + a + ")" ==
      "rgb" + ArgsText("a(", r, " ", g, "", " ", b, "", "," + (" " + (a + ")")))
  {
    assert "rgba(" == "rgb" + "a(";
    assert ", " == "," + " ";
  }

  /** `rgb(r, g, b)` is the system name `rgb` followed by an arguments text. */
  lemma RgbText(r: string, g: string, b: string)
    ensures "rgb(" + r + ", " + g + ", " + b + ")" == "rgb" + ArgsText("(", r, " ", g, "", " ", b, "", ")")
  {
    assert "rgb(" == "rgb" + "(";
    assert ", " == "," + " ";
  }

  /** The four components written with one space after each comma and closed by `)`. */
  lemma SpacedFour(name: string, open: string, r: string, g: string, b: string, a: string)
    requires |name| == 3 && SystemName(name)
    requires open == "(" || open == "a(" || open == "A("
    requires Numeral(r, true) && Numeral(g, false) && Numeral(b, false) && Numeral(a, false)
    ensures ParseColor(name + ArgsText(open, r, " ", g, "", " ", b, "", "," + (" " + (a + ")")))) ==
      Matched(name, [r, g, b, a])
  {
    var t := ArgsText(open, r, " ", g, "", " ", b, "", "," + (" " + (a + ")")));
    ArgsFour(open, r, " ", g, "", " ", b, "", " ", a, ")");
    ParseFromArgs(name, t, [Some(r), Some(g), Some(b), Some(a)], [r, g, b, a]);
  }

  /** The colours the program writes with a space after each comma, `rgba(r, g, b, a)` as
      the `rgba` helper formats it, are read back as the four numerals written. */
  lemma RgbaReadBack(r: string, g: string, b: string, a: string)
    requires Numeral(r, true) && Numeral(g, false) && Numeral(b, false) && Numeral(a, false)
    ensures ParseColor("rgba(" + r + ", " + g + ", " + b + ", " + a + ")") == Matched("rgb", [r, g, b, a])
  {
    RgbaText(r, g, b, a);
    SpacedFour("rgb", "a(", r, g, b, a);
  }

  /** `rgb(r, g, b)`, as the contrasting text colour is written, is read back as its three
      numerals with alpha "1". */
  lemma RgbReadBack(r: string, g: string, b: string)
    requires Numeral(r, true) && Numeral(g, false) && Numeral(b, false)
    ensures ParseColor("rgb(" + r + ", " + g + ", " + b + ")") == Matched("rgb", [r, g, b, "1"])
  {
    var t := ArgsText("(", r, " ", g, "", " ", b, "", ")");
    RgbText(r, g, b);
    ArgsThree("(", r, " ", g, "", " ", b, "", ")");
    ParseFromArgs("rgb", t, [Some(r), Some(g), Some(b), None], [r, g, b, "1"]);
  }
}
