/** Colour strings: `parseColor` and `hexToRGB` in util.js.

    `parseColor` recognises two regular expressions, each anchored at the start of the
    string only: the functional form `rgb(…)`, `rgba(…)`, `hsl(…)`, `hsla(…)` (any letter
    case) with three or four numeric components, and the hexadecimal form `#rrggbb` or
    `#rrggbbaa` in lower case only. Both are written out here as hand parsers; the
    greedy quantifiers of the expressions never need to backtrack, so each component is
    the longest run the expression allows. `hexToRGB` reads three two-character slices
    with `parseInt(…, 16)`. */
module Color {
  import opened Values


  predicate IsDigit(c: char) {
    '0' <= c <= '9'
  }

  /** `[a-f\d]`: the hexadecimal digits the colour expression accepts. */
  predicate IsLowerHex(c: char) {
    IsDigit(c) || 'a' <= c <= 'f'
  }

  /** The digits `parseInt` accepts in base 16, in either case. */
  predicate IsHexDigit(c: char) {
    IsLowerHex(c) || 'A' <= c <= 'F'
  }

  /** White space as `\s` and `parseInt` see it (the ASCII spaces, no-break space, line and
      paragraph separators and the byte-order mark). */
  predicate IsSpace(c: char) {
    c == ' ' || c == '\t' || c == '\n' || c == '\r' || c == '\U{000B}' || c == '\U{000C}' ||
    c == '\U{00A0}' || c == '\U{2028}' || c == '\U{2029}' || c == '\U{FEFF}'
  }

  function HexValue(c: char): (v: nat)
    requires IsHexDigit(c)
    ensures v < 16
    ensures IsDigit(c) ==> v == (c - '0') as nat
  {
    if IsDigit(c) then (c - '0') as nat
    else if 'a' <= c <= 'f' then (c - 'a') as nat + 10
    else (c - 'A') as nat + 10
  }

  /** The lower-case digit for a value below 16. */
  function HexDigit(d: nat): (c: char)
    requires d < 16
    ensures IsLowerHex(c) && HexValue(c) == d
  {
    if d < 10 then '0' + d as char else 'a' + (d - 10) as char
  }

  /** The character classes the colour expressions and `parseInt` read runs of. */
  datatype CharClass = Digits | Spaces | HexDigits

  predicate InClass(c: char, cls: CharClass) {
    match cls
    case Digits => IsDigit(c)
    case Spaces => IsSpace(c)
    case HexDigits => IsHexDigit(c)
  }

  /** The end of the longest run of characters of class `cls` from index `i`. */
  function RunEnd(s: string, i: nat, cls: CharClass): (j: nat)
    requires i <= |s|
    ensures i <= j <= |s|
    ensures j == |s| || !InClass(s[j], cls)
    decreases |s| - i
  {
    if i < |s| && InClass(s[i], cls) then RunEnd(s, i + 1, cls) else i
  }

  /** Every character of a run belongs to its class. */
  lemma {:induction false} RunItems(s: string, i: nat, cls: CharClass)
    requires i <= |s|
    ensures forall k :: i <= k < RunEnd(s, i, cls) ==> InClass(s[k], cls)
    decreases |s| - i
  {
    if i < |s| && InClass(s[i], cls) {
      RunItems(s, i + 1, cls);
    }
  }

  /** `-?\d+(?:\.\d*)?` (without the sign when `signed` is false) starting at `i`: the end
      of the number, if one starts there. */
  function NumberEnd(s: string, i: nat, signed: bool): (r: Option<nat>)
    requires i <= |s|
    ensures r.Some? ==> i < r.value <= |s|
  {
    var j := if signed && i < |s| && s[i] == '-' then i + 1 else i;
    var d := RunEnd(s, j, Digits);
    if d == j then None
    else if d < |s| && s[d] == '.' then Some(RunEnd(s, d + 1, Digits))
    else Some(d)
  }

  /** `,\s*` at `i`: where the next component starts. */
  function Separator(s: string, i: nat): (r: Option<nat>)
    requires i <= |s|
    ensures r.Some? ==> i < r.value <= |s| && s[i] == ','
  {
    if i < |s| && s[i] == ',' then Some(RunEnd(s, i + 1, Spaces)) else None
  }

  /** `%?` at `i`. */
  function SkipPercent(s: string, i: nat): (j: nat)
    requires i <= |s|
    ensures i <= j <= |s|
  {
    if i < |s| && s[i] == '%' then i + 1 else i
  }

  /** The letter at index `i` in either case, as the `i` flag of the colour expression
      matches it: `lower` or its capital `upper`. */
  predicate CharAt(s: string, i: nat, lower: char, upper: char) {
    i < |s| && (s[i] == lower || s[i] == upper)
  }

  /** `(rgb|hsl)` at the start of `s`, in any case. */
  predicate SystemName(s: string) {
    (CharAt(s, 0, 'r', 'R') && CharAt(s, 1, 'g', 'G') && CharAt(s, 2, 'b', 'B')) ||
    (CharAt(s, 0, 'h', 'H') && CharAt(s, 1, 's', 'S') && CharAt(s, 2, 'l', 'L'))
  }

  /** The optional `(?:,\s*(\d+(?:\.\d*)?))?` at `i`. */
  function AlphaGroup(s: string, i: nat): (r: Option<string>)
    requires i <= |s|
  {
    match Separator(s, i)
    case None => None
    case Some(j) =>
      match NumberEnd(s, j, false)
      case None => None
      case Some(e) => Some(s[j..e])
  }

  /** The part of the functional colour expression after the system name, matched against
      the text `r` that follows the name: `a?\(`, three components separated by commas and
      optional white space (the second and third may carry `%`, which is not captured) and
      an optional fourth. */
  function MatchArgs(r: string): (c: Option<seq<Option<string>>>)
    ensures c.Some? ==> |c.value| == 4 && c.value[0].Some? && c.value[1].Some? && c.value[2].Some?
  {
    var i := if CharAt(r, 0, 'a', 'A') then 1 else 0;
    if !(i < |r| && r[i] == '(') then None
    else
      var e1 := NumberEnd(r, i + 1, true);
      if e1.None? then None
      else
        var i2 := Separator(r, e1.value);
        if i2.None? then None
        else
          match MatchLater(r, i2.value)
          case None => None
          case Some(later) => Some([Some(r[i + 1..e1.value]), later[0], later[1], later[2]])
  }

  /** The second, third and optional fourth components, the second starting at `i2`. */
  function MatchLater(r: string, i2: nat): (c: Option<seq<Option<string>>>)
    requires i2 <= |r|
    ensures c.Some? ==> |c.value| == 3 && c.value[0].Some? && c.value[1].Some?
  {
    var e2 := NumberEnd(r, i2, false);
    if e2.None? then None
    else
      var i3 := Separator(r, SkipPercent(r, e2.value));
      if i3.None? then None
      else
        var e3 := NumberEnd(r, i3.value, false);
        if e3.None? then None
        else Some([Some(r[i2..e2.value]), Some(r[i3.value..e3.value]), AlphaGroup(r, SkipPercent(r, e3.value))])
  }

  /** The capture groups of the functional colour expression: the system name as written
      and the four components, the last of which is optional. */
  function MatchFunction(s: string): (r: Option<(string, seq<Option<string>>)>)
    ensures r.Some? <==> SystemName(s) && MatchArgs(s[3..]).Some?
    ensures r.Some? ==> r.value.0 == s[..3] && Captures(r.value.1)
  {
    if !SystemName(s) then None
    else
      match MatchArgs(s[3..])
      case None => None
      case Some(c) =>
        ArgsCaptures(s[3..]);
        Some((s[..3], c))
  }

  /** The text of a component the functional form captures, `-?\d+(?:\.\d*)?` with the
      sign allowed only when `signed`: a digit first, then digits and at most one point. */
  predicate Numeral(x: string, signed: bool) {
    var b := if signed && 0 < |x| && x[0] == '-' then 1 else 0;
    b < |x| && IsDigit(x[b]) &&
    (forall k :: b <= k < |x| ==> IsDigit(x[k]) || x[k] == '.') &&
    (forall j, k :: b <= j < k < |x| && x[j] == '.' ==> x[k] != '.')
  }

  /** The captures of the functional form: three numerals of which only the first may be
      negative, and an optional unsigned fourth. */
  predicate Captures(c: seq<Option<string>>) {
    |c| == 4 && c[0].Some? && c[1].Some? && c[2].Some? &&
    Numeral(c[0].value, true) && Numeral(c[1].value, false) && Numeral(c[2].value, false) &&
    (c[3].Some? ==> Numeral(c[3].value, false))
  }

  /** Every number the functional form reads is a numeral. */
  lemma NumberIsNumeral(s: string, i: nat, signed: bool)
    requires i <= |s| && NumberEnd(s, i, signed).Some?
    ensures Numeral(s[i..NumberEnd(s, i, signed).value], signed)
  {
    var j := if signed && i < |s| && s[i] == '-' then i + 1 else i;
    var d := RunEnd(s, j, Digits);
    RunItems(s, j, Digits);
    if d < |s| && s[d] == '.' {
      RunItems(s, d + 1, Digits);
    }
    var e := NumberEnd(s, i, signed).value;
    var x := s[i..e];
    var b := if signed && 0 < |x| && x[0] == '-' then 1 else 0;
    assert x[0] == s[i];
    assert b == j - i;
    assert x[b] == s[j];
    forall k | b <= k < |x|
      ensures IsDigit(x[k]) || x[k] == '.'
      ensures x[k] == '.' ==> i + k == d
    {
      assert x[k] == s[i + k];
    }
  }

  /** The arguments of the functional form capture numerals. */
  lemma ArgsCaptures(r: string)
    requires MatchArgs(r).Some?
    ensures Captures(MatchArgs(r).value)
  {
    var i := if CharAt(r, 0, 'a', 'A') then 1 else 0;
    NumberIsNumeral(r, i + 1, true);
    var e1 := NumberEnd(r, i + 1, true).value;
    var i2 := Separator(r, e1).value;
    NumberIsNumeral(r, i2, false);
    var e2 := NumberEnd(r, i2, false).value;
    var i3 := Separator(r, SkipPercent(r, e2)).value;
    NumberIsNumeral(r, i3, false);
    var e3 := SkipPercent(r, NumberEnd(r, i3, false).value);
    if Separator(r, e3).Some? && NumberEnd(r, Separator(r, e3).value, false).Some? {
      NumberIsNumeral(r, Separator(r, e3).value, false);
    }
  }

  /** The capture groups of the hexadecimal colour expression: three lower-case digit
      pairs and an optional fourth. */
  function MatchHex(s: string): (r: Option<seq<Option<string>>>)
    ensures r.Some? <==> |s| >= 7 && s[0] == '#' && forall k :: 1 <= k < 7 ==> IsLowerHex(s[k])
    ensures r.Some? ==> r.value == [Some(s[1..3]), Some(s[3..5]), Some(s[5..7]),
      if |s| >= 9 && IsLowerHex(s[7]) && IsLowerHex(s[8]) then Some(s[7..9]) else None]
  {
    if |s| >= 7 && s[0] == '#' && IsLowerHex(s[1]) && IsLowerHex(s[2]) && IsLowerHex(s[3]) &&
       IsLowerHex(s[4]) && IsLowerHex(s[5]) && IsLowerHex(s[6]) then
      Some([Some(s[1..3]), Some(s[3..5]), Some(s[5..7]),
            if |s| >= 9 && IsLowerHex(s[7]) && IsLowerHex(s[8]) then Some(s[7..9]) else None])
    else None
  }

  /** What `parseColor` returns: `[undefined, undefined]`, or the colour system and four
      component strings. */
  datatype Parsed = Unmatched | Matched(system: string, components: seq<string>)

  /** A missing fourth component becomes "1". */
  function WithAlpha(c: seq<Option<string>>): (r: seq<string>)
    requires |c| == 4 && c[0].Some? && c[1].Some? && c[2].Some?
    ensures |r| == 4 && r[0] == c[0].value && r[1] == c[1].value && r[2] == c[2].value
    ensures r[3] == if c[3].Some? then c[3].value else "1"
  {
    [c[0].value, c[1].value, c[2].value, if c[3].Some? then c[3].value else "1"]
  }

  /** `parseColor`: the functional form first, then the hexadecimal form. */
  function ParseColor(s: string): (r: Parsed)
    ensures r.Matched? ==> |r.components| == 4
    ensures r.Unmatched? <==> MatchFunction(s).None? && MatchHex(s).None?
    ensures MatchFunction(s).Some? ==>
      r == Matched(MatchFunction(s).value.0, WithAlpha(MatchFunction(s).value.1))
    ensures MatchFunction(s).None? && MatchHex(s).Some? ==>
      r == Matched("rgb", WithAlpha(MatchHex(s).value))
  {
    match MatchFunction(s)
    case Some((system, c)) => Matched(system, WithAlpha(c))
    case None =>
      match MatchHex(s)
      case Some(c) => Matched("rgb", WithAlpha(c))
      case None => Unmatched
  }

  /** The value of a string of base-16 digits. */
  function HexNumber(ds: string): (v: nat)
    requires forall k :: 0 <= k < |ds| ==> IsHexDigit(ds[k])
    decreases |ds|
  {
    if |ds| == 0 then 0
    else HexNumber(ds[..|ds| - 1]) * 16 + HexValue(ds[|ds| - 1])
  }

  /** `parseInt(str, 16)`: leading white space, an optional sign and an optional `0x`
      prefix are skipped, then the longest run of base-16 digits is read; with no digits
      the result is `NaN`, here `None`. */
  function ParseIntHex(str: string): (r: Option<int>)
  {
    var i := RunEnd(str, 0, Spaces);
    var neg := i < |str| && str[i] == '-';
    var j := if i < |str| && (str[i] == '-' || str[i] == '+') then i + 1 else i;
    var k := if j + 1 < |str| && str[j] == '0' && (str[j + 1] == 'x' || str[j + 1] == 'X') then j + 2 else j;
    var e := RunEnd(str, k, HexDigits);
    if e == k then None
    else
      RunItems(str, k, HexDigits);
      RunDigits(str, k, e);
      var v: int := HexNumber(str[k..e]);
      Some(if neg then -v else v)
  }

  /** A run of the base-16 class is a string of base-16 digits. */
  lemma RunDigits(str: string, k: nat, e: nat)
    requires k <= e <= |str|
    requires forall m :: k <= m < e ==> InClass(str[m], HexDigits)
    ensures forall m :: 0 <= m < e - k ==> IsHexDigit(str[k..e][m])
  {
    forall m | 0 <= m < e - k
      ensures IsHexDigit(str[k..e][m])
    {
      assert str[k..e][m] == str[k + m];
      assert InClass(str[k + m], HexDigits);
    }
  }

  /** `str.slice(a, b)` for `0 <= a <= b`: indices past the end are clamped. */
  function Slice(str: string, a: nat, b: nat): (r: string)
    requires a <= b
    ensures |r| == if a >= |str| then 0 else Min(b, |str|) - a
    ensures forall k :: 0 <= k < |r| ==> r[k] == str[a + k]
  {
    if a >= |str| then "" else str[a..Min(b, |str|)]
  }

  /** `hexToRGB`: the digit pairs at indices 1-2, 3-4 and 5-6 read in base 16. */
  function HexToRGB(color: string): (rgb: (Option<int>, Option<int>, Option<int>))
  {
    (ParseIntHex(Slice(color, 1, 3)), ParseIntHex(Slice(color, 3, 5)), ParseIntHex(Slice(color, 5, 7)))
  }

  /** Two base-16 digits read as a number: a channel value in 0..255. */
  lemma PairValue(a: char, b: char)
    requires IsHexDigit(a) && IsHexDigit(b)
    ensures ParseIntHex([a, b]) == Some(HexValue(a) * 16 + HexValue(b))
    ensures 0 <= HexValue(a) * 16 + HexValue(b) <= 255
  {
    var str := [a, b];
    assert !IsSpace(a) && a != '-' && a != '+' && b != 'x' && b != 'X';
    assert RunEnd(str, 0, Spaces) == 0;
    assert RunEnd(str, 2, HexDigits) == 2;
    assert RunEnd(str, 0, HexDigits) == 2;
    assert str[0..2] == str && str[..1] == [a] && [a][..0] == [];
    assert HexNumber(str) == HexNumber([a]) * 16 + HexValue(b);
  }

  /** The string `#rrggbb` for three channel values, in lower case. */
  function ToHex(r: nat, g: nat, b: nat): (s: string)
    requires r < 256 && g < 256 && b < 256
    ensures |s| == 7 && s[0] == '#' && forall k :: 1 <= k < 7 ==> IsLowerHex(s[k])
  {
    ['#', HexDigit(r / 16), HexDigit(r % 16), HexDigit(g / 16), HexDigit(g % 16),
     HexDigit(b / 16), HexDigit(b % 16)]
  }

  /** For a well-formed hexadecimal colour, every channel `hexToRGB` reads is a number in
      0..255 given by its two digits. */
  lemma HexChannels(color: string)
    requires |color| >= 7 && forall k :: 1 <= k < 7 ==> IsLowerHex(color[k])
    ensures HexToRGB(color).0 == Some(HexValue(color[1]) * 16 + HexValue(color[2]))
    ensures HexToRGB(color).1 == Some(HexValue(color[3]) * 16 + HexValue(color[4]))
    ensures HexToRGB(color).2 == Some(HexValue(color[5]) * 16 + HexValue(color[6]))
    ensures 0 <= HexToRGB(color).0.value <= 255 && 0 <= HexToRGB(color).1.value <= 255
    ensures 0 <= HexToRGB(color).2.value <= 255
  {
    assert IsLowerHex(color[1]) && IsLowerHex(color[2]);
    assert Slice(color, 1, 3) == [color[1], color[2]];
    PairValue(color[1], color[2]);
    assert IsLowerHex(color[3]) && IsLowerHex(color[4]);
    assert Slice(color, 3, 5) == [color[3], color[4]];
    PairValue(color[3], color[4]);
    assert IsLowerHex(color[5]) && IsLowerHex(color[6]);
    assert Slice(color, 5, 7) == [color[5], color[6]];
    PairValue(color[5], color[6]);
  }

  /** The channel read from the two digits at `i` and `i + 1`. */
  lemma ChannelAt(color: string, i: nat, j: nat)
    requires j == i + 2 && j <= |color| && IsLowerHex(color[i]) && IsLowerHex(color[i + 1])
    ensures ParseIntHex(Slice(color, i, j)) == Some(HexValue(color[i]) * 16 + HexValue(color[i + 1]))
    ensures 0 <= HexValue(color[i]) * 16 + HexValue(color[i + 1]) <= 255
  {
    assert Slice(color, i, j) == [color[i], color[i + 1]];
    PairValue(color[i], color[i + 1]);
  }

  /** `hexToRGB` reads back the channels written as `#rrggbb`. */
  lemma HexRoundTrip(r: nat, g: nat, b: nat)
    requires r < 256 && g < 256 && b < 256
    ensures HexToRGB(ToHex(r, g, b)) == (Some(r as int), Some(g as int), Some(b as int))
  {
    var s := ToHex(r, g, b);
    ChannelRoundTrip(s, 1, r);
    ChannelRoundTrip(s, 3, g);
    ChannelRoundTrip(s, 5, b);
  }

  /** The two digits written for a channel value at index `i` are read back as it. */
  lemma ChannelRoundTrip(s: string, i: nat, x: nat)
    requires x < 256 && i + 2 <= |s|
    requires s[i] == HexDigit(x / 16) && s[i + 1] == HexDigit(x % 16)
    ensures ParseIntHex(Slice(s, i, i + 2)) == Some(x as int)
  {
    ChannelAt(s, i, i + 2);
    DigitPair(s, i, i + 1, x);
  }

  /** The two digits written for a channel value read back as that value. */
  lemma DigitPair(s: string, i: nat, j: nat, x: nat)
    requires x < 256 && j == i + 1 && j < |s|
    requires s[i] == HexDigit(x / 16) && s[j] == HexDigit(x % 16)
    ensures HexValue(s[i]) * 16 + HexValue(s[j]) == x
  {
  }

  /** A string starting with `#` is a colour exactly when six lower-case hexadecimal
      digits follow; it is then an `rgb` colour whose components are the digit pairs,
      with alpha "1" unless a fourth pair follows. */
  lemma HexForm(s: string)
    requires |s| > 0 && s[0] == '#'
    ensures ParseColor(s).Matched? <==> |s| >= 7 && forall k :: 1 <= k < 7 ==> IsLowerHex(s[k])
    ensures ParseColor(s).Matched? ==> ParseColor(s) == Matched("rgb", [s[1..3], s[3..5], s[5..7],
      if |s| >= 9 && IsLowerHex(s[7]) && IsLowerHex(s[8]) then s[7..9] else "1"])
  {
    assert !SystemName(s);
  }

  /** Upper-case hexadecimal digits are not recognised. */
  lemma UpperHexUnmatched(s: string)
    requires |s| >= 2 && s[0] == '#' && 'A' <= s[1] <= 'F'
    ensures ParseColor(s) == Unmatched
  {
    HexForm(s);
  }

  /** `parseColor` of `#rrggbb` gives the three digit pairs and alpha "1". */
  lemma ParseToHex(r: nat, g: nat, b: nat)
    requires r < 256 && g < 256 && b < 256
    ensures var s := ToHex(r, g, b);
      ParseColor(s) == Matched("rgb", [s[1..3], s[3..5], s[5..7], "1"])
  {
    HexForm(ToHex(r, g, b));
  }

  /** The functional form ignores the case of its name, and reports the name as written. */
  lemma FunctionCaseInsensitive(rest: string)
    ensures ParseColor("RGB" + rest).Matched? <==> ParseColor("rgb" + rest).Matched?
    ensures ParseColor("rgb" + rest).Matched? ==>
      ParseColor("RGB" + rest) == Matched("RGB", ParseColor("rgb" + rest).components) &&
      ParseColor("rgb" + rest).system == "rgb"
  {
    var u, l := "RGB" + rest, "rgb" + rest;
    assert SystemName(u) && SystemName(l);
    assert u[..3] == "RGB" && l[..3] == "rgb";
    assert u[3..] == rest && l[3..] == rest;
  }

  /** A text made of a system name and arguments that match is parsed from the
      arguments' captures. */
  lemma ParseFromArgs(name: string, r: string, c: seq<Option<string>>, components: seq<string>)
    requires |name| == 3 && SystemName(name) && MatchArgs(r) == Some(c)
    requires components == WithAlpha(c)
    ensures ParseColor(name + r) == Matched(name, components)
  {
    var s := name + r;
    assert s[..3] == name && s[3..] == r;
    assert s[0] == name[0] && s[1] == name[1] && s[2] == name[2];
    assert SystemName(s);
    assert MatchFunction(s) == Some((name, c));
  }

  /** Worked example: percent signs are not part of a component, and a missing alpha
      becomes "1". The text is "rgb(1,2%,3%)". */
  lemma RgbScenario(r: string)
    requires r == "(1,2%,3%)"
    ensures ParseColor("rgb" + r) == Matched("rgb", ["1", "2", "3", "1"])
  {
    RgbArgs(r);
    RgbComponents([Some("1"), Some("2"), Some("3"), None]);
    ParseFromArgs("rgb", r, [Some("1"), Some("2"), Some("3"), None], ["1", "2", "3", "1"]);
  }

  lemma RgbComponents(c: seq<Option<string>>)
    requires c == [Some("1"), Some("2"), Some("3"), None]
    ensures SystemName("rgb") && WithAlpha(c) == ["1", "2", "3", "1"]
  {
  }

  lemma RgbArgs(r: string)
    requires r == "(1,2%,3%)"
    ensures MatchArgs(r) == Some([Some("1"), Some("2"), Some("3"), None])
  {
    RgbPieces(r);
    RgbLater(r);
    assert !CharAt(r, 0, 'a', 'A') && r[0] == '(' && r[1..2] == "1";
  }

  lemma RgbLater(r: string)
    requires r == "(1,2%,3%)"
    ensures MatchLater(r, 3) == Some([Some("2"), Some("3"), None])
  {
    RgbPieces(r);
    assert r[3..4] == "2" && r[6..7] == "3";
  }

  lemma RgbPieces(r: string)
    requires r == "(1,2%,3%)"
    ensures NumberEnd(r, 1, true) == Some(2) && Separator(r, 2) == Some(3)
    ensures NumberEnd(r, 3, false) == Some(4) && SkipPercent(r, 4) == 5 && Separator(r, 5) == Some(6)
    ensures NumberEnd(r, 6, false) == Some(7) && SkipPercent(r, 7) == 8 && AlphaGroup(r, 8) == None
  {
    assert RunEnd(r, 2, Digits) == 2 && RunEnd(r, 1, Digits) == 2;
    assert RunEnd(r, 3, Spaces) == 3;
    assert RunEnd(r, 4, Digits) == 4 && RunEnd(r, 3, Digits) == 4;
    assert RunEnd(r, 6, Spaces) == 6;
    assert RunEnd(r, 7, Digits) == 7 && RunEnd(r, 6, Digits) == 7;
  }

  /** Worked example: the optional `a` of the name is not part of the system, and a fourth
      component is kept. The text is "hsla(1,2,3,0.5)". */
  lemma HslaScenario(r: string)
    requires r == "a(1,2,3,0.5)"
    ensures ParseColor("hsl" + r) == Matched("hsl", ["1", "2", "3", "0.5"])
  {
    HslaArgs(r);
    HslaComponents([Some("1"), Some("2"), Some("3"), Some("0.5")]);
    ParseFromArgs("hsl", r, [Some("1"), Some("2"), Some("3"), Some("0.5")], ["1", "2", "3", "0.5"]);
  }

  lemma HslaComponents(c: seq<Option<string>>)
    requires c == [Some("1"), Some("2"), Some("3"), Some("0.5")]
    ensures SystemName("hsl") && WithAlpha(c) == ["1", "2", "3", "0.5"]
  {
  }

  lemma HslaArgs(r: string)
    requires r == "a(1,2,3,0.5)"
    ensures MatchArgs(r) == Some([Some("1"), Some("2"), Some("3"), Some("0.5")])
  {
    HslaPieces(r);
    HslaLater(r);
    assert CharAt(r, 0, 'a', 'A') && r[1] == '(' && r[2..3] == "1";
  }

  lemma HslaLater(r: string)
    requires r == "a(1,2,3,0.5)"
    ensures MatchLater(r, 4) == Some([Some("2"), Some("3"), Some("0.5")])
  {
    HslaPieces(r);
    HslaAlpha(r);
    assert r[4..5] == "2" && r[6..7] == "3";
  }

  lemma HslaPieces(r: string)
    requires r == "a(1,2,3,0.5)"
    ensures NumberEnd(r, 2, true) == Some(3) && Separator(r, 3) == Some(4)
    ensures NumberEnd(r, 4, false) == Some(5) && SkipPercent(r, 5) == 5 && Separator(r, 5) == Some(6)
    ensures NumberEnd(r, 6, false) == Some(7) && SkipPercent(r, 7) == 7
  {
    assert RunEnd(r, 3, Digits) == 3 && RunEnd(r, 2, Digits) == 3;
    assert RunEnd(r, 4, Spaces) == 4;
    assert RunEnd(r, 5, Digits) == 5 && RunEnd(r, 4, Digits) == 5;
    assert RunEnd(r, 6, Spaces) == 6;
    assert RunEnd(r, 7, Digits) == 7 && RunEnd(r, 6, Digits) == 7;
  }

  lemma HslaAlpha(r: string)
    requires r == "a(1,2,3,0.5)"
    ensures AlphaGroup(r, 7) == Some("0.5")
  {
    assert RunEnd(r, 8, Spaces) == 8;
    assert Separator(r, 7) == Some(8);
    assert RunEnd(r, 9, Digits) == 9 && RunEnd(r, 8, Digits) == 9;
    assert RunEnd(r, 11, Digits) == 11 && RunEnd(r, 10, Digits) == 11;
    assert NumberEnd(r, 8, false) == Some(11);
    assert r[8..11] == "0.5";
  }

  /** A colour name is not recognised. */
  lemma NameUnmatched()
    ensures ParseColor("blue") == Unmatched
  {
    assert !SystemName("blue");
  }
}
