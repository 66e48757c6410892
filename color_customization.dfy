/** The color-customization hook: it holds the custom theme being edited,
    reads a color's hue, saturation and lightness back out of its
    `hsl(H S% L%)` string, changes one color, or moves every color to a new
    hue. Writing the CSS variables into the page is not modelled. */
module ColorCustomization {
  import opened Wrappers
  import opened Strings
  import opened ThemeSettings

  datatype HSL = HSL(h: nat, s: nat, l: nat)

  /** The longest prefix of digits, and what follows it. */
  function SplitDigits(s: string): (r: (string, string))
    ensures AllDigits(r.0) && r.0 + r.1 == s
    ensures r.1 == [] || !IsDigit(r.1[0])
  {
    if s == [] || !IsDigit(s[0]) then ([], s)
    else
      var rest := SplitDigits(s[1..]);
      assert [s[0]] + rest.0 + rest.1 == s;
      ([s[0]] + rest.0, rest.1)
  }

  predicate AllSpaces(s: string)
  {
    forall i :: 0 <= i < |s| ==> IsSpace(s[i])
  }

  /** The longest prefix of white space, and what follows it. */
  function SplitSpaces(s: string): (r: (string, string))
    ensures AllSpaces(r.0) && r.0 + r.1 == s
    ensures r.1 == [] || !IsSpace(r.1[0])
  {
    if s == [] || !IsSpace(s[0]) then ([], s)
    else
      var rest := SplitSpaces(s[1..]);
      assert [s[0]] + rest.0 + rest.1 == s;
      ([s[0]] + rest.0, rest.1)
  }

  lemma {:induction false} SplitDigitsOf(d: string, rest: string)
    requires AllDigits(d) && (rest == [] || !IsDigit(rest[0]))
    ensures SplitDigits(d + rest) == (d, rest)
  {
    if d == [] {
      assert d + rest == rest;
    } else {
      assert (d + rest)[0] == d[0] && IsDigit(d[0]);
      assert (d + rest)[1..] == d[1..] + rest;
      SplitDigitsOf(d[1..], rest);
      assert [d[0]] + d[1..] == d;
    }
  }

  /** White space, then a number: its value and what follows. */
  function SpaceNumber(t: string): Option<(nat, string)>
  {
    var (w, r) := SplitSpaces(t);
    var (d, rest) := SplitDigits(r);
    if w == [] || d == [] then None else Some((DigitsToNat(d), rest))
  }

  lemma SpaceNumberOf(d: string, rest: string)
    requires d != [] && AllDigits(d)
    requires rest == [] || !IsDigit(rest[0])
    ensures SpaceNumber(" " + d + rest) == Some((DigitsToNat(d), rest))
  {
    var t := " " + d + rest;
    assert t[0] == ' ' && t[1..] == d + rest;
    assert (d + rest)[0] == d[0] && IsDigit(d[0]);
    assert SplitSpaces(t[1..]) == ([], t[1..]);
    assert [t[0]] + [] == " ";
    assert SplitSpaces(t) == (" ", d + rest);
    SplitDigitsOf(d, rest);
  }

  /** `/hsl\((\d+)\s+(\d+)%\s+(\d+)%\)/` tried at the start of `s`. Each
      `\d+` must take every digit there is and each `\s+` every space, since
      the next token can start with neither, so no backtracking is needed. */
  function MatchHere(s: string): Option<HSL>
  {
    if !StartsWith(s, "hsl(") then None else MatchHue(s[4..])
  }

  /** The hue's digits, then the rest of the pattern. */
  function MatchHue(t: string): Option<HSL>
  {
    var (h, rest) := SplitDigits(t);
    if h == [] then None else MatchSaturation(DigitsToNat(h), rest)
  }

  /** `\s+(\d+)%`, then the rest of the pattern. */
  function MatchSaturation(h: nat, t: string): Option<HSL>
  {
    var sat := SpaceNumber(t);
    if sat.None? || !StartsWith(sat.value.1, "%") then None
    else MatchLightness(h, sat.value.0, sat.value.1[1..])
  }

  /** `\s+(\d+)%\)`. */
  function MatchLightness(h: nat, s: nat, t: string): Option<HSL>
  {
    var l := SpaceNumber(t);
    if l.None? || !StartsWith(l.value.1, "%)") then None
    else Some(HSL(h, s, l.value.0))
  }

  /** `color.match(...)`: the leftmost position where the pattern matches. */
  function FirstMatch(s: string): Option<HSL>
  {
    if MatchHere(s).Some? then MatchHere(s)
    else if s == [] then None
    else FirstMatch(s[1..])
  }

  /** `getHSL`: the three numbers, or all zero without a match. */
  function GetHSL(color: string): (r: HSL)
    ensures FirstMatch(color).None? ==> r == HSL(0, 0, 0)
    ensures FirstMatch(color).Some? ==> r == FirstMatch(color).value
  {
    var m := FirstMatch(color);
    if m.None? then HSL(0, 0, 0) else m.value
  }

  lemma MatchLightnessOf(h: nat, s: nat, ls: string)
    requires ls != [] && AllDigits(ls)
    ensures MatchLightness(h, s, " " + ls + "%)") == Some(HSL(h, s, DigitsToNat(ls)))
  {
    SpaceNumberOf(ls, "%)");
    assert StartsWith("%)", "%)");
  }

  /** The saturation's digits, then a '%': the lightness is read after it. */
  lemma MatchSaturationThen(h: nat, ss: string, b: string)
    requires ss != [] && AllDigits(ss) && b != [] && b[0] == '%'
    ensures MatchSaturation(h, " " + ss + b) == MatchLightness(h, DigitsToNat(ss), b[1..])
  {
    SpaceNumberOf(ss, b);
    assert StartsWith(b, "%");
  }

  lemma MatchSaturationOf(h: nat, ss: string, ls: string)
    requires ss != [] && AllDigits(ss) && ls != [] && AllDigits(ls)
    ensures MatchSaturation(h, " " + ss + "% " + ls + "%)") == Some(HSL(h, DigitsToNat(ss), DigitsToNat(ls)))
  {
    var b := "% " + ls + "%)";
    assert " " + ss + "% " + ls + "%)" == " " + ss + b;
    MatchSaturationThen(h, ss, b);
    assert b[1..] == " " + ls + "%)";
    MatchLightnessOf(h, DigitsToNat(ss), ls);
  }

  lemma MatchHueOf(hs: string, a: string)
    requires hs != [] && AllDigits(hs) && a != [] && a[0] == ' '
    ensures MatchHue(hs + a) == MatchSaturation(DigitsToNat(hs), a)
  {
    SplitDigitsOf(hs, a);
  }

  lemma MatchHereAfterOpen(x: string)
    ensures MatchHere("hsl(" + x) == MatchHue(x)
  {
    assert StartsWith("hsl(" + x, "hsl(");
    assert ("hsl(" + x)[4..] == x;
  }

  /** The pattern reads its three numbers back out of the string built
      from their digits. */
  lemma MatchHereOfParts(hs: string, ss: string, ls: string)
    requires hs != [] && ss != [] && ls != []
    requires AllDigits(hs) && AllDigits(ss) && AllDigits(ls)
    ensures MatchHere("hsl(" + hs + " " + ss + "% " + ls + "%)")
      == Some(HSL(DigitsToNat(hs), DigitsToNat(ss), DigitsToNat(ls)))
  {
    var a := " " + ss + "% " + ls + "%)";
    assert "hsl(" + hs + " " + ss + "% " + ls + "%)" == "hsl(" + (hs + a);
    MatchHereAfterOpen(hs + a);
    MatchHueOf(hs, a);
    MatchSaturationOf(DigitsToNat(hs), ss, ls);
  }

  /** The string `setHue` writes parses back to its three numbers. */
  lemma HslRoundTrip(h: nat, s: nat, l: nat)
    ensures GetHSL(Hsl(h, s, l)) == HSL(h, s, l)
  {
    MatchHereOfParts(NatToString(h), NatToString(s), NatToString(l));
    DigitsToNatOfNatToString(h);
    DigitsToNatOfNatToString(s);
    DigitsToNatOfNatToString(l);
  }

  /** The pattern starts with 'h', so it cannot match where there is none. */
  lemma NoMatchHereWithoutH(t: string)
    requires 'h' !in t
    ensures MatchHere(t).None?
  {
    if |t| >= 4 {
      assert t[0] in t;
      assert t[..4][0] == t[0];
    }
  }

  /** Without an 'h' the pattern cannot match anywhere. */
  lemma {:induction false} NoMatchWithoutH(t: string)
    requires 'h' !in t
    ensures FirstMatch(t).None?
  {
    NoMatchHereWithoutH(t);
    if t != [] {
      assert forall c :: c in t[1..] ==> c in t;
      NoMatchWithoutH(t[1..]);
    }
  }

  /** "222.2" stops the hue at the '.', which is neither a space nor a digit. */
  lemma DecimalHueDoesNotMatch()
    ensures MatchHere("hsl(222.2 84% 4.9%)").None?
  {
    var s := "hsl(222.2 84% 4.9%)";
    var after := ".2 84% 4.9%)";
    assert StartsWith(s, "hsl(");
    assert s[4..] == "222" + after;
    SplitDigitsOf("222", after);
    assert SplitSpaces(after) == ([], after);
  }

  /** The default themes' decimal values do not match the integer pattern,
      so they read as hue, saturation and lightness 0. */
  lemma DecimalsReadAsZero()
    ensures GetHSL("hsl(222.2 84% 4.9%)") == HSL(0, 0, 0)
  {
    var s := "hsl(222.2 84% 4.9%)";
    DecimalHueDoesNotMatch();
    assert 'h' !in s[1..];
    NoMatchWithoutH(s[1..]);
  }

  /** Every color moved to `hue`, keeping its own saturation and lightness. */
  function Rehued(colors: map<ColorKey, string>, hue: int): (r: map<ColorKey, string>)
    ensures r.Keys == colors.Keys
  {
    map k | k in colors :: Hsl(hue, GetHSL(colors[k]).s, GetHSL(colors[k]).l)
  }

  /** After `setHue` every color reads back with the new hue and the
      saturation and lightness it had. */
  lemma RehuedReadsBack(colors: map<ColorKey, string>, hue: nat, k: ColorKey)
    requires k in colors
    ensures GetHSL(Rehued(colors, hue)[k]) == HSL(hue, GetHSL(colors[k]).s, GetHSL(colors[k]).l)
  {
    HslRoundTrip(hue, GetHSL(colors[k]).s, GetHSL(colors[k]).l);
  }

  lemma RehueTwiceAt(colors: map<ColorKey, string>, first: nat, second: int, k: ColorKey)
    requires k in colors
    ensures Rehued(Rehued(colors, first), second)[k] == Rehued(colors, second)[k]
  {
    var once := Rehued(colors, first);
    RehuedReadsBack(colors, first, k);
    assert GetHSL(once[k]).s == GetHSL(colors[k]).s && GetHSL(once[k]).l == GetHSL(colors[k]).l;
  }

  /** Setting the hue twice is setting it once to the second value. */
  lemma RehueTwice(colors: map<ColorKey, string>, first: nat, second: int)
    ensures Rehued(Rehued(colors, first), second) == Rehued(colors, second)
  {
    var a := Rehued(Rehued(colors, first), second);
    var b := Rehued(colors, second);
    forall k | k in a
      ensures a[k] == b[k]
    {
      RehueTwiceAt(colors, first, second, k);
    }
    SameEntries(a, b);
  }

  lemma SameEntries(a: map<ColorKey, string>, b: map<ColorKey, string>)
    requires a.Keys == b.Keys && forall k :: k in a ==> a[k] == b[k]
    ensures a == b
  {
  }

  /** A custom theme's colors read back with the base hue, or 5 or 10 above
      it, never wrapped at 360. */
  lemma CustomThemeHues(id: string, name: string, baseHue: nat, k: ColorKey)
    ensures var h := GetHSL(CreateCustomTheme(id, name, baseHue).colors[k]).h;
      h == baseHue || h == baseHue + 5 || h == baseHue + 10
    ensures GetHSL(CreateCustomTheme(id, name, baseHue).colors[Secondary]).h == baseHue + 10
  {
    AllColorKeys(k);
    CustomThemeColors(id, name, baseHue);
    var c := CreateCustomTheme(id, name, baseHue).colors;
    HslRoundTrip(baseHue + 10, 40, 40);
    match k {
      case Secondary =>
      case Muted => HslRoundTrip(baseHue + 5, 40, 90);
      case Accent => HslRoundTrip(baseHue + 5, 40, 85);
      case Background => HslRoundTrip(baseHue, 15, 95);
      case Card => HslRoundTrip(baseHue, 15, 98);
      case Primary => HslRoundTrip(baseHue, 60, 30);
      case Ring => HslRoundTrip(baseHue, 60, 30);
      case Foreground => HslRoundTrip(baseHue, 60, 20);
      case CardForeground => HslRoundTrip(baseHue, 60, 20);
      case MutedForeground => HslRoundTrip(baseHue, 25, 40);
      case Border => HslRoundTrip(baseHue, 30, 85);
      case Input => HslRoundTrip(baseHue, 30, 85);
    }
  }

  /** The hook's state: the custom theme, if any. */
  class ColorCustomizer {
    var customTheme: Option<Theme>

    constructor(initialTheme: Option<Theme>)
      ensures customTheme == initialTheme
    {
      customTheme := initialTheme;
    }

    /** `updateColor`: one key of the current theme, nothing without a theme. */
    method UpdateColor(colorKey: ColorKey, value: string) returns (r: Option<Theme>)
      modifies this
      ensures old(customTheme).None? ==> r.None? && customTheme == old(customTheme)
      ensures old(customTheme).Some? ==>
        r == customTheme
        && r == Some(old(customTheme).value.(colors := old(customTheme).value.colors[colorKey := value]))
    {
      if customTheme.None? {
        return None;
      }
      var updated := customTheme.value.(colors := customTheme.value.colors[colorKey := value]);
      customTheme := Some(updated);
      r := Some(updated);
    }

    /** `createTheme`, with the clock reading `now` for the id. */
    method CreateTheme(name: string, baseHue: int, now: nat) returns (t: Theme)
      modifies this
      ensures t == CreateCustomTheme("custom-" + NatToString(now), name, baseHue)
      ensures customTheme == Some(t)
    {
      t := CreateCustomTheme("custom-" + NatToString(now), name, baseHue);
      customTheme := Some(t);
    }

    /** `setHue`: every color is rebuilt from the new hue and its own
        saturation and lightness, one key at a time. */
    method SetHue(hue: int) returns (r: Option<Theme>)
      modifies this
      ensures old(customTheme).None? ==> r.None? && customTheme == old(customTheme)
      ensures old(customTheme).Some? ==>
        r == customTheme
        && r == Some(old(customTheme).value.(colors := Rehued(old(customTheme).value.colors, hue)))
    {
      if customTheme.None? {
        return None;
      }
      var colors := customTheme.value.colors;
      var updatedColors: map<ColorKey, string> := map[];
      var remaining := colors.Keys;
      while remaining != {}
        invariant remaining <= colors.Keys
        invariant updatedColors.Keys == colors.Keys - remaining
        invariant forall k :: k in updatedColors ==> updatedColors[k] == Rehued(colors, hue)[k]
        decreases remaining
      {
        var key :| key in remaining;
        var hsl := GetHSL(colors[key]);
        updatedColors := updatedColors[key := Hsl(hue, hsl.s, hsl.l)];
        remaining := remaining - {key};
      }
      assert updatedColors == Rehued(colors, hue);
      var updated := customTheme.value.(colors := updatedColors);
      customTheme := Some(updated);
      r := Some(updated);
    }
  }
}
