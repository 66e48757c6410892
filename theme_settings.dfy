/** The color themes: a theme names twelve CSS color variables, each an
    `hsl(H S% L%)` string; `createCustomTheme` derives them all from one
    base hue. */
module ThemeSettings {
  import opened Wrappers
  import opened Strings

  /** The keys of `colors`: primary, secondary, accent, background,
      foreground, muted, muted-foreground, card, card-foreground, border,
      input and ring. */
  datatype ColorKey =
    | Primary | Secondary | Accent | Background | Foreground | Muted
    | MutedForeground | Card | CardForeground | Border | Input | Ring

  const ColorKeys: set<ColorKey> := {
    Primary, Secondary, Accent, Background, Foreground, Muted,
    MutedForeground, Card, CardForeground, Border, Input, Ring
  }

  lemma AllColorKeys(k: ColorKey)
    ensures k in ColorKeys
  {
  }

  datatype Theme = Theme(id: string, name: string, colors: map<ColorKey, string>, isCustom: Option<bool>)

  /** The color string `hsl(${h} ${s}% ${l}%)`. */
  function Hsl(h: int, s: int, l: int): string
  {
    "hsl(" + IntToString(h) + " " + IntToString(s) + "% " + IntToString(l) + "%)"
  }

  /** `createCustomTheme`. */
  function CreateCustomTheme(id: string, name: string, baseHue: int): (t: Theme)
    ensures t.id == id && t.name == name && t.isCustom == Some(true)
    ensures t.colors.Keys == ColorKeys
  {
    var colors := map[
      Background := Hsl(baseHue, 15, 95),
      Foreground := Hsl(baseHue, 60, 20),
      Card := Hsl(baseHue, 15, 98),
      CardForeground := Hsl(baseHue, 60, 20),
      Primary := Hsl(baseHue, 60, 30),
      Secondary := Hsl(baseHue + 10, 40, 40),
      Muted := Hsl(baseHue + 5, 40, 90),
      MutedForeground := Hsl(baseHue, 25, 40),
      Accent := Hsl(baseHue + 5, 40, 85),
      Border := Hsl(baseHue, 30, 85),
      Input := Hsl(baseHue, 30, 85),
      Ring := Hsl(baseHue, 60, 30)
    ];
    Theme(id, name, colors, Some(true))
  }

  /** Three pairs of keys share a color, and only secondary (hue + 10) and
      muted and accent (hue + 5) move away from the base hue. */
  lemma CustomThemeColors(id: string, name: string, baseHue: int)
    ensures var c := CreateCustomTheme(id, name, baseHue).colors;
      c[Primary] == c[Ring] && c[Border] == c[Input] && c[Foreground] == c[CardForeground]
      && c[Secondary] == Hsl(baseHue + 10, 40, 40)
      && c[Muted] == Hsl(baseHue + 5, 40, 90) && c[Accent] == Hsl(baseHue + 5, 40, 85)
      && c[Background] == Hsl(baseHue, 15, 95) && c[Card] == Hsl(baseHue, 15, 98)
      && c[Primary] == Hsl(baseHue, 60, 30) && c[Foreground] == Hsl(baseHue, 60, 20)
      && c[MutedForeground] == Hsl(baseHue, 25, 40) && c[Border] == Hsl(baseHue, 30, 85)
  {
  }
}
