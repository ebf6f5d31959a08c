/**
 * Theme mode and colours (theme/ThemeProvider.tsx). The mode is persisted as
 * the string form of "is dark"; the palette and the navigation theme are
 * derived from it. React Navigation's light and dark base themes are library
 * values and enter as parameters.
 */
module Theme {
  import opened Wrappers

  datatype Mode = Light | Dark

  /** The app's semantic colour tokens. */
  datatype AppColors = AppColors(
    bg: string, text: string, card: string, border: string, primary: string, muted: string)

  /**
   * React Navigation's theme: the `dark` flag, the colour record (as a map
   * from colour key to value) and the remaining base fields, carried as they are.
   */
  datatype NavTheme = NavTheme(dark: bool, colors: map<string, string>, fonts: map<string, string>)

  datatype AppTheme = AppTheme(mode: Mode, colors: AppColors, navTheme: NavTheme)

  const LightColors := AppColors("#d7d7d7", "#333333", "#ffffff", "#484848", "#1e96fc", "#666666")
  const DarkColors := AppColors("#121212", "#f5f5f5", "#1e1e1e", "#333333", "#1e96fc", "#aaaaaa")

  /** The colour keys the app overrides in the navigation theme. */
  const OverriddenKeys: set<string> := {"background", "text", "card", "border", "primary", "notification"}

  /** The value written to storage: `String(mode === 'dark')`. */
  function EncodeMode(m: Mode): (s: string)
    ensures s == "true" <==> m == Dark
    ensures s == "false" <==> m == Light
  {
    if m.Dark? then "true" else "false"
  }

  /**
   * The mode after reading the saved value: a missing or empty value keeps
   * the current mode, `"true"` means dark and any other string means light.
   */
  function DecodeSaved(saved: Option<string>, current: Mode): (m: Mode)
    ensures (saved.None? || saved.value == "") ==> m == current
    ensures saved == Some("true") ==> m == Dark
    ensures saved.Some? && saved.value != "" && saved.value != "true" ==> m == Light
  {
    match saved
    case None => current
    case Some(s) => if s == "" then current else if s == "true" then Dark else Light
  }

  /** Whatever mode was saved is the mode read back, from any current mode. */
  lemma ModeRoundTrip(m: Mode, current: Mode)
    ensures DecodeSaved(Some(EncodeMode(m)), current) == m
  {
  }

  /** Encoding is injective: the two modes are saved as different strings. */
  lemma EncodeInjective(m1: Mode, m2: Mode)
    ensures EncodeMode(m1) == EncodeMode(m2) ==> m1 == m2
  {
    ModeRoundTrip(m1, Light);
    ModeRoundTrip(m2, Light);
  }

  /** The palette for a mode: dark colours exactly when the mode is dark. */
  function Palette(m: Mode): (c: AppColors)
    ensures c == DarkColors <==> m == Dark
    ensures c == LightColors <==> m == Light
  {
    if m.Dark? then DarkColors else LightColors
  }

  /** The navigation base theme for a mode. */
  function NavBase(m: Mode, navDark: NavTheme, navLight: NavTheme): (base: NavTheme)
    ensures m == Dark ==> base == navDark
    ensures m == Light ==> base == navLight
  {
    if m == Dark then navDark else navLight
  }

  /**
   * The base theme with six colour keys taken from the palette; `notification`
   * uses the primary colour, and every other field and colour key is kept.
   */
  function MakeNavTheme(c: AppColors, base: NavTheme): (r: NavTheme)
    ensures r.dark == base.dark && r.fonts == base.fonts
    ensures r.colors.Keys == base.colors.Keys + OverriddenKeys
    ensures r.colors["background"] == c.bg && r.colors["text"] == c.text
    ensures r.colors["card"] == c.card && r.colors["border"] == c.border
    ensures r.colors["primary"] == c.primary && r.colors["notification"] == c.primary
    ensures forall k :: k in base.colors && k !in OverriddenKeys ==> r.colors[k] == base.colors[k]
  {
    var colors := base.colors["background" := c.bg]["text" := c.text]["card" := c.card]
      ["border" := c.border]["primary" := c.primary]["notification" := c.primary];
    base.(colors := colors)
  }

  /** Building the navigation theme twice from its own output changes nothing. */
  lemma MakeNavThemeIdempotent(c: AppColors, base: NavTheme)
    ensures MakeNavTheme(c, MakeNavTheme(c, base)) == MakeNavTheme(c, base)
  {
    var once := MakeNavTheme(c, base);
    var twice := MakeNavTheme(c, once);
    assert twice.colors == once.colors;
  }

  /** The provider's state: the current mode, plus the two library base themes. */
  class ThemeProvider {
    var mode: Mode
    const navDark: NavTheme
    const navLight: NavTheme

    /** A fresh provider starts light. */
    constructor (navDark: NavTheme, navLight: NavTheme)
      ensures mode == Light
      ensures this.navDark == navDark && this.navLight == navLight
    {
      mode := Light;
      this.navDark := navDark;
      this.navLight := navLight;
    }

    /** Applying the value read from storage at mount (`null` is `None`). */
    method Restore(saved: Option<string>)
      modifies this
      ensures mode == DecodeSaved(saved, old(mode))
    {
      if saved.Some? && saved.value != "" {
        mode := if saved.value == "true" then Dark else Light;
      }
    }

    /** `setMode`; returns the string the persistence effect then writes. */
    method SetMode(m: Mode) returns (persisted: string)
      modifies this
      ensures mode == m
      ensures persisted == EncodeMode(m)
    {
      mode := m;
      persisted := if mode == Dark then "true" else "false";
    }

    /** The theme the provider exposes for the current mode. */
    function CurrentTheme(): (t: AppTheme)
      reads this
      ensures t.mode == mode
      ensures t.colors == Palette(mode)
      ensures t.navTheme == MakeNavTheme(Palette(mode), NavBase(mode, navDark, navLight))
    {
      var colors := if mode == Dark then DarkColors else LightColors;
      AppTheme(mode, colors, MakeNavTheme(colors, if mode == Dark then navDark else navLight))
    }
  }
}
