/** The colour theme (`src/contexts/ThemeContext.tsx`). The theme starts as
    light, is replaced after mount by a saved choice or the system
    preference, and once mounted is mirrored into the document's `dark`
    class and into storage. A saved value is read back unchecked, so the
    theme is any string here, not just the two names. */
module Theme {
  import opened Wrappers

  const Light := "light"
  const Dark := "dark"

  /** The theme before mount. */
  const InitialTheme := Light

  /** The theme chosen on mount: a non-empty saved value wins, otherwise a
      system dark preference gives dark, otherwise it stays light. */
  function MountTheme(saved: Option<string>, systemPrefersDark: bool): (t: string)
    ensures saved.Some? && saved.value != "" ==> t == saved.value
    ensures (saved.None? || saved.value == "") ==> (t == Dark <==> systemPrefersDark)
    ensures (saved.None? || saved.value == "") ==> t == Dark || t == Light
  {
    if saved.Some? && saved.value != "" then saved.value
    else if systemPrefersDark then Dark
    else InitialTheme
  }

  /** `toggleTheme`: light becomes dark, and anything else becomes light. */
  function Toggle(t: string): (next: string)
    ensures next == Dark <==> t == Light
    ensures next == Light || next == Dark
  {
    if t == Light then Dark else Light
  }

  /** Toggling twice restores a light or dark theme. */
  lemma ToggleTwice(t: string)
    requires t == Light || t == Dark
    ensures Toggle(Toggle(t)) == t
  {
  }

  /** A corrupt saved value is replaced by light on the first toggle. */
  lemma ToggleNormalises(t: string)
    requires t != Light && t != Dark
    ensures Toggle(t) == Light && Toggle(Toggle(t)) == Dark
  {
  }

  /** `setTheme` as the context exposes it: it passes the theme straight to
      the state, unchecked. */
  function SetTheme(current: string, t: string): string {
    t
  }

  /** The part of the document and storage the theme drives. */
  datatype Page = Page(darkClass: bool, stored: Option<string>)

  /** The effect on each theme change: nothing before mount; afterwards the
      `dark` class is present exactly for the dark theme and the theme is
      stored. */
  function Apply(mounted: bool, t: string, p: Page): (q: Page)
    ensures !mounted ==> q == p
    ensures mounted ==> (q.darkClass <==> t == Dark) && q.stored == Some(t)
  {
    if mounted then Page(t == Dark, Some(t)) else p
  }

  /** A stored theme comes back on the next mount, whatever the system
      preference. */
  lemma StoredThemeRestored(t: string, p: Page, systemPrefersDark: bool)
    requires t != ""
    ensures MountTheme(Apply(true, t, p).stored, systemPrefersDark) == t
  {
  }

  /** The page after mount shows the mounted theme: dark class exactly when
      the saved value (or, lacking one, the system) says dark. */
  lemma MountedPage(saved: Option<string>, systemPrefersDark: bool, p: Page)
    ensures var q := Apply(true, MountTheme(saved, systemPrefersDark), p);
      q.darkClass <==> (if saved.Some? && saved.value != "" then saved.value == Dark else systemPrefersDark)
  {
  }

  /** Once mounted, a theme set through the context drives the `dark` class
      and survives a reload exactly when it is non-empty; an empty one is
      replaced by the system preference on the next mount. */
  lemma SetThemePersists(current: string, t: string, p: Page, systemPrefersDark: bool)
    ensures var q := Apply(true, SetTheme(current, t), p);
      (q.darkClass <==> t == Dark)
      && (MountTheme(q.stored, systemPrefersDark) == t <==> t != "")
      && (t == "" ==> (MountTheme(q.stored, systemPrefersDark) == Dark <==> systemPrefersDark))
  {
  }
}
