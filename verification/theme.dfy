/**
 Model of the light/dark theme toggle of the site's navigation bar.

 The component keeps three pieces of state: its in-memory `isDark` flag,
 whether the `dark` class is on the document root, and the string stored
 under the `theme` key of the browser's local storage (or no string at
 all).  The browser itself is abstracted away: the storage slot and the
 class are plain fields of an immutable record, and the system's
 "prefers dark" hint is an input of the initialisation step.  A page
 load starts from `Load`, runs `Init` once, and then any number of
 `Toggle`s.
 */
module Theme {
  import opened Wrappers

  /** The two values the toggle writes under the `theme` key. */
  const Dark: string := "dark"
  const Light: string := "light"

  datatype ThemeState = ThemeState(
    isDark: bool,            // the component's state flag
    darkClass: bool,         // `dark` is in the document root's class list
    stored: Option<string>   // value under the `theme` key; None when unset
  )

  /** JavaScript truthiness of what reading the stored key returns:
      `null` and the empty string are falsy, every other string is truthy. */
  predicate IsTruthy(saved: Option<string>) {
    saved.Some? && saved.value != ""
  }

  /** The value the click handler writes for a given theme: `"dark"` for
      dark and `"light"` otherwise. */
  function Encode(dark: bool): (s: string)
    ensures s == Dark || s == Light
    ensures s == Dark <==> dark
  {
    if dark then Dark else Light
  }

  /** A state whose three parts agree: the class shows the flag and the
      stored key holds the flag's encoding. */
  predicate Synced(s: ThemeState) {
    s.darkClass == s.isDark && s.stored == Some(Encode(s.isDark))
  }

  /** The state right after a page load, before the effect has run: the
      flag starts out false, the document has no `dark` class, and the
      storage holds whatever an earlier session left there. */
  function Load(stored: Option<string>): (s: ThemeState)
    ensures !s.isDark && !s.darkClass
    ensures s.stored == stored
  {
    ThemeState(false, false, stored)
  }

  /** The precedence rule of the mount effect: a truthy stored value
      decides, and only the exact string "dark" means dark; otherwise the
      system hint decides. */
  function ShouldBeDark(saved: Option<string>, prefersDark: bool): (r: bool)
    // a stored choice wins, whatever the hint says
    ensures IsTruthy(saved) ==> (r <==> saved == Some(Dark))
    // no stored choice (null or the empty string): follow the hint
    ensures saved == None || saved == Some("") ==> r == prefersDark
    // every stored value other than "dark", even one never written by the
    // toggle, resolves to light
    ensures saved.Some? && saved.value != "" && saved.value != Dark ==> !r
  {
    if IsTruthy(saved) then saved.value == Dark else prefersDark
  }

  /** The mount effect: resolve the flag from storage and the system hint,
      add the `dark` class when resolving to dark.  It never writes the
      stored key and never removes the class. */
  function Init(s: ThemeState, prefersDark: bool): (r: ThemeState)
    ensures r.stored == s.stored
    ensures r.isDark == ShouldBeDark(s.stored, prefersDark)
    ensures s.darkClass ==> r.darkClass
    ensures r.darkClass ==> s.darkClass || r.isDark
    ensures r.isDark ==> r.darkClass
  {
    var shouldBeDark := ShouldBeDark(s.stored, prefersDark);
    ThemeState(shouldBeDark, s.darkClass || shouldBeDark, s.stored)
  }

  /** The body of the click handler once the new flag is known: set the
      flag, add or remove the class, and overwrite the stored key. */
  function Apply(s: ThemeState, newTheme: bool): (r: ThemeState)
    ensures r.isDark == newTheme
    ensures Synced(r)
    ensures r.stored == Some(Dark) || r.stored == Some(Light)
  {
    if newTheme then ThemeState(true, true, Some(Dark))
    else ThemeState(false, false, Some(Light))
  }

  /** The click handler: flip the flag and persist the new theme. */
  function Toggle(s: ThemeState): (r: ThemeState)
    ensures r.isDark == !s.isDark
    ensures r.darkClass == r.isDark
    ensures r.stored == Some(if r.isDark then Dark else Light)
  {
    Apply(s, !s.isDark)
  }

  /** The state after `n` clicks on the toggle. */
  function ToggleTimes(s: ThemeState, n: nat): (r: ThemeState)
    // the flag flips once per click
    ensures r.isDark == (s.isDark != (n % 2 == 1))
    // after at least one click, class and storage agree with the flag
    ensures n > 0 ==> Synced(r)
    ensures n == 0 ==> r == s
  {
    if n == 0 then s else Toggle(ToggleTimes(s, n - 1))
  }

  /** A whole page session: load with the given storage, run the mount
      effect under the given system hint, then click `clicks` times. */
  function Session(stored: Option<string>, prefersDark: bool, clicks: nat): (r: ThemeState)
    ensures r.isDark == (ShouldBeDark(stored, prefersDark) != (clicks % 2 == 1))
    ensures clicks == 0 ==> r.stored == stored
    ensures clicks > 0 ==> Synced(r)
    // the class shows the flag from the mount effect through every click
    ensures r.darkClass == r.isDark
  {
    ToggleTimes(Init(Load(stored), prefersDark), clicks)
  }

  /** Toggling twice restores the flag and the class of a synced state. */
  lemma ToggleTwiceRestores(s: ThemeState)
    ensures Toggle(Toggle(s)).isDark == s.isDark
    ensures Synced(s) ==> Toggle(Toggle(s)) == s
  {
  }

  /** Writing the same theme twice gives the same state as writing it once. */
  lemma ApplyIdempotent(s: ThemeState, dark: bool)
    ensures Apply(Apply(s, dark), dark) == Apply(s, dark)
  {
  }

  /** Persistence round trip: once the toggle has written the key, the
      mount effect of a later page load resolves the same flag, whatever
      the system hint is then. */
  lemma ToggleRoundTrip(s: ThemeState, prefersDark: bool)
    ensures ShouldBeDark(Toggle(s).stored, prefersDark) == Toggle(s).isDark
  {
  }

  /** Every synced state survives a reload: the next page load ends up in
      exactly the same state, for either system hint. */
  lemma ReloadReproducesSynced(s: ThemeState, prefersDark: bool)
    requires Synced(s)
    ensures Init(Load(s.stored), prefersDark) == s
  {
  }

  /** A session in which the user clicked at least once is reproduced by
      the next page load, whatever the system hint is then. */
  lemma SessionSurvivesReload(stored: Option<string>, prefersDark: bool,
                                                 clicks: nat, laterHint: bool)
    requires clicks > 0
    ensures var r := Session(stored, prefersDark, clicks);
            Init(Load(r.stored), laterHint) == r
  {
    ReloadReproducesSynced(Session(stored, prefersDark, clicks), laterHint);
  }

  /** Without a stored choice a session that never clicks leaves storage
      untouched and shows the system hint. */
  lemma UntouchedSessionFollowsHint(prefersDark: bool)
    ensures Session(None, prefersDark, 0) == ThemeState(prefersDark, prefersDark, None)
  {
  }

  /** Scenario: empty storage, system prefers dark; the page starts dark,
      and one click switches to light and stores "light". */
  lemma DarkHintThenToggle()
    ensures Session(None, true, 0).isDark
    ensures Session(None, true, 1) == ThemeState(false, false, Some("light"))
  {
  }
}
