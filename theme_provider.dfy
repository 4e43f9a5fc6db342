/** The light/dark theme: the initial choice from the saved value and the system
    preference, the toggle, the effect that writes the document class and the saved
    value, and the hook that requires a provider. */
module ThemeProvider {
  import opened Wrappers
  import opened Strings

  /** The value the effect saves under the "theme" key. */
  function Persisted(isDark: bool): (v: string)
    ensures v == "dark" <==> isDark
  {
    if isDark then "dark" else "light"
  }

  /** The `useState` initialiser: a truthy saved value decides (dark only for "dark");
      otherwise the system preference does. */
  function InitialIsDark(saved: Option<string>, systemDark: bool): (isDark: bool)
    ensures Present(saved) ==> (isDark <==> saved.value == "dark")
    ensures !Present(saved) ==> isDark == systemDark
  {
    if Present(saved) then saved.value == "dark" else systemDark
  }

  /** Saving the theme and reading it back on the next load gives the same theme,
      whatever the system preference then is. */
  lemma PersistRoundTrip(isDark: bool, systemDark: bool)
    ensures InitialIsDark(Some(Persisted(isDark)), systemDark) == isDark
  {
  }

  /** The provider's state, the saved "theme" entry and whether the document element
      carries the "dark" class. */
  class ThemeProvider {
    var isDark: bool
    var saved: Option<string>
    var darkClass: bool

    /** The effect has run for the current theme. */
    predicate Synced()
      reads this
    {
      saved == Some(Persisted(isDark)) && darkClass == isDark
    }

    /** Mounting: the state comes from the initialiser, storage and the class list are
        as found, and the effect then runs. */
    constructor(storedTheme: Option<string>, systemDark: bool, hadDarkClass: bool)
      ensures isDark == InitialIsDark(storedTheme, systemDark)
      ensures Synced()
    {
      isDark := InitialIsDark(storedTheme, systemDark);
      saved := storedTheme;
      darkClass := hadDarkClass;
      new;
      ApplyTheme();
    }

    /** The effect on `[isDark]`: add or remove the "dark" class and save the theme. */
    method ApplyTheme()
      modifies this
      ensures isDark == old(isDark)
      ensures darkClass == isDark && saved == Some(Persisted(isDark))
      ensures Synced()
    {
      if isDark {
        darkClass := true;
      } else {
        darkClass := false;
      }
      saved := Some(if isDark then "dark" else "light");
    }

    /** `toggleTheme`, followed by the effect the change triggers. */
    method ToggleTheme()
      modifies this
      ensures isDark == !old(isDark)
      ensures Synced()
    {
      isDark := !isDark;
      ApplyTheme();
    }

    /** What a reload would start with: once synced, the saved value reproduces the
        current theme. */
    function Reloaded(systemDark: bool): (isDarkAfterReload: bool)
      reads this
      requires Synced()
      ensures isDarkAfterReload == isDark
    {
      PersistRoundTrip(isDark, systemDark);
      InitialIsDark(saved, systemDark)
    }
  }

  /** The context value a provider hands down. */
  datatype ThemeContext = ThemeContext(isDark: bool)

  const OutsideProviderMessage := "useTheme must be used within a ThemeProvider"

  /** `useTheme`: the context, or the error it throws outside a provider. */
  function UseTheme(context: Option<ThemeContext>): (r: Result<ThemeContext, string>)
    ensures r.Failure? <==> context.None?
    ensures r.Failure? ==> r.error == OutsideProviderMessage
    ensures r.Success? ==> r.value == context.value
  {
    match context
    case None => Failure(OutsideProviderMessage)
    case Some(c) => Success(c)
  }
}
