/** src/context/ThemeContext.jsx: the light/dark theme. The provider starts
    from the stored theme (or "light"), keeps the `dark` class of the root
    element and the stored value in step with the theme, and toggles between
    "light" and "dark"; `useTheme` refuses to run outside a provider. */
module ThemeContext {
  import opened Wrappers
  import opened Text
  import opened Records

  const ThemeKey := "theme"
  const OutsideProviderMessage := "useTheme must be used within a ThemeProvider"

  /** The initial state: `localStorage.getItem("theme") || "light"`. */
  function InitialTheme(stored: Option<string>): (t: string)
    ensures t != ""
    ensures Truthy(stored) ==> t == stored.value
    ensures !Truthy(stored) ==> t == "light"
  {
    OrElse(stored, "light")
  }

  /** The update of `toggleTheme`: "light" becomes "dark", anything else
      (including an unexpected stored value) becomes "light". */
  function NextTheme(t: string): (r: string)
    ensures r == "light" || r == "dark"
    ensures r == "dark" <==> t == "light"
  {
    if t == "light" then "dark" else "light"
  }

  /** Toggling twice from either theme returns to it. */
  lemma ToggleTwice(t: string)
    requires t == "light" || t == "dark"
    ensures NextTheme(NextTheme(t)) == t
  {
  }

  /** The theme after `n` toggles. */
  function ToggleTimes(t: string, n: nat): string
  {
    if n == 0 then t else NextTheme(ToggleTimes(t, n - 1))
  }

  /** After one or more toggles the theme alternates: starting from "light",
      an odd number of toggles gives "dark"; starting from "dark" or from any
      other stored value, an odd number gives "light". */
  lemma {:induction false} ToggleTimesAlternates(t: string, n: nat)
    requires n >= 1
    ensures ToggleTimes(t, n) == (if (n % 2 == 1) == (t == "light") then "dark" else "light")
  {
    if n > 1 {
      ToggleTimesAlternates(t, n - 1);
    }
  }

  /** The context value `{ theme, toggleTheme }`; the function is left out. */
  datatype ThemeValue = ThemeValue(theme: string)

  class ThemeProvider {
    var theme: string
    /** Whether the root element has the `dark` class. */
    var darkClass: bool
    /** The browser's local storage. */
    var storage: map<string, string>

    /** What the effect keeps true after every change of theme. */
    ghost predicate Synced()
      reads this
    {
      darkClass == (theme == "dark") && Lookup(storage, ThemeKey) == Some(theme)
    }

    /** The first render and its effect. */
    constructor (storage: map<string, string>)
      ensures theme == InitialTheme(Lookup(storage, ThemeKey))
      ensures this.storage == storage[ThemeKey := theme]
      ensures Synced()
    {
      theme := InitialTheme(Lookup(storage, ThemeKey));
      this.storage := storage;
      darkClass := false;
      new;
      ApplyTheme();
    }

    /** The effect: the `dark` class exactly for "dark", then the theme is
        saved; nothing else in storage changes. */
    method ApplyTheme()
      modifies this`darkClass, this`storage
      ensures darkClass == (theme == "dark")
      ensures storage == old(storage)[ThemeKey := theme]
      ensures Synced()
    {
      if theme == "dark" {
        darkClass := true;
      } else {
        darkClass := false;
      }
      storage := storage[ThemeKey := theme];
    }

    /** `toggleTheme` followed by the effect it triggers. */
    method ToggleTheme()
      modifies this
      ensures theme == NextTheme(old(theme))
      ensures storage == old(storage)[ThemeKey := theme]
      ensures Synced()
    {
      theme := NextTheme(theme);
      ApplyTheme();
    }

    function Value(): ThemeValue
      reads this
    {
      ThemeValue(theme)
    }
  }

  /** `useTheme`: the context value inside a provider; outside one, the
      error it throws. */
  function UseTheme(context: Option<ThemeValue>): (r: Result<ThemeValue, string>)
    ensures r.Err? <==> context.None?
    ensures r.Err? ==> r.error == OutsideProviderMessage
    ensures r.Ok? ==> r.value == context.value
  {
    if context.None? then Err(OutsideProviderMessage) else Ok(context.value)
  }
}
