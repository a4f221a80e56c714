/** The small decision rules of the settings (assets/js/app.js): which
    theme the toggle switches to, which theme is actually shown, and the
    shape an API key must have. The browser's dark-mode preference
    (`window.matchMedia('(prefers-color-scheme: dark)').matches`) is a
    parameter. Themes are the strings the code stores: 'light', 'dark',
    'system', or whatever else storage or a theme button handed it. */
module Settings {

  /** The themes the settings offer. */
  predicate IsKnownTheme(theme: string)
  {
    theme == "light" || theme == "dark" || theme == "system"
  }

  /** The decision in `toggleTheme`: 'system' goes to the opposite of what
      the browser prefers; otherwise 'light' goes to 'dark' and anything
      else to 'light'. */
  function ToggledTheme(current: string, systemPrefersDark: bool): (next: string)
    ensures next == "light" || next == "dark"
    ensures current == "light" ==> next == "dark"
    ensures current == "dark" ==> next == "light"
    ensures EffectiveTheme(next, systemPrefersDark) != EffectiveTheme(current, systemPrefersDark)
  {
    if current == "system" then (if systemPrefersDark then "light" else "dark")
    else if current == "light" then "dark"
    else "light"
  }

  /** The decision in `applyTheme`: 'system' follows the browser's
      preference, any other theme is applied as it is. */
  function EffectiveTheme(theme: string, systemPrefersDark: bool): (shown: string)
    ensures shown != "system"
    ensures IsKnownTheme(theme) ==> shown == "light" || shown == "dark"
    ensures theme != "system" ==> shown == theme
  {
    if theme == "system" then (if systemPrefersDark then "dark" else "light") else theme
  }

  // ------------------------------------------------------------ properties

  /** From 'system' the toggle picks the opposite of the theme that was
      shown, so the shown theme flips even though 'system' itself is left. */
  lemma ToggleFromSystem(systemPrefersDark: bool)
    ensures ToggledTheme("system", systemPrefersDark)
      == (if EffectiveTheme("system", systemPrefersDark) == "dark" then "light" else "dark")
  {
  }

  /** Toggling twice returns to the theme that was shown at the start; for
      'light' and 'dark' that is the theme itself. */
  lemma ToggleTwice(current: string, systemPrefersDark: bool)
    requires IsKnownTheme(current)
    ensures ToggledTheme(ToggledTheme(current, systemPrefersDark), systemPrefersDark)
      == EffectiveTheme(current, systemPrefersDark)
    ensures current != "system" ==> ToggledTheme(ToggledTheme(current, systemPrefersDark), systemPrefersDark) == current
  {
  }

  // -------------------------------------------------------------- API key

  /** The character class `[A-Za-z0-9-_]`: the `-` between `9` and `_` is
      not a range, so the class is letters, digits, `-` and `_`. */
  predicate InKeyAlphabet(c: char)
  {
    ('A' <= c <= 'Z') || ('a' <= c <= 'z') || ('0' <= c <= '9') || c == '-' || c == '_'
  }

  /** Anchored repetition `^[A-Za-z0-9-_]{n}$`: exactly `n` characters of
      the class, then the end of the input. */
  predicate MatchesKeyClass(s: string, n: nat)
  {
    if n == 0 then s == []
    else s != [] && InKeyAlphabet(s[0]) && MatchesKeyClass(s[1..], n - 1)
  }

  /** Length of a Gemini API key the format check accepts. */
  const ApiKeyLength: nat := 39

  /** The format check in `checkApiStatus`: a key passes when it is not
      empty and `/^[A-Za-z0-9-_]{39}$/` matches it. */
  predicate HasValidKeyFormat(apiKey: string)
    ensures HasValidKeyFormat(apiKey) ==> |apiKey| == ApiKeyLength
  {
    MatchesKeyClassIff(apiKey, ApiKeyLength);
    apiKey != "" && MatchesKeyClass(apiKey, ApiKeyLength)
  }

  lemma {:induction false} MatchesKeyClassIff(s: string, n: nat)
    ensures MatchesKeyClass(s, n) <==> |s| == n && forall i :: 0 <= i < |s| ==> InKeyAlphabet(s[i])
    decreases n
  {
    if n > 0 && s != [] {
      MatchesKeyClassIff(s[1..], n - 1);
      if forall i :: 0 <= i < |s| ==> InKeyAlphabet(s[i]) {
        assert forall i :: 0 <= i < |s| - 1 ==> s[1..][i] == s[i + 1];
      }
      if InKeyAlphabet(s[0]) && forall i :: 0 <= i < |s| - 1 ==> InKeyAlphabet(s[1..][i]) {
        forall i | 0 <= i < |s| ensures InKeyAlphabet(s[i]) {
          if i > 0 {
            assert s[i] == s[1..][i - 1];
          }
        }
      }
    }
  }

  /** A key has a valid format exactly when it is 39 characters long and
      every character is a letter, a digit, `-` or `_`. */
  lemma KeyFormatIff(apiKey: string)
    ensures HasValidKeyFormat(apiKey)
      <==> |apiKey| == 39 && forall i :: 0 <= i < |apiKey| ==> InKeyAlphabet(apiKey[i])
  {
    MatchesKeyClassIff(apiKey, ApiKeyLength);
  }
}
