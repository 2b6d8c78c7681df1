/**
 * Colour resolution. A theme is a JSON object from keys to colour strings;
 * the bindings map a highlighter's class name to a theme key. Both are
 * injected: their contents are data, not part of this model.
 */
module Theme {
  import opened Wrappers
  import opened Content

  type Theme = map<string, string>

  type Bindings = map<string, string>

  /** `theme[key]`: absent keys read as `undefined`. */
  function Lookup(theme: Theme, key: string): Option<string> {
    if key in theme then Some(theme[key]) else None
  }

  /** JavaScript truthiness of a value that is a string or `undefined`. */
  predicate Truthy(c: Option<string>) {
    c.Some? && c.value != ""
  }

  /**
   * `bindings[className]` used as a property key: a class name with no
   * binding yields `undefined`, which JavaScript turns into the key "undefined".
   */
  function BindingKey(bindings: Bindings, className: string): string {
    if className in bindings then bindings[className] else "undefined"
  }

  /**
   * `getElementThemeColor`: a SPAN whose class is bound to a key with a
   * truthy colour in the theme gets that colour; every other child gets
   * `theme.text`.
   */
  function ElementThemeColor(run: Run, bindings: Bindings, theme: Theme): (c: Option<string>)
    ensures var bound := Lookup(theme, BindingKey(bindings, run.className));
      if run.isSpan && Truthy(bound) then c == bound else c == Lookup(theme, "text")
  {
    if run.isSpan then
      var key := BindingKey(bindings, run.className);
      if Truthy(Lookup(theme, key)) then Some(theme[key]) else
      // the source logs the unresolved class in development builds here
      Lookup(theme, "text")
    else
      Lookup(theme, "text")
  }

  /**
   * The resolver never fails: with a truthy `text` colour in the theme,
   * every child gets a truthy colour, so every stroke it draws carries one.
   */
  lemma ThemeColorTotal(run: Run, bindings: Bindings, theme: Theme)
    requires Truthy(Lookup(theme, "text"))
    ensures Truthy(ElementThemeColor(run, bindings, theme))
    ensures ElementThemeColor(run, bindings, theme) in {Lookup(theme, "text"), Lookup(theme, BindingKey(bindings, run.className))}
  {
  }
}
