/**
  The language context: a translation function that falls back to the key
  itself, and a right-to-left flag that starts on (Arabic) and can be
  toggled. The Arabic table is a parameter; setting the document's
  direction is outside the model.
 */
module Lang {

  type Table = map<string, string>

  datatype LangState = LangState(isRtl: bool)

  /** `t`: the table's text for the key, or the key when the table has no entry or an
      empty one (an empty string is falsy). */
  function Translate(table: Table, key: string): (r: string)
    ensures key in table && table[key] != "" ==> r == table[key]
    ensures key !in table || table[key] == "" ==> r == key
  {
    if key in table && table[key] != "" then table[key] else key
  }

  /** A non-empty key never translates to the empty string, and the result is either the
      key or a text the table holds for it. */
  lemma TranslateNeverBlank(table: Table, key: string)
    requires key != ""
    ensures Translate(table, key) != ""
    ensures Translate(table, key) == key || (key in table && Translate(table, key) == table[key])
  {
  }

  /** Translation only ever reads the key's own entry: other entries do not matter. */
  lemma TranslateLocal(a: Table, b: Table, key: string)
    requires (key in a <==> key in b) && (key in a ==> a[key] == b[key])
    ensures Translate(a, key) == Translate(b, key)
  {
  }

  /** The context used outside a provider: `t` is the identity and the layout is
      right-to-left. */
  const DefaultState := LangState(true)

  /** The default context's `t` is the translation with an empty table. */
  lemma DefaultIsIdentity(key: string)
    ensures Translate(map[], key) == key
  {
  }

  /** The default context's `toggleDirection` does nothing. */
  function DefaultToggleDirection(s: LangState): (r: LangState)
    ensures r.isRtl == s.isRtl
  {
    s
  }

  /** Outside a provider toggling never changes the direction, where inside one it always
      does. */
  lemma DefaultToggleIsInert(s: LangState)
    ensures DefaultToggleDirection(DefaultToggleDirection(s)) == s
    ensures DefaultToggleDirection(s) != ToggleDirection(s)
  {
  }

  /** The provider starts right-to-left. */
  function Initial(): (s: LangState)
    ensures s.isRtl
  {
    LangState(true)
  }

  /** `toggleDirection` */
  function ToggleDirection(s: LangState): (r: LangState)
    ensures r.isRtl != s.isRtl
  {
    LangState(!s.isRtl)
  }

  /** Toggling twice restores the direction. */
  lemma ToggleTwice(s: LangState)
    ensures ToggleDirection(ToggleDirection(s)) == s
  {
  }
}
