/**
 * The keyboard layout the compose index is built from, as a plain value: the
 * part of an XKB keymap that the builder consults (key names, the number of
 * shift levels of a key and the keysyms at each level, in layout 0).
 */
module Layout {
  import opened Wrappers

  /** A keysym, seen through `keysym_to_utf32` + `char::from_u32` and `keysym_get_name`. */
  datatype Symbol = Symbol(codepoint: Option<char>, name: string)

  /**
   * One physical key: its XKB name ("AD01", ...), if any, and the keysyms at
   * each shift level. The number of levels is `|levels|`; asking for a level
   * past it yields no keysyms, as `key_get_syms_by_level` does.
   */
  datatype Key = Key(name: Option<string>, levels: seq<seq<Symbol>>) {

    function NumLevels(): nat { |levels| }

    function SymsAt(level: nat): seq<Symbol> {
      if level < |levels| then levels[level] else []
    }
  }

  /** Keys by keycode; a keycode that is absent has no name. */
  datatype Keymap = Keymap(keys: map<nat, Key>) {

    function KeyAt(keycode: nat): Key {
      if keycode in keys then keys[keycode] else Key(None, [])
    }
  }

  /** The builder scans keycodes MIN_KEYCODE .. KEYCODE_END - 1 (8..255). */
  const MIN_KEYCODE: nat := 8
  const KEYCODE_END: nat := 256
}
