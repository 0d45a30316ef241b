/**
 * The character predicates and mappings of Rust's `char` and of the
 * `unicode-normalization` crate that the compose index relies on.
 *
 * The ASCII predicates, `is_control` (general category Cc) and
 * `is_whitespace` (the White_Space property) are small and defined exactly.
 * Canonical decomposition, case mapping and `is_alphabetic` need the full
 * Unicode tables; they are a parameter of the model (`Tables`), and
 * `AsciiConsistent` records what those tables say about ASCII letters.
 */
module Unicode {

  /** The Unicode tables, each as the function the Rust code calls. */
  datatype Tables = Tables(
    nfdFirst: char -> char,     // first code point of `ch.nfd()`; NFD is never empty
    upperFirst: char -> char,   // `ch.to_uppercase().next()`; never empty
    lowerFirst: char -> char,   // `ch.to_lowercase().next()`; never empty
    isUppercase: char -> bool,  // `char::is_uppercase`
    isAlphabetic: char -> bool) // `char::is_alphabetic`

  predicate IsAsciiLower(c: char) { 'a' <= c <= 'z' }

  predicate IsAsciiUpper(c: char) { 'A' <= c <= 'Z' }

  /** For an ASCII character, `is_alphabetic` holds exactly of these. */
  predicate IsAsciiLetter(c: char) { IsAsciiLower(c) || IsAsciiUpper(c) }

  /** `char::is_ascii_graphic`: U+0021 '!' through U+007E '~'. */
  predicate IsAsciiGraphic(c: char) { '!' <= c <= '~' }

  /** `char::to_ascii_lowercase` */
  function ToAsciiLower(c: char): (r: char)
    ensures IsAsciiUpper(c) ==> IsAsciiLower(r) && r as int == c as int + 32
    ensures !IsAsciiUpper(c) ==> r == c
  {
    if IsAsciiUpper(c) then (c as int + 32) as char else c
  }

  /** `char::to_ascii_uppercase` */
  function ToAsciiUpper(c: char): (r: char)
    ensures IsAsciiLower(c) ==> IsAsciiUpper(r) && r as int + 32 == c as int
    ensures !IsAsciiLower(c) ==> r == c
  {
    if IsAsciiLower(c) then (c as int - 32) as char else c
  }

  /** `char::is_control`: general category Cc, U+0000..U+001F and U+007F..U+009F. */
  predicate IsControl(c: char) {
    c as int <= 0x1F || 0x7F <= c as int <= 0x9F
  }

  /** `char::is_whitespace`: the code points with the White_Space property. */
  predicate IsWhitespace(c: char) {
    var n := c as int;
    (0x09 <= n <= 0x0D) || n == 0x20 || n == 0x85 || n == 0xA0 || n == 0x1680
    || (0x2000 <= n <= 0x200A) || n == 0x2028 || n == 0x2029 || n == 0x202F
    || n == 0x205F || n == 0x3000
  }

  /**
   * What the Unicode tables say about ASCII letters: they are their own
   * canonical decomposition, they are alphabetic, their case mappings are the
   * ASCII ones, and only 'A'..'Z' among them are uppercase; U+0000, which
   * a keysym without a character becomes, uppercases to itself.
   */
  ghost predicate AsciiConsistent(t: Tables) {
    && (forall c: char {:trigger t.nfdFirst(c)} :: IsAsciiLetter(c) ==> t.nfdFirst(c) == c)
    && (forall c: char {:trigger t.lowerFirst(c)} :: IsAsciiLetter(c) ==> t.lowerFirst(c) == ToAsciiLower(c))
    && (forall c: char {:trigger t.upperFirst(c)} :: IsAsciiLetter(c) ==> t.upperFirst(c) == ToAsciiUpper(c))
    && (forall c: char {:trigger t.isUppercase(c)} :: IsAsciiLetter(c) ==> (t.isUppercase(c) <==> IsAsciiUpper(c)))
    && (forall c: char {:trigger t.isAlphabetic(c)} :: IsAsciiLetter(c) ==> t.isAlphabetic(c))
    && t.upperFirst('\0') == '\0'
  }
}
