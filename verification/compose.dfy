/**
 * The compose-sequence index: for every base letter, the characters a
 * keyboard layout can produce that decompose to it, each with the key
 * sequence that produces it.
 *
 * `Build` walks the layout the way the builder does (a level scan over
 * keycodes 8..255, then a dead-key scan, then the dead-key expansions) and is
 * proved to produce `BuildIndex`, the index obtained by filing `AllFilings`
 * in order. The specification functions below (`LevelScan`, `DeadKeyScan`,
 * `DeadFilings`) describe those passes as values; every filing they produce
 * is tagged with its `Origin` so that the order of the index can be stated.
 */
module Compose {
  import opened Wrappers
  import opened Unicode
  import opened Layout
  import opened Scans

  /** One reachable character and the keys that produce it. */
  datatype ComposeEntry = ComposeEntry(character: string, keySequence: string)

  /** Base letter to the entries filed under it, in discovery order. */
  type Index = map<char, seq<ComposeEntry>>

  /** The list filed under `base`, empty when there is none (`HashMap::get`). */
  function Bucket(index: Index, base: char): seq<ComposeEntry> {
    if base in index then index[base] else []
  }

  /** Where an entry was found: a shift level of a key, or the `combo`-th expansion of a dead key. */
  datatype Origin =
    | Direct(keycode: nat, level: nat)
    | ViaDeadKey(keycode: nat, level: nat, combo: nat)

  /** The parts a key sequence is spelled from. */
  datatype KeySequence =
    | Chord(level: nat, keyLabel: string)         // the level's modifier prefix, then the key label
    | DeadKeyThen(chord: string, letter: char)  // the dead key's chord, two spaces, the base letter
  {
    /** The key sequence as the index stores it. */
    function Spelled(): string {
      match this
      case Chord(level, keyLabel) => ChordPrefix(level) + keyLabel
      case DeadKeyThen(chord, letter) => chord + "  " + [letter]
    }
  }

  /** A character found on the layout, the base letter it is filed under and how it is typed. */
  datatype Filing = Filing(base: char, character: char, keys: KeySequence, origin: Origin) {
    /** The entry stored for this filing. */
    function Entry(): ComposeEntry {
      ComposeEntry([character], keys.Spelled())
    }
  }

  /** A filing whose base letter is the one `find_base_char` gives its character. */
  predicate WellFiled(t: Tables, f: Filing) {
    FindBaseChar(t, f.character) == Some(f.base)
  }

  // ---------------------------------------------------------------------------
  // Storage

  /** `add_entry`: append `entry` to the end of `base`'s list, creating the list if needed. */
  function AddEntry(index: Index, base: char, entry: ComposeEntry): (r: Index)
    ensures r.Keys == index.Keys + {base}
    ensures r[base] == Bucket(index, base) + [entry]
    ensures forall b :: b in index && b != base ==> r[b] == index[b]
  {
    index[base := Bucket(index, base) + [entry]]
  }

  /** The index after filing each of `fs`, first to last, into `index`. */
  function FileAll(index: Index, fs: seq<Filing>): Index {
    if fs == [] then index
    else
      var f := fs[|fs| - 1];
      AddEntry(FileAll(index, fs[..|fs| - 1]), f.base, f.Entry())
  }

  lemma FileAllSnoc(index: Index, fs: seq<Filing>, f: Filing)
    ensures FileAll(index, fs + [f]) == AddEntry(FileAll(index, fs), f.base, f.Entry())
  {
    assert (fs + [f])[..|fs|] == fs;
  }

  /** One step of a loop that files `f` after `scanned + done`. */
  lemma FileStep(index: Index, scanned: seq<Filing>, done: seq<Filing>, f: Filing)
    requires index == FileAll(map[], scanned + done)
    ensures AddEntry(index, f.base, f.Entry()) == FileAll(map[], scanned + (done + [f]))
  {
    assert scanned + (done + [f]) == (scanned + done) + [f];
    FileAllSnoc(map[], scanned + done, f);
  }

  /** Filing a well-filed entry keeps every list non-empty and correctly based. */
  lemma AddEntryValid(t: Tables, index: Index, f: Filing)
    requires ComposeIndex(index).Valid(t)
    requires WellFiled(t, f)
    ensures ComposeIndex(AddEntry(index, f.base, f.Entry())).Valid(t)
  {
    var r := AddEntry(index, f.base, f.Entry());
    forall b | b in r
      ensures r[b] != []
      ensures forall e: ComposeEntry :: e in r[b] ==> |e.character| == 1 && FindBaseChar(t, e.character[0]) == Some(b)
    {
      if b != f.base {
        assert r[b] == index[b];
      }
    }
  }

  // ---------------------------------------------------------------------------
  // Base-character resolver

  /**
   * `find_base_char`: the first code point of the canonical decomposition,
   * lowercased, when it is an ASCII letter; otherwise the override table.
   */
  function FindBaseChar(t: Tables, ch: char): (r: Option<char>)
    ensures r.Some? ==> IsAsciiLower(r.value)
  {
    var base := t.nfdFirst(ch);
    if IsAsciiLetter(base) then Some(ToAsciiLower(base)) else BaseOverride(ch)
  }

  /** Currency signs and letters with no canonical decomposition that still have a base letter. */
  function BaseOverride(ch: char): (r: Option<char>)
    ensures r.Some? ==> IsAsciiLower(r.value)
  {
    match ch
    case '€' => Some('e')
    case '£' => Some('l')
    case '¥' => Some('y')
    case '¢' => Some('c')
    case 'æ' => Some('a')
    case 'œ' => Some('o')
    case 'ß' => Some('s')
    case 'ð' => Some('d')
    case 'þ' => Some('t')
    case _ => None
  }

  // ---------------------------------------------------------------------------
  // Level classifier

  /**
   * The level classifier: whether the level loop skips character `ch` at
   * shift level `level`. Plain lowercase ASCII at level 0 and Shift-capitals
   * at level 1 are the obvious letters; at level 3 the capital of the level-2
   * character is the obvious AltGr+Shift form; levels from 4 on are never
   * listed.
   */
  predicate SkipsLevel(t: Tables, level: nat, ch: char, level2Char: Option<char>)
    ensures 4 <= level ==> SkipsLevel(t, level, ch, level2Char)
    ensures level == 2 ==> !SkipsLevel(t, level, ch, level2Char)
    ensures level < 3 && !IsAsciiLower(ch) && !IsAsciiUpper(ch) ==> !SkipsLevel(t, level, ch, level2Char)
    ensures level == 3 && (level2Char.None? || t.upperFirst(level2Char.value) == level2Char.value) ==>
      !SkipsLevel(t, level, ch, level2Char)
  {
    || 4 <= level
    || (level == 0 && IsAsciiLower(ch))
    || (level == 1 && IsAsciiUpper(ch))
    || (level == 3 && level2Char.Some? && ch == t.upperFirst(level2Char.value) && ch != level2Char.value)
  }

  /** The modifier prefix of a key sequence for levels 0..3. */
  function ChordPrefix(level: nat): (r: string) {
    if level == 0 then ""
    else if level == 1 then "Shift-"
    else if level == 2 then "AltGr-"
    else "AltGr-Shift-"
  }

  /** The modifier prefix as the level loop spells it before `+` becomes `-`, or None where it skips. */
  function ModifierPrefix(t: Tables, level: nat, ch: char, level2Char: Option<char>): (r: Option<string>)
    ensures r.None? <==> SkipsLevel(t, level, ch, level2Char)
    ensures r.Some? ==> level < 4 && |r.value| == |ChordPrefix(level)| && '-' !in r.value
  {
    match level
    case 0 => if IsAsciiLower(ch) then None else Some("")
    case 1 => if IsAsciiUpper(ch) then None else Some("Shift+")
    case 2 => Some("AltGr+")
    case 3 =>
      if level2Char.Some? && ch == t.upperFirst(level2Char.value) && ch != level2Char.value then None
      else Some("AltGr+Shift+")
    case _ => None
  }

  /** `s.replace('+', "-")` */
  function ReplacePlus(s: string): (r: string)
    ensures |r| == |s|
    ensures forall i :: 0 <= i < |s| ==> r[i] == if s[i] == '+' then '-' else s[i]
  {
    if s == [] then []
    else [if s[0] == '+' then '-' else s[0]] + ReplacePlus(s[1..])
  }

  /**
   * The level loop's match agrees with the classifier, and replacing `+` by
   * `-` in its prefix gives the chord prefix of the level.
   */
  lemma ModifierPrefixClassifies(t: Tables, level: nat, ch: char, level2Char: Option<char>)
    ensures ModifierPrefix(t, level, ch, level2Char).None? <==> SkipsLevel(t, level, ch, level2Char)
    ensures ModifierPrefix(t, level, ch, level2Char).Some? ==>
      level < 4 && ReplacePlus(ModifierPrefix(t, level, ch, level2Char).value) == ChordPrefix(level)
  {
    match level
    case 0 => assert ReplacePlus("") == "";
    case 1 => ReplacePlusLiteral("Shift+", "Shift-");
    case 2 => ReplacePlusLiteral("AltGr+", "AltGr-");
    case 3 => ReplacePlusLiteral("AltGr+Shift+", "AltGr-Shift-");
    case _ =>
  }

  lemma ReplacePlusLiteral(s: string, expected: string)
    requires |s| == |expected|
    requires forall i :: 0 <= i < |s| ==> expected[i] == if s[i] == '+' then '-' else s[i]
    ensures ReplacePlus(s) == expected
  {
  }

  /** The level-0 character of a key, when it is an ASCII graphic character. */
  function GraphicBase(key: Key): (r: Option<char>)
    ensures r.Some? ==> IsAsciiGraphic(r.value)
  {
    var base := key.SymsAt(0);
    if base != [] && base[0].codepoint.Some? && IsAsciiGraphic(base[0].codepoint.value)
    then base[0].codepoint
    else None
  }

  /** The label of the key to press: its level-0 character if that is ASCII graphic, else its XKB name. */
  function PhysicalLabel(key: Key): (r: string)
    ensures var syms := key.SymsAt(0);
      syms != [] && syms[0].codepoint.Some? && IsAsciiGraphic(syms[0].codepoint.value) ==>
        r == [syms[0].codepoint.value]
    ensures var syms := key.SymsAt(0);
      !(syms != [] && syms[0].codepoint.Some? && IsAsciiGraphic(syms[0].codepoint.value)) ==>
        r == key.name.GetOr("?")
    ensures r == [] ==> key.name == Some([])
  {
    match GraphicBase(key)
    case Some(c) => [c]
    case None => key.name.GetOr("?")
  }

  /** The first character of level 2, computed once per key to compare level 3 against. */
  function Level2Char(key: Key): (r: Option<char>)
    ensures key.SymsAt(2) == [] ==> r.None?
    ensures key.SymsAt(2) != [] ==> r == key.SymsAt(2)[0].codepoint
  {
    if key.NumLevels() > 2 then
      var syms := key.SymsAt(2);
      if syms != [] then syms[0].codepoint else None
    else None
  }

  // ---------------------------------------------------------------------------
  // Specification of the level scan

  /** What one iteration of the level loop files for `key` at `level`, if anything. */
  function LevelFiling(t: Tables, keycode: nat, key: Key, level: nat): (r: Option<Filing>)
    ensures r.Some? ==> r.value.origin == Direct(keycode, level) && level < 4 && level < key.NumLevels()
  {
    var syms := key.SymsAt(level);
    if syms == [] || syms[0].codepoint.None? then None
    else
      var ch := syms[0].codepoint.value;
      if IsControl(ch) || IsWhitespace(ch) then None
      else
      if SkipsLevel(t, level, ch, Level2Char(key)) then None
      else
        match FindBaseChar(t, ch)
        case None => None
        case Some(base) =>
          Some(Filing(base, ch, Chord(level, PhysicalLabel(key)), Direct(keycode, level)))
  }

  /** The filings of levels 0..n-1 of one key, in ascending level. */
  function KeyLevelFilings(t: Tables, keycode: nat, key: Key, n: nat): (r: seq<Filing>)
  {
    if n == 0 then []
    else KeyLevelFilings(t, keycode, key, n - 1) + LevelFiling(t, keycode, key, n - 1).ToSeq()
  }

  /** The filings of one keycode's levels; a key without a name contributes none. */
  function KeyFilings(t: Tables, keymap: Keymap, keycode: nat): seq<Filing> {
    var key := keymap.KeyAt(keycode);
    if key.name.None? then [] else KeyLevelFilings(t, keycode, key, key.NumLevels())
  }

  /** The level scan over keycodes MIN_KEYCODE..end-1, in ascending keycode. */
  function LevelScan(t: Tables, keymap: Keymap, end: nat): (r: seq<Filing>)
  {
    if end <= MIN_KEYCODE then []
    else LevelScan(t, keymap, end - 1) + KeyFilings(t, keymap, end - 1)
  }

  /** The level scan up to `keycode + 1` is the scan up to `keycode` followed by that keycode's filings. */
  lemma LevelScanNext(t: Tables, keymap: Keymap, keycode: nat)
    requires MIN_KEYCODE <= keycode
    ensures LevelScan(t, keymap, keycode + 1) == LevelScan(t, keymap, keycode) + KeyFilings(t, keymap, keycode)
  {
  }

  /** The level scan as a function of its bound, and what each keycode contributes to it. */
  ghost function LevelScans(t: Tables, keymap: Keymap): nat -> seq<Filing> {
    (e: nat) => LevelScan(t, keymap, e)
  }

  ghost function KeyFilingsOf(t: Tables, keymap: Keymap): nat -> seq<Filing> {
    (k: nat) => KeyFilings(t, keymap, k)
  }

  /** The level scan appends, keycode by keycode from MIN_KEYCODE on, each keycode's filings. */
  lemma LevelScanIsScan(t: Tables, keymap: Keymap)
    ensures IsScan(LevelScans(t, keymap), KeyFilingsOf(t, keymap), MIN_KEYCODE)
  {
  }

  // ---------------------------------------------------------------------------
  // Dead keys

  /** A dead key found on a key: the chord that presses it and its keysym name. */
  datatype DeadKey = DeadKey(chord: string, deadType: string, keycode: nat, level: nat)

  predicate StartsWith(s: string, prefix: string) { prefix <= s }

  /** The chord prefix of a dead key at level 2 or 3. */
  function DeadPrefix(level: nat): string {
    if level == 2 then "AltGr-" else "AltGr-Shift-"
  }

  /**
   * The dead key found on `key` at `level`, if its first keysym's name starts
   * with "dead_" and the key's level-0 character is ASCII graphic.
   */
  function DeadKeyAt(keycode: nat, key: Key, level: nat): (r: Option<DeadKey>)
    ensures r.Some? ==> r.value.keycode == keycode && r.value.level == level && StartsWith(r.value.deadType, "dead_")
  {
    var syms := key.SymsAt(level);
    if syms == [] || !StartsWith(syms[0].name, "dead_") then None
    else
      match GraphicBase(key)
      case None => None
      case Some(c) => Some(DeadKey(DeadPrefix(level) + [c], syms[0].name, keycode, level))
  }

  /** The dead keys of levels 2..end-1 of one key. */
  function KeyDeadLevels(keycode: nat, key: Key, end: nat): (r: seq<DeadKey>)
  {
    if end <= 2 then []
    else KeyDeadLevels(keycode, key, end - 1) + DeadKeyAt(keycode, key, end - 1).ToSeq()
  }

  lemma KeyDeadLevelsStep(keycode: nat, key: Key, level: nat)
    requires 2 <= level
    ensures KeyDeadLevels(keycode, key, level + 1) == KeyDeadLevels(keycode, key, level) + DeadKeyAt(keycode, key, level).ToSeq()
  {
  }

  /** The levels the dead-key scan looks at end before `min(num_levels, 4)`. */
  function DeadLevelEnd(key: Key): nat {
    if key.NumLevels() < 4 then key.NumLevels() else 4
  }

  function KeyDeadKeys(keymap: Keymap, keycode: nat): seq<DeadKey> {
    var key := keymap.KeyAt(keycode);
    if key.name.None? then [] else KeyDeadLevels(keycode, key, DeadLevelEnd(key))
  }

  /** The dead-key scan over keycodes MIN_KEYCODE..end-1. */
  function DeadKeyScan(keymap: Keymap, end: nat): (r: seq<DeadKey>)
  {
    if end <= MIN_KEYCODE then []
    else DeadKeyScan(keymap, end - 1) + KeyDeadKeys(keymap, end - 1)
  }

  /** The dead-key scan up to `keycode + 1` is the scan up to `keycode` followed by that keycode's dead keys. */
  lemma DeadKeyScanNext(keymap: Keymap, keycode: nat)
    requires MIN_KEYCODE <= keycode
    ensures DeadKeyScan(keymap, keycode + 1) == DeadKeyScan(keymap, keycode) + KeyDeadKeys(keymap, keycode)
  {
  }

  /** The dead-key scan as a function of its bound, and what each keycode contributes to it. */
  ghost function DeadKeyScans(keymap: Keymap): nat -> seq<DeadKey> {
    (e: nat) => DeadKeyScan(keymap, e)
  }

  ghost function KeyDeadKeysOf(keymap: Keymap): nat -> seq<DeadKey> {
    (k: nat) => KeyDeadKeys(keymap, k)
  }

  /** The dead-key scan appends, keycode by keycode from MIN_KEYCODE on, each keycode's dead keys. */
  lemma DeadKeyScanIsScan(keymap: Keymap)
    ensures IsScan(DeadKeyScans(keymap), KeyDeadKeysOf(keymap), MIN_KEYCODE)
  {
  }

  /** The dead-key names the table knows. */
  const DEAD_KEY_NAMES: set<string> := {
    "dead_acute", "dead_grave", "dead_circumflex", "dead_diaeresis", "dead_tilde",
    "dead_cedilla", "dead_ogonek", "dead_caron", "dead_breve", "dead_macron",
    "dead_abovedot", "dead_abovering", "dead_stroke"
  }

  /** `get_dead_key_combinations`: (base letter, composed character) pairs of a dead key. */
  function DeadKeyCombinations(deadType: string): (r: seq<(char, char)>)
    ensures forall i :: 0 <= i < |r| ==> IsAsciiLower(r[i].0)
  {
    match deadType
    case "dead_acute" =>
      [('a', 'á'), ('e', 'é'), ('i', 'í'), ('o', 'ó'), ('u', 'ú'),
       ('y', 'ý'), ('c', 'ć'), ('n', 'ń'), ('s', 'ś'), ('z', 'ź')]
    case "dead_grave" => [('a', 'à'), ('e', 'è'), ('i', 'ì'), ('o', 'ò'), ('u', 'ù')]
    case "dead_circumflex" => [('a', 'â'), ('e', 'ê'), ('i', 'î'), ('o', 'ô'), ('u', 'û')]
    case "dead_diaeresis" => [('a', 'ä'), ('e', 'ë'), ('i', 'ï'), ('o', 'ö'), ('u', 'ü'), ('y', 'ÿ')]
    case "dead_tilde" => [('a', 'ã'), ('n', 'ñ'), ('o', 'õ')]
    case "dead_cedilla" => [('c', 'ç'), ('s', 'ş')]
    case "dead_ogonek" => [('a', 'ą'), ('e', 'ę'), ('i', 'į'), ('u', 'ų')]
    case "dead_caron" => [('c', 'č'), ('s', 'š'), ('z', 'ž'), ('r', 'ř'), ('e', 'ě')]
    case "dead_breve" => [('a', 'ă'), ('g', 'ğ')]
    case "dead_macron" => [('a', 'ā'), ('e', 'ē'), ('i', 'ī'), ('o', 'ō'), ('u', 'ū')]
    case "dead_abovedot" => [('e', 'ė'), ('z', 'ż')]
    case "dead_abovering" => [('a', 'å'), ('u', 'ů')]
    case "dead_stroke" => [('l', 'ł'), ('o', 'ø')]
    case _ => []
  }

  /** What the expansion loop files for the `combo`-th of the combinations `combos` of a dead key, if anything. */
  function DeadKeyExpansion(t: Tables, dk: DeadKey, combos: seq<(char, char)>, combo: nat): (r: Option<Filing>)
    ensures r.Some? ==> r.value.origin == ViaDeadKey(dk.keycode, dk.level, combo)
  {
    if combo >= |combos| then None else
    var (letter, result) := combos[combo];
    match FindBaseChar(t, result)
    case None => None
    case Some(base) => Some(Filing(base, result, DeadKeyThen(dk.chord, letter), ViaDeadKey(dk.keycode, dk.level, combo)))
  }

  /** The filings of the first n of the combinations `combos` of a dead key, in table order. */
  function ExpandDeadKey(t: Tables, dk: DeadKey, combos: seq<(char, char)>, n: nat): (r: seq<Filing>)
  {
    if n == 0 then []
    else ExpandDeadKey(t, dk, combos, n - 1) + DeadKeyExpansion(t, dk, combos, n - 1).ToSeq()
  }

  /** The filings of all combinations of a dead key. */
  function DeadKeyFilings(t: Tables, dk: DeadKey): seq<Filing> {
    var combos := DeadKeyCombinations(dk.deadType);
    ExpandDeadKey(t, dk, combos, |combos|)
  }

  /** The filings of all expansions of `dks`, in the order of `dks`. */
  function DeadFilings(t: Tables, dks: seq<DeadKey>): (r: seq<Filing>)
  {
    if dks == [] then []
    else
      var dk := dks[|dks| - 1];
      DeadFilings(t, dks[..|dks| - 1]) + DeadKeyFilings(t, dk)
  }

  lemma AppendAssoc<T>(a: seq<T>, b: seq<T>, c: seq<T>)
    ensures (a + b) + c == a + (b + c)
  {
  }

  lemma AppendNil<T>(s: seq<T>)
    ensures s + [] == s
  {
  }

  lemma TakeSnoc<T>(s: seq<T>, i: nat)
    requires i < |s|
    ensures s[..i + 1] == s[..i] + [s[i]]
  {
  }

  lemma DeadFilingsSnoc(t: Tables, dks: seq<DeadKey>, dk: DeadKey)
    ensures DeadFilings(t, dks + [dk]) == DeadFilings(t, dks) + DeadKeyFilings(t, dk)
  {
    assert (dks + [dk])[..|dks|] == dks;
  }

  /** Everything the builder files, in the order it files it. */
  function AllFilings(t: Tables, keymap: Keymap): seq<Filing> {
    LevelScan(t, keymap, KEYCODE_END) + DeadFilings(t, DeadKeyScan(keymap, KEYCODE_END))
  }

  /** The index the builder produces. */
  function BuildIndex(t: Tables, keymap: Keymap): Index {
    FileAll(map[], AllFilings(t, keymap))
  }

  // ---------------------------------------------------------------------------
  // The index

  datatype ComposeIndex = ComposeIndex(index: Index) {

    /**
     * Every list is non-empty, and every entry in it is one character whose
     * base letter is the key it is filed under.
     */
    ghost predicate Valid(t: Tables) {
      forall b :: b in index ==>
        && index[b] != []
        && forall e :: e in index[b] ==> |e.character| == 1 && FindBaseChar(t, e.character[0]) == Some(b)
    }

    /** `count`: the number of base letters with variants. */
    function Count(): (r: nat)
      ensures r == 0 <==> index == map[]
      ensures forall b :: b in index ==> 0 < r
    {
      |index.Keys|
    }

    /**
     * `find_variants`: the list of the lowercase of the first character,
     * followed, when that character is uppercase, by the list of its
     * uppercase; nothing for empty input.
     */
    function FindVariants(t: Tables, input: string): (r: seq<ComposeEntry>)
      ensures input == [] ==> r == []
      ensures input != [] ==> Bucket(index, t.lowerFirst(input[0])) <= r
      ensures input != [] && !t.isUppercase(input[0]) ==> r == Bucket(index, t.lowerFirst(input[0]))
    {
      if input == [] then []
      else
        var ch := input[0];
        var lower := Bucket(index, t.lowerFirst(ch));
        if t.isUppercase(ch) then lower + Bucket(index, t.upperFirst(ch)) else lower
    }
  }

  // ---------------------------------------------------------------------------
  // The builder

  /** The `(chord, keysym name)` pairs the dead-key loop pushes for `dks`. */
  function ChordsAndNames(dks: seq<DeadKey>): (r: seq<(string, string)>)
    ensures |r| == |dks|
  {
    if dks == [] then []
    else ChordsAndNames(dks[..|dks| - 1]) + [(dks[|dks| - 1].chord, dks[|dks| - 1].deadType)]
  }

  lemma {:induction false} ChordsAndNamesAt(dks: seq<DeadKey>, i: nat)
    requires i < |dks|
    ensures ChordsAndNames(dks)[i] == (dks[i].chord, dks[i].deadType)
  {
    if i < |dks| - 1 {
      ChordsAndNamesAt(dks[..|dks| - 1], i);
    }
  }

  lemma ChordsAndNamesSnoc(dks: seq<DeadKey>, dk: DeadKey)
    ensures ChordsAndNames(dks + [dk]) == ChordsAndNames(dks) + [(dk.chord, dk.deadType)]
  {
    assert (dks + [dk])[..|dks|] == dks;
  }

  lemma {:induction false} ChordsAndNamesAppend(a: seq<DeadKey>, b: seq<DeadKey>)
    ensures ChordsAndNames(a + b) == ChordsAndNames(a) + ChordsAndNames(b)
  {
    if b == [] {
      assert a + b == a;
    } else {
      var b' := b[..|b| - 1];
      assert (a + b)[..|a + b| - 1] == a + b';
      ChordsAndNamesAppend(a, b');
    }
  }

  /** Filing what one loop iteration found (possibly nothing) after `before + done`. */
  lemma FileNext(index: Index, before: seq<Filing>, done: seq<Filing>, found: Option<Filing>)
    requires index == FileAll(map[], before + done)
    ensures found.None? ==> index == FileAll(map[], before + (done + found.ToSeq()))
    ensures found.Some? ==>
      AddEntry(index, found.value.base, found.value.Entry()) == FileAll(map[], before + (done + found.ToSeq()))
  {
    if found.None? {
      assert done + found.ToSeq() == done;
    } else {
      assert found.ToSeq() == [found.value];
      FileStep(index, before, done, found.value);
    }
  }

  /** `ComposeIndex::build`: the level scan, the dead-key scan, then the expansions. It never fails. */
  method Build(t: Tables, keymap: Keymap) returns (r: Result<ComposeIndex, string>)
    ensures r == Ok(ComposeIndex(BuildIndex(t, keymap)))
    ensures r.Ok? && r.value.Valid(t)
  {
    var index := ScanLevels(t, keymap);
    var deadKeys, dks := ScanDeadKeys(keymap);
    index := ExpandDeadKeys(t, index, LevelScan(t, keymap, KEYCODE_END), deadKeys, dks);
    r := Ok(ComposeIndex(index));
  }

  /** The first loop of `build`: levels 0..num_levels-1 of every named key, filed as found. */
  method ScanLevels(t: Tables, keymap: Keymap) returns (index: Index)
    ensures index == FileAll(map[], LevelScan(t, keymap, KEYCODE_END))
    ensures ComposeIndex(index).Valid(t)
  {
    index := map[];
    for keycode := MIN_KEYCODE to KEYCODE_END
      invariant index == FileAll(map[], LevelScan(t, keymap, keycode))
      invariant ComposeIndex(index).Valid(t)
    {
      LevelScanNext(t, keymap, keycode);
      var key := keymap.KeyAt(keycode);
      if key.name.None? {
        assert LevelScan(t, keymap, keycode) + [] == LevelScan(t, keymap, keycode);
        continue;
      }
      index := ScanKeyLevels(t, index, LevelScan(t, keymap, keycode), keycode, key);
    }
  }

  /** The inner level loop of the first loop, for one named key. */
  method ScanKeyLevels(t: Tables, index: Index, ghost before: seq<Filing>, keycode: nat, key: Key)
    returns (index': Index)
    requires index == FileAll(map[], before)
    requires ComposeIndex(index).Valid(t)
    ensures index' == FileAll(map[], before + KeyLevelFilings(t, keycode, key, key.NumLevels()))
    ensures ComposeIndex(index').Valid(t)
  {
    var numLevels := key.NumLevels();
    var level2Char: Option<char> := None;
    if numLevels > 2 {
      var syms := key.SymsAt(2);
      if syms != [] {
        level2Char := syms[0].codepoint;
      }
    }
    index' := index;
    assert before + KeyLevelFilings(t, keycode, key, 0) == before;
    for level := 0 to numLevels
      invariant index' == FileAll(map[], before + KeyLevelFilings(t, keycode, key, level))
      invariant ComposeIndex(index').Valid(t)
    {
      var found := ScanLevel(t, keycode, key, level, level2Char);
      FileNext(index', before, KeyLevelFilings(t, keycode, key, level), LevelFiling(t, keycode, key, level));
      if found.Some? {
        var (base, entry) := found.value;
        AddEntryValid(t, index', LevelFiling(t, keycode, key, level).value);
        index' := AddEntry(index', base, entry);
      }
    }
  }

  /**
   * The body of the level loop: the base letter and entry that `key` yields
   * at `level`, or None where the loop `continue`s or `find_base_char` fails.
   */
  method ScanLevel(t: Tables, keycode: nat, key: Key, level: nat, level2Char: Option<char>)
    returns (found: Option<(char, ComposeEntry)>)
    requires level2Char == Level2Char(key)
    ensures found.None? <==> LevelFiling(t, keycode, key, level).None?
    ensures found.Some? ==>
      && found.value == (LevelFiling(t, keycode, key, level).value.base, LevelFiling(t, keycode, key, level).value.Entry())
      && WellFiled(t, LevelFiling(t, keycode, key, level).value)
  {
    var syms := key.SymsAt(level);
    if syms == [] {
      return None;
    }
    var keysym := syms[0];
    if keysym.codepoint.None? {
      return None;
    }
    var ch := keysym.codepoint.value;
    if IsControl(ch) || IsWhitespace(ch) {
      return None;
    }
    var modPrefix := ModifierPrefix(t, level, ch, level2Char);
    ModifierPrefixClassifies(t, level, ch, level2Char);
    if modPrefix.None? {
      return None;
    }
    var physicalKey := PhysicalLabel(key);
    var keySequence := ReplacePlus(modPrefix.value) + physicalKey;
    var base := FindBaseChar(t, ch);
    if base.Some? {
      found := Some((base.value, ComposeEntry([ch], keySequence)));
    } else {
      found := None;
    }
  }

  /**
   * The second loop of `build`: the (chord, keysym name) pairs of the dead
   * keys on levels 2..min(num_levels, 4)-1. The ghost `dks` is the same list
   * with each dead key's keycode and level.
   */
  method ScanDeadKeys(keymap: Keymap) returns (deadKeys: seq<(string, string)>, ghost dks: seq<DeadKey>)
    ensures deadKeys == ChordsAndNames(DeadKeyScan(keymap, KEYCODE_END))
    ensures dks == DeadKeyScan(keymap, KEYCODE_END)
  {
    deadKeys, dks := [], [];
    for keycode := MIN_KEYCODE to KEYCODE_END
      invariant dks == DeadKeyScan(keymap, keycode)
      invariant deadKeys == ChordsAndNames(dks)
    {
      DeadKeyScanNext(keymap, keycode);
      var key := keymap.KeyAt(keycode);
      if key.name.None? {
        assert dks + [] == dks;
        continue;
      }
      var found, foundDks := ScanKeyDeadKeys(keycode, key);
      ChordsAndNamesAppend(dks, foundDks);
      deadKeys, dks := deadKeys + found, dks + foundDks;
    }
  }

  /** The inner level loop of the dead-key scan, for one named key. */
  method ScanKeyDeadKeys(keycode: nat, key: Key) returns (found: seq<(string, string)>, ghost dks: seq<DeadKey>)
    ensures found == ChordsAndNames(KeyDeadLevels(keycode, key, DeadLevelEnd(key)))
    ensures dks == KeyDeadLevels(keycode, key, DeadLevelEnd(key))
  {
    var numLevels := key.NumLevels();
    var levelEnd := if numLevels < 4 then numLevels else 4;
    found, dks := [], [];
    var level: nat := 2;
    while level < levelEnd
      invariant 2 <= level && (level <= levelEnd || level == 2)
      invariant dks == KeyDeadLevels(keycode, key, level)
      invariant found == ChordsAndNames(dks)
    {
      var pair := ScanDeadLevel(keycode, key, level);
      KeyDeadLevelsStep(keycode, key, level);
      if pair.Some? {
        var dk := DeadKeyAt(keycode, key, level).value;
        ChordsAndNamesSnoc(dks, dk);
        found, dks := found + [pair.value], dks + [dk];
      } else {
        AppendNil(dks);
      }
      level := level + 1;
    }
  }

  /** The body of the dead-key level loop: the pair it pushes for `key` at `level`, if any. */
  method ScanDeadLevel(keycode: nat, key: Key, level: nat) returns (pair: Option<(string, string)>)
    ensures pair.None? <==> DeadKeyAt(keycode, key, level).None?
    ensures pair.Some? ==>
      pair.value == (DeadKeyAt(keycode, key, level).value.chord, DeadKeyAt(keycode, key, level).value.deadType)
  {
    pair := None;
    var syms := key.SymsAt(level);
    if syms != [] {
      var keysymName := syms[0].name;
      if StartsWith(keysymName, "dead_") {
        var baseSym := key.SymsAt(0);
        if baseSym != [] && baseSym[0].codepoint.Some? && IsAsciiGraphic(baseSym[0].codepoint.value) {
          var physicalKey := [baseSym[0].codepoint.value];
          var modPrefix := if level == 2 then "AltGr-" else "AltGr-Shift-";
          pair := Some((modPrefix + physicalKey, keysymName));
        }
      }
    }
  }

  /** The third loop of `build`: each dead key's combinations, in table order, filed after `levelFilings`. */
  method ExpandDeadKeys(t: Tables, levelIndex: Index, ghost levelFilings: seq<Filing>,
                        deadKeys: seq<(string, string)>, ghost dks: seq<DeadKey>) returns (index: Index)
    requires levelIndex == FileAll(map[], levelFilings)
    requires ComposeIndex(levelIndex).Valid(t)
    requires deadKeys == ChordsAndNames(dks)
    ensures index == FileAll(map[], levelFilings + DeadFilings(t, dks))
    ensures ComposeIndex(index).Valid(t)
  {
    index := levelIndex;
    ghost var done: seq<DeadKey> := [];
    assert levelFilings + DeadFilings(t, done) == levelFilings;
    for i := 0 to |deadKeys|
      invariant done == dks[..i]
      invariant index == FileAll(map[], levelFilings + DeadFilings(t, done))
      invariant ComposeIndex(index).Valid(t)
    {
      var (deadKeyCombo, deadType) := deadKeys[i];
      ChordsAndNamesAt(dks, i);
      var combinations := DeadKeyCombinations(deadType);
      ghost var before := DeadFilings(t, done);
      index := ExpandDeadKeyInto(t, index, levelFilings + before, deadKeyCombo, combinations, dks[i]);
      ghost var expansion := ExpandDeadKey(t, dks[i], combinations, |combinations|);
      assert expansion == DeadKeyFilings(t, dks[i]);
      DeadFilingsSnoc(t, done, dks[i]);
      AppendAssoc(levelFilings, before, expansion);
      TakeSnoc(dks, i);
      done := done + [dks[i]];
    }
    assert dks[..|deadKeys|] == dks;
  }

  /** The inner loop of the third loop: the combinations of one dead key, filed after `before`. */
  method ExpandDeadKeyInto(t: Tables, index: Index, ghost before: seq<Filing>,
                           deadKeyCombo: string, combinations: seq<(char, char)>, ghost dk: DeadKey)
    returns (index': Index)
    requires index == FileAll(map[], before)
    requires ComposeIndex(index).Valid(t)
    requires dk.chord == deadKeyCombo
    ensures index' == FileAll(map[], before + ExpandDeadKey(t, dk, combinations, |combinations|))
    ensures ComposeIndex(index').Valid(t)
  {
    index' := index;
    assert before + ExpandDeadKey(t, dk, combinations, 0) == before;
    for j := 0 to |combinations|
      invariant index' == FileAll(map[], before + ExpandDeadKey(t, dk, combinations, j))
      invariant ComposeIndex(index').Valid(t)
    {
      var found := ExpandCombination(t, deadKeyCombo, combinations, j, dk);
      FileNext(index', before, ExpandDeadKey(t, dk, combinations, j), DeadKeyExpansion(t, dk, combinations, j));
      if found.Some? {
        var (base, entry) := found.value;
        AddEntryValid(t, index', DeadKeyExpansion(t, dk, combinations, j).value);
        index' := AddEntry(index', base, entry);
      }
    }
  }

  /** The body of the expansion loop: the base letter and entry of the `j`-th combination, if it has a base letter. */
  method ExpandCombination(t: Tables, deadKeyCombo: string, combinations: seq<(char, char)>, j: nat, ghost dk: DeadKey)
    returns (found: Option<(char, ComposeEntry)>)
    requires j < |combinations| && dk.chord == deadKeyCombo
    ensures found.None? <==> DeadKeyExpansion(t, dk, combinations, j).None?
    ensures found.Some? ==>
      && found.value == (DeadKeyExpansion(t, dk, combinations, j).value.base, DeadKeyExpansion(t, dk, combinations, j).value.Entry())
      && WellFiled(t, DeadKeyExpansion(t, dk, combinations, j).value)
  {
    var (baseLetter, resultChar) := combinations[j];
    var keySequence := deadKeyCombo + "  " + [baseLetter];
    var base := FindBaseChar(t, resultChar);
    if base.Some? {
      found := Some((base.value, ComposeEntry([resultChar], keySequence)));
    } else {
      found := None;
    }
  }
}
