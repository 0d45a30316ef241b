/**
 * Properties of the base-letter resolver, the level classifier, the dead-key
 * pass and `find_variants`, and the fact that every filing of `build` is what
 * the layout yields at the filing's origin.
 */
module ComposeProperties {
  import opened Wrappers
  import opened Unicode
  import opened Layout
  import opened Compose
  import opened ComposeOrder
  import opened Scans

  // ---------------------------------------------------------------------------
  // find_base_char

  /** The override table as a map: the characters with a base letter but no ASCII decomposition. */
  const BASE_OVERRIDES: map<char, char> := map[
    '€' := 'e', '£' := 'l', '¥' := 'y', '¢' := 'c', 'æ' := 'a',
    'œ' := 'o', 'ß' := 's', 'ð' := 'd', 'þ' := 't'
  ]

  /**
   * `find_base_char` uses the decomposition when its first code point is an
   * ASCII letter, consults the override table only otherwise, and gives
   * None for everything else.
   */
  lemma FindBaseCharCases(t: Tables, ch: char)
    ensures IsAsciiLetter(t.nfdFirst(ch)) ==> FindBaseChar(t, ch) == Some(ToAsciiLower(t.nfdFirst(ch)))
    ensures !IsAsciiLetter(t.nfdFirst(ch)) && ch in BASE_OVERRIDES ==> FindBaseChar(t, ch) == Some(BASE_OVERRIDES[ch])
    ensures !IsAsciiLetter(t.nfdFirst(ch)) && ch !in BASE_OVERRIDES ==> FindBaseChar(t, ch) == None
  {
  }

  /** With the Unicode tables' ASCII facts, an ASCII letter's base is its own lowercase. */
  lemma AsciiLetterBase(t: Tables, c: char)
    requires AsciiConsistent(t)
    requires IsAsciiLetter(c)
    ensures FindBaseChar(t, c) == Some(ToAsciiLower(c))
  {
    assert t.nfdFirst(c) == c;
  }

  /**
   * 'ł' and 'ø' have no canonical decomposition and are not in the override
   * table, so the `dead_stroke` expansions are never filed.
   */
  lemma StrokeNeverFiled(t: Tables, dk: DeadKey)
    requires dk.deadType == "dead_stroke"
    requires t.nfdFirst('ł') == 'ł' && t.nfdFirst('ø') == 'ø'
    ensures DeadKeyFilings(t, dk) == []
  {
    var combos := DeadKeyCombinations(dk.deadType);
    assert combos == [('l', 'ł'), ('o', 'ø')];
    assert FindBaseChar(t, 'ł') == None && FindBaseChar(t, 'ø') == None;
    assert DeadKeyExpansion(t, dk, combos, 0) == None;
    assert DeadKeyExpansion(t, dk, combos, 1) == None;
    assert ExpandDeadKey(t, dk, combos, 1) == [];
  }

  // ---------------------------------------------------------------------------
  // The dead-key table

  /** `get_dead_key_combinations` knows exactly the thirteen names, and an unknown name yields nothing. */
  lemma DeadKeyCombinationsKnown(deadType: string)
    ensures DeadKeyCombinations(deadType) == [] <==> deadType !in DEAD_KEY_NAMES
  {
  }

  /** A dead key whose name the table does not know files nothing. */
  lemma UnknownDeadKeyFilesNothing(t: Tables, dk: DeadKey)
    requires dk.deadType !in DEAD_KEY_NAMES
    ensures DeadKeyFilings(t, dk) == []
  {
    DeadKeyCombinationsKnown(dk.deadType);
  }

  // ---------------------------------------------------------------------------
  // The level classifier

  /** The modifier prefix of levels 0..3: never a `+`, and the dead-key chord prefix at levels 2 and 3. */
  lemma ChordPrefixShape(level: nat)
    requires level < 4
    ensures '+' !in ChordPrefix(level)
    ensures ChordPrefix(level) in {"", "Shift-", "AltGr-", "AltGr-Shift-"}
    ensures 2 <= level ==> ChordPrefix(level) == DeadPrefix(level)
    ensures 0 < level ==> ChordPrefix(level)[|ChordPrefix(level)| - 1] == '-'
  {
  }

  /**
   * What the level loop files at `level` of `key`: the level's first
   * character, when it is not a control or whitespace character, not skipped
   * by the classifier, and has a base letter; its sequence is the level's
   * modifier prefix followed by the physical label. Both directions.
   */
  lemma LevelFilingRule(t: Tables, keycode: nat, key: Key, level: nat)
    ensures var r := LevelFiling(t, keycode, key, level);
      r.Some? ==>
        && key.SymsAt(level) != []
        && key.SymsAt(level)[0].codepoint == Some(r.value.character)
        && !IsControl(r.value.character) && !IsWhitespace(r.value.character)
        && !SkipsLevel(t, level, r.value.character, Level2Char(key))
        && FindBaseChar(t, r.value.character) == Some(r.value.base)
        && r.value.Entry() == ComposeEntry([r.value.character], ChordPrefix(level) + PhysicalLabel(key))
    ensures var syms := key.SymsAt(level);
      syms != [] && syms[0].codepoint.Some? ==>
        var ch := syms[0].codepoint.value;
        !IsControl(ch) && !IsWhitespace(ch) && !SkipsLevel(t, level, ch, Level2Char(key)) && FindBaseChar(t, ch).Some?
        ==> LevelFiling(t, keycode, key, level).Some?
  {
  }

  /**
   * The classifier's rules on what is filed: no control or whitespace
   * character, no level from 4 on, no ASCII lowercase at level 0, no ASCII
   * uppercase at level 1, and at level 3 no capital of a different level-2
   * character.
   */
  lemma LevelSkipRules(t: Tables, keycode: nat, key: Key, level: nat)
    ensures var r := LevelFiling(t, keycode, key, level);
      r.Some? ==>
        var ch := r.value.character;
        && !IsControl(ch) && !IsWhitespace(ch)
        && level < 4
        && (level == 0 ==> !IsAsciiLower(ch))
        && (level == 1 ==> !IsAsciiUpper(ch))
        && (level == 3 && Level2Char(key).Some? && ch == t.upperFirst(Level2Char(key).value) ==> ch == Level2Char(key).value)
  {
    LevelFilingRule(t, keycode, key, level);
  }

  /**
   * A level-2 keysym without a character is U+0000 in the source and no
   * character here; with ASCII-consistent tables the level-3 test skips the
   * same characters either way.
   */
  lemma NoCharLevel2(t: Tables, ch: char)
    requires AsciiConsistent(t)
    ensures SkipsLevel(t, 3, ch, Some('\0')) <==> SkipsLevel(t, 3, ch, None)
  {
  }

  // ---------------------------------------------------------------------------
  // The dead-key pass

  /**
   * A dead key is found at `level` exactly when the level's first keysym's
   * name starts with "dead_" and the key's level-0 character is ASCII
   * graphic; its chord is the level's AltGr prefix followed by that character.
   */
  lemma DeadKeyAtRule(keycode: nat, key: Key, level: nat)
    ensures DeadKeyAt(keycode, key, level).Some? <==>
      key.SymsAt(level) != [] && StartsWith(key.SymsAt(level)[0].name, "dead_") && GraphicBase(key).Some?
    ensures DeadKeyAt(keycode, key, level).Some? ==>
      && DeadKeyAt(keycode, key, level).value.chord == DeadPrefix(level) + [GraphicBase(key).value]
      && DeadKeyAt(keycode, key, level).value.deadType == key.SymsAt(level)[0].name
  {
  }

  /** The dead-key pass looks only at levels 2..min(num_levels, 4)-1 of named keys. */
  lemma {:induction false} KeyDeadLevelsRange(keycode: nat, key: Key, end: nat)
    ensures forall dk :: dk in KeyDeadLevels(keycode, key, end) ==>
      2 <= dk.level < end && DeadKeyAt(keycode, key, dk.level) == Some(dk)
  {
    if end > 2 {
      KeyDeadLevelsRange(keycode, key, end - 1);
    }
  }

  /** `dk` is what `DeadKeyAt` finds at its keycode and level, at a level from 2 to 3 that the named key has. */
  predicate FoundDeadKey(keymap: Keymap, dk: DeadKey) {
    var key := keymap.KeyAt(dk.keycode);
    && key.name.Some?
    && 2 <= dk.level < DeadLevelEnd(key)
    && DeadKeyAt(dk.keycode, key, dk.level) == Some(dk)
  }

  lemma KeyDeadKeysFound(keymap: Keymap, keycode: nat)
    ensures forall dk :: dk in KeyDeadKeys(keymap, keycode) ==> FoundDeadKey(keymap, dk)
  {
    var key := keymap.KeyAt(keycode);
    if key.name.Some? {
      KeyDeadLevelsRange(keycode, key, DeadLevelEnd(key));
    }
  }

  lemma FoundAppend(keymap: Keymap, a: seq<DeadKey>, b: seq<DeadKey>)
    requires forall dk :: dk in a ==> FoundDeadKey(keymap, dk)
    requires forall dk :: dk in b ==> FoundDeadKey(keymap, dk)
    ensures forall dk :: dk in a + b ==> FoundDeadKey(keymap, dk)
  {
  }

  /** Every dead key of the scan is one `DeadKeyAt` finds. */
  lemma {:induction false} DeadKeyScanFound(keymap: Keymap, end: nat)
    ensures forall dk :: dk in DeadKeyScan(keymap, end) ==> FoundDeadKey(keymap, dk)
  {
    if end > MIN_KEYCODE {
      DeadKeyScanFound(keymap, end - 1);
      KeyDeadKeysFound(keymap, end - 1);
      FoundAppend(keymap, DeadKeyScan(keymap, end - 1), KeyDeadKeys(keymap, end - 1));
    }
  }

  /**
   * A dead-key expansion files the composed character under its base
   * letter, with the sequence chord, two spaces, then the table's base letter.
   */
  lemma DeadKeyExpansionRule(t: Tables, dk: DeadKey, combos: seq<(char, char)>, combo: nat)
    ensures DeadKeyExpansion(t, dk, combos, combo).Some? <==>
      combo < |combos| && FindBaseChar(t, combos[combo].1).Some?
    ensures DeadKeyExpansion(t, dk, combos, combo).Some? ==>
      var f := DeadKeyExpansion(t, dk, combos, combo).value;
      && f.character == combos[combo].1
      && Some(f.base) == FindBaseChar(t, combos[combo].1)
      && f.keys == DeadKeyThen(dk.chord, combos[combo].0)
      && f.Entry() == ComposeEntry([combos[combo].1], dk.chord + "  " + [combos[combo].0])
  {
  }

  // ---------------------------------------------------------------------------
  // Every filing comes from the layout

  /** `f` is what the level loop files at `f`'s origin. */
  predicate FromLevel(t: Tables, keymap: Keymap, f: Filing) {
    && f.origin.Direct?
    && keymap.KeyAt(f.origin.keycode).name.Some?
    && LevelFiling(t, f.origin.keycode, keymap.KeyAt(f.origin.keycode), f.origin.level) == Some(f)
  }

  /** `f` is what the expansion loop files for the dead key found at `f`'s origin. */
  predicate FromDeadKey(t: Tables, keymap: Keymap, f: Filing) {
    && f.origin.ViaDeadKey?
    && var key := keymap.KeyAt(f.origin.keycode);
    && key.name.Some?
    && 2 <= f.origin.level < DeadLevelEnd(key)
    && DeadKeyAt(f.origin.keycode, key, f.origin.level).Some?
    && var dk := DeadKeyAt(f.origin.keycode, key, f.origin.level).value;
    DeadKeyExpansion(t, dk, DeadKeyCombinations(dk.deadType), f.origin.combo) == Some(f)
  }

  lemma {:induction false} KeyLevelFilingsFound(t: Tables, keycode: nat, key: Key, n: nat)
    ensures forall f :: f in KeyLevelFilings(t, keycode, key, n) ==>
      f.origin.Direct? && f.origin.keycode == keycode && LevelFiling(t, keycode, key, f.origin.level) == Some(f)
  {
    if n > 0 {
      KeyLevelFilingsFound(t, keycode, key, n - 1);
    }
  }

  lemma KeyFilingsFound(t: Tables, keymap: Keymap, keycode: nat)
    ensures forall f :: f in KeyFilings(t, keymap, keycode) ==> FromLevel(t, keymap, f)
  {
    var key := keymap.KeyAt(keycode);
    KeyLevelFilingsFound(t, keycode, key, key.NumLevels());
  }

  lemma LevelScanFound(t: Tables, keymap: Keymap, end: nat)
    ensures forall f :: f in LevelScan(t, keymap, end) ==> FromLevel(t, keymap, f)
  {
    forall f | f in LevelScan(t, keymap, end) ensures FromLevel(t, keymap, f) {
      LevelScanIsScan(t, keymap);
      ScanFrom(LevelScans(t, keymap), KeyFilingsOf(t, keymap), MIN_KEYCODE, end, f);
      var k: nat :| MIN_KEYCODE <= k < end && f in KeyFilingsOf(t, keymap)(k);
      KeyFilingsFound(t, keymap, k);
    }
  }

  lemma {:induction false} ExpandDeadKeyFound(t: Tables, dk: DeadKey, combos: seq<(char, char)>, n: nat)
    ensures forall f :: f in ExpandDeadKey(t, dk, combos, n) ==>
      f.origin.ViaDeadKey? && f.origin.keycode == dk.keycode && f.origin.level == dk.level
      && DeadKeyExpansion(t, dk, combos, f.origin.combo) == Some(f)
  {
    if n > 0 {
      ExpandDeadKeyFound(t, dk, combos, n - 1);
    }
  }

  lemma DeadKeyFilingsFound(t: Tables, keymap: Keymap, dk: DeadKey)
    requires FoundDeadKey(keymap, dk)
    ensures forall f :: f in DeadKeyFilings(t, dk) ==> FromDeadKey(t, keymap, f)
  {
    var combos := DeadKeyCombinations(dk.deadType);
    ExpandDeadKeyFound(t, dk, combos, |combos|);
  }

  lemma {:induction false} DeadFilingsFound(t: Tables, keymap: Keymap, dks: seq<DeadKey>)
    requires forall dk :: dk in dks ==> FoundDeadKey(keymap, dk)
    ensures forall f :: f in DeadFilings(t, dks) ==> FromDeadKey(t, keymap, f)
  {
    if dks != [] {
      var init, dk := dks[..|dks| - 1], dks[|dks| - 1];
      assert forall d :: d in init ==> d in dks;
      DeadFilingsFound(t, keymap, init);
      DeadKeyFilingsFound(t, keymap, dk);
      assert DeadFilings(t, dks) == DeadFilings(t, init) + DeadKeyFilings(t, dk);
    }
  }

  /** Everything `build` files is what the level loop or the expansion loop yields at the filing's origin. */
  lemma AllFilingsFound(t: Tables, keymap: Keymap)
    ensures forall f :: f in AllFilings(t, keymap) ==> FromLevel(t, keymap, f) || FromDeadKey(t, keymap, f)
  {
    LevelScanFound(t, keymap, KEYCODE_END);
    DeadKeyScanFound(keymap, KEYCODE_END);
    DeadFilingsFound(t, keymap, DeadKeyScan(keymap, KEYCODE_END));
  }

  /** Everything `build` files is filed under the base letter of its character. */
  lemma AllFilingsWellFiled(t: Tables, keymap: Keymap)
    ensures forall f :: f in AllFilings(t, keymap) ==> WellFiled(t, f)
  {
    AllFilingsFound(t, keymap);
    forall f | f in AllFilings(t, keymap) ensures WellFiled(t, f) {
      if FromLevel(t, keymap, f) {
        LevelFilingRule(t, f.origin.keycode, keymap.KeyAt(f.origin.keycode), f.origin.level);
      } else {
        var dk := DeadKeyAt(f.origin.keycode, keymap.KeyAt(f.origin.keycode), f.origin.level).value;
        DeadKeyExpansionRule(t, dk, DeadKeyCombinations(dk.deadType), f.origin.combo);
      }
    }
  }

  /**
   * The index `build` produces is valid: every list is non-empty and holds
   * only characters whose base letter is the letter it is filed under.
   */
  lemma BuildIndexValid(t: Tables, keymap: Keymap)
    ensures ComposeIndex(BuildIndex(t, keymap)).Valid(t)
  {
    var fs := AllFilings(t, keymap);
    var index: Index := BuildIndex(t, keymap);
    FileAllKeys(map[], fs);
    AllFilingsWellFiled(t, keymap);
    forall b | b in index
      ensures index[b] != []
      ensures forall e: ComposeEntry :: e in index[b] ==> |e.character| == 1 && FindBaseChar(t, e.character[0]) == Some(b)
    {
      BuildBucketOrdered(t, keymap, b);
      assert index[b] == Entries(FilingsFor(fs, b));
      var i :| 0 <= i < |fs| && fs[i].base == b;
      FilingsForKeeps(fs, b, fs[i]);
      forall e: ComposeEntry | e in index[b] ensures |e.character| == 1 && FindBaseChar(t, e.character[0]) == Some(b) {
        EntriesFrom(FilingsFor(fs, b), e);
      }
    }
  }

  // ---------------------------------------------------------------------------
  // find_variants

  /** Characters after the first are ignored. */
  lemma FindVariantsFirstOnly(ci: ComposeIndex, t: Tables, input: string)
    requires input != []
    ensures ci.FindVariants(t, input) == ci.FindVariants(t, input[..1])
  {
  }

  /** For an uppercase character, the list of its uppercase follows the list of its lowercase. */
  lemma FindVariantsUppercase(ci: ComposeIndex, t: Tables, input: string)
    requires input != [] && t.isUppercase(input[0])
    ensures ci.FindVariants(t, input) == Bucket(ci.index, t.lowerFirst(input[0])) + Bucket(ci.index, t.upperFirst(input[0]))
  {
  }

  /** Every letter a valid index has a list under is ASCII lowercase. */
  lemma ValidKeysLower(ci: ComposeIndex, t: Tables)
    requires ci.Valid(t)
    ensures forall b :: b in ci.index ==> IsAsciiLower(b)
  {
    forall b | b in ci.index ensures IsAsciiLower(b) {
      assert ci.index[b][0] in ci.index[b];
    }

  }

  /**
   * On a valid index, an ASCII capital finds exactly what its lowercase
   * finds: the uppercase lookup always misses.
   */
  lemma FindVariantsAsciiCapital(ci: ComposeIndex, t: Tables, c: char)
    requires ci.Valid(t) && AsciiConsistent(t)
    requires IsAsciiUpper(c)
    ensures ci.FindVariants(t, [c]) == ci.FindVariants(t, [ToAsciiLower(c)])
    ensures ci.FindVariants(t, [c]) == Bucket(ci.index, ToAsciiLower(c))
  {
    assert t.upperFirst(c) == c && t.lowerFirst(c) == ToAsciiLower(c);
    assert t.lowerFirst(ToAsciiLower(c)) == ToAsciiLower(c);
    assert !t.isUppercase(ToAsciiLower(c));
    ValidKeysLower(ci, t);
    AppendNil(Bucket(ci.index, ToAsciiLower(c)));
  }

  /** On a valid index, every variant found is one character whose base letter is the one looked up. */
  lemma FindVariantsBases(ci: ComposeIndex, t: Tables, input: string)
    requires ci.Valid(t) && input != []
    ensures forall e :: e in ci.FindVariants(t, input) ==>
      |e.character| == 1
      && (FindBaseChar(t, e.character[0]) == Some(t.lowerFirst(input[0]))
          || (t.isUppercase(input[0]) && FindBaseChar(t, e.character[0]) == Some(t.upperFirst(input[0]))))
  {
  }
}
