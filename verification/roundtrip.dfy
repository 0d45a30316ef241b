/**
 * The result row's split is the inverse of the key-sequence format of the
 * compose index: splitting a sequence the builder made gives back the
 * modifier keycap of its level and the key label, and for a dead-key
 * sequence also the base letter pressed after it, as long as the key label
 * has no '-' and no double space.
 */
module RoundTrip {
  import opened Wrappers
  import opened Unicode
  import opened Layout
  import opened Compose
  import opened ComposeOrder
  import opened ComposeProperties
  import opened Keycaps

  /** The modifier keycap of shift levels 1..3. */
  function ModifierName(level: nat): string {
    if level == 1 then "Shift" else if level == 2 then "AltGr" else "AltGr-Shift"
  }

  lemma ChordPrefixModifier(level: nat)
    requires 0 < level < 4
    ensures ChordPrefix(level) == ModifierName(level) + "-"
    ensures 2 <= level ==> DeadPrefix(level) == ModifierName(level) + "-"
  {
  }

  /** Prepending a text without spaces creates no double space. */
  lemma {:induction false} NoDoubleSpaceAfterPrefix(prefix: string, s: string)
    requires ' ' !in prefix
    requires forall j :: !DoubleSpaceAt(s, j)
    ensures forall j :: !DoubleSpaceAt(prefix + s, j)
  {
    forall j ensures !DoubleSpaceAt(prefix + s, j) {
      if 0 <= j < |prefix| {
        assert (prefix + s)[j] == prefix[j];
      } else if |prefix| <= j < |prefix + s| - 1 {
        assert (prefix + s)[j] == s[j - |prefix|] && (prefix + s)[j + 1] == s[j + 1 - |prefix|];
        assert !DoubleSpaceAt(s, j - |prefix|);
      }
    }
  }

  /** Splitting the sequence of a level gives back the level's modifier and the key label. */
  lemma SplitChord(level: nat, keyLabel: string)
    requires level < 4 && Plain(keyLabel)
    ensures SplitKeySequence(Chord(level, keyLabel).Spelled()) ==
      if level == 0 then SingleKeycap(keyLabel) else Combination(ModifierName(level), keyLabel)
  {
    assert forall j :: !DoubleSpaceAt(keyLabel, j);
    NoDoubleSpaceAfterPrefix(ChordPrefix(level), keyLabel);
    if level == 0 {
      assert Chord(level, keyLabel).Spelled() == keyLabel;
      SplitDirect(keyLabel);
    } else {
      ChordPrefixModifier(level);
      assert Chord(level, keyLabel).Spelled() == ModifierName(level) + "-" + keyLabel;
      SplitCombination(ModifierName(level), keyLabel);
    }
  }

  /**
   * Splitting the sequence of a dead-key expansion gives back the chord's
   * modifier, the key label and the base letter.
   */
  lemma SplitDeadKeyThen(level: nat, c: char, letter: char)
    requires 2 <= level < 4 && IsAsciiGraphic(c) && c != '-' && !IsWhitespace(letter)
    ensures SplitKeySequence(DeadKeyThen(DeadPrefix(level) + [c], letter).Spelled())
            == DeadKeyChord(ModifierName(level), [c], [letter])
  {
    ChordPrefixModifier(level);
    var m := ModifierName(level);
    assert DeadKeyThen(DeadPrefix(level) + [c], letter).Spelled() == m + "-" + [c] + "  " + [letter];
    SplitDeadKeyChord(m, [c], letter);
  }

  /**
   * The keycaps a filing should draw, read off the layout at its origin: the
   * level's modifier and the key label, and for a dead key also the base
   * letter of the table row.
   */
  function ExpectedKeycaps(keymap: Keymap, o: Origin): Keycaps {
    var key := keymap.KeyAt(o.keycode);
    match o
    case Direct(_, level) =>
      if level == 0 then SingleKeycap(PhysicalLabel(key)) else Combination(ModifierName(level), PhysicalLabel(key))
    case ViaDeadKey(_, level, combo) =>
      var syms := key.SymsAt(level);
      if syms != [] && combo < |DeadKeyCombinations(syms[0].name)|
      then DeadKeyChord(ModifierName(level), PhysicalLabel(key), [DeadKeyCombinations(syms[0].name)[combo].0])
      else NoKeycaps
  }

  /** The round trip for one filing of the level loop. */
  lemma LevelFilingSplits(t: Tables, keymap: Keymap, f: Filing)
    requires FromLevel(t, keymap, f)
    requires Plain(PhysicalLabel(keymap.KeyAt(f.origin.keycode)))
    ensures SplitKeySequence(f.Entry().keySequence) == ExpectedKeycaps(keymap, f.origin)
  {
    var key := keymap.KeyAt(f.origin.keycode);
    LevelFilingRule(t, f.origin.keycode, key, f.origin.level);
    SplitChord(f.origin.level, PhysicalLabel(key));
  }

  /** The round trip for one filing of the expansion loop. */
  lemma DeadFilingSplits(t: Tables, keymap: Keymap, f: Filing)
    requires FromDeadKey(t, keymap, f)
    requires Plain(PhysicalLabel(keymap.KeyAt(f.origin.keycode)))
    ensures SplitKeySequence(f.Entry().keySequence) == ExpectedKeycaps(keymap, f.origin)
  {
    var key := keymap.KeyAt(f.origin.keycode);
    var level := f.origin.level;
    DeadKeyAtRule(f.origin.keycode, key, level);
    var dk := DeadKeyAt(f.origin.keycode, key, level).value;
    var combos := DeadKeyCombinations(dk.deadType);
    DeadKeyExpansionRule(t, dk, combos, f.origin.combo);
    var c := GraphicBase(key).value;
    assert PhysicalLabel(key) == [c];
    assert c != '-' by { assert PhysicalLabel(key)[0] == c; }
    var letter := combos[f.origin.combo].0;
    assert IsAsciiLower(letter);
    SplitDeadKeyThen(level, c, letter);
  }

  /**
   * Splitting the key sequence of anything `build` files gives back the
   * modifier and key label of its origin, and for dead keys the base letter,
   * whenever the key label has no '-' and no double space.
   */
  lemma BuildSequencesSplit(t: Tables, keymap: Keymap)
    ensures forall f :: f in AllFilings(t, keymap) && Plain(PhysicalLabel(keymap.KeyAt(f.origin.keycode))) ==>
      SplitKeySequence(f.Entry().keySequence) == ExpectedKeycaps(keymap, f.origin)
  {
    AllFilingsFound(t, keymap);
    forall f | f in AllFilings(t, keymap) && Plain(PhysicalLabel(keymap.KeyAt(f.origin.keycode)))
      ensures SplitKeySequence(f.Entry().keySequence) == ExpectedKeycaps(keymap, f.origin)
    {
      if FromLevel(t, keymap, f) {
        LevelFilingSplits(t, keymap, f);
      } else {
        DeadFilingSplits(t, keymap, f);
      }
    }
  }

  /** The round trip for every entry of the built index. */
  lemma BuildEntriesSplit(t: Tables, keymap: Keymap, b: char, e: ComposeEntry)
    requires e in Bucket(BuildIndex(t, keymap), b)
    ensures exists f :: (f in AllFilings(t, keymap) && f.base == b && f.Entry() == e &&
      (Plain(PhysicalLabel(keymap.KeyAt(f.origin.keycode))) ==>
         SplitKeySequence(e.keySequence) == ExpectedKeycaps(keymap, f.origin)))
  {
    BuildBucketOrdered(t, keymap, b);
    EntriesFrom(FilingsFor(AllFilings(t, keymap), b), e);
    var f :| f in FilingsFor(AllFilings(t, keymap), b) && f.Entry() == e;
    BuildSequencesSplit(t, keymap);
    assert f in AllFilings(t, keymap) && f.base == b;
  }
}
