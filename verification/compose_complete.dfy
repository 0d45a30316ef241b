/**
 * Completeness of `build`: the index holds exactly what the level rule and
 * the dead-key expansion rule yield on the scanned keycodes. Together with
 * the soundness lemmas of `ComposeProperties`, this pins each bucket down
 * from both sides: nothing the rules yield on keycodes 8..255 is missing,
 * and nothing else is there.
 */
module ComposeComplete {
  import opened Wrappers
  import opened Layout
  import opened Compose
  import opened ComposeOrder
  import opened ComposeProperties
  import opened Scans

  /** The keycodes both scans of `build` visit. */
  predicate Scanned(keycode: nat) {
    MIN_KEYCODE <= keycode < KEYCODE_END
  }

  /** `f` is what the level rule or the expansion rule yields at its origin, on a scanned keycode. */
  predicate Yields(t: Unicode.Tables, keymap: Keymap, f: Filing) {
    Scanned(f.origin.keycode) && (FromLevel(t, keymap, f) || FromDeadKey(t, keymap, f))
  }

  // ---------------------------------------------------------------------------
  // Membership in each pass, both directions

  /** One key's level filings are exactly what the level rule yields at its levels below `n`. */
  lemma {:induction false} KeyLevelFilingsMembers(t: Unicode.Tables, keycode: nat, key: Key, n: nat, f: Filing)
    ensures f in KeyLevelFilings(t, keycode, key, n) <==>
      exists l: nat :: l < n && LevelFiling(t, keycode, key, l) == Some(f)
  {
    if n > 0 {
      KeyLevelFilingsMembers(t, keycode, key, n - 1, f);
      var here := LevelFiling(t, keycode, key, n - 1);
      InStep(KeyLevelFilings(t, keycode, key, n), KeyLevelFilings(t, keycode, key, n - 1), here.ToSeq(), f);
      if f in KeyLevelFilings(t, keycode, key, n) && f !in KeyLevelFilings(t, keycode, key, n - 1) {
        assert f in here.ToSeq();
        assert here == Some(f);
      }
      if exists l: nat :: l < n && LevelFiling(t, keycode, key, l) == Some(f) {
        var l: nat :| l < n && LevelFiling(t, keycode, key, l) == Some(f);
        if l == n - 1 {
          assert here.ToSeq() == [f];
        }
      }
    }
  }

  /** A filing of a keycode in 8..end-1 is in the level scan up to `end`. */
  lemma LevelScanHas(t: Unicode.Tables, keymap: Keymap, end: nat, k: nat, f: Filing)
    requires MIN_KEYCODE <= k < end && f in KeyFilings(t, keymap, k)
    ensures f in LevelScan(t, keymap, end)
  {
    LevelScanIsScan(t, keymap);
    ScanHas(LevelScans(t, keymap), KeyFilingsOf(t, keymap), MIN_KEYCODE, end, k, f);
  }

  /** A filing of the level scan up to `end` is a filing of a keycode in 8..end-1. */
  lemma LevelScanFrom(t: Unicode.Tables, keymap: Keymap, end: nat, f: Filing)
    requires f in LevelScan(t, keymap, end)
    ensures exists k: nat :: MIN_KEYCODE <= k < end && f in KeyFilings(t, keymap, k)
  {
    LevelScanIsScan(t, keymap);
    ScanFrom(LevelScans(t, keymap), KeyFilingsOf(t, keymap), MIN_KEYCODE, end, f);
    var k: nat :| MIN_KEYCODE <= k < end && f in KeyFilingsOf(t, keymap)(k);
    assert f in KeyFilings(t, keymap, k);
  }

  /** One key's dead keys are exactly those `DeadKeyAt` finds on its levels 2..end-1. */
  lemma {:induction false} KeyDeadLevelsMembers(keycode: nat, key: Key, end: nat, dk: DeadKey)
    ensures dk in KeyDeadLevels(keycode, key, end) <==>
      exists l: nat :: 2 <= l < end && DeadKeyAt(keycode, key, l) == Some(dk)
  {
    if end > 2 {
      KeyDeadLevelsMembers(keycode, key, end - 1, dk);
      var here := DeadKeyAt(keycode, key, end - 1);
      InStep(KeyDeadLevels(keycode, key, end), KeyDeadLevels(keycode, key, end - 1), here.ToSeq(), dk);
      if dk in KeyDeadLevels(keycode, key, end) && dk !in KeyDeadLevels(keycode, key, end - 1) {
        assert dk in here.ToSeq();
        assert here == Some(dk);
      }
      if exists l: nat :: 2 <= l < end && DeadKeyAt(keycode, key, l) == Some(dk) {
        var l: nat :| 2 <= l < end && DeadKeyAt(keycode, key, l) == Some(dk);
        if l == end - 1 {
          assert here.ToSeq() == [dk];
        }
      }
    }
  }

  /** A dead key of a keycode in 8..end-1 is in the dead-key scan up to `end`. */
  lemma DeadKeyScanHas(keymap: Keymap, end: nat, k: nat, dk: DeadKey)
    requires MIN_KEYCODE <= k < end && dk in KeyDeadKeys(keymap, k)
    ensures dk in DeadKeyScan(keymap, end)
  {
    DeadKeyScanIsScan(keymap);
    ScanHas(DeadKeyScans(keymap), KeyDeadKeysOf(keymap), MIN_KEYCODE, end, k, dk);
  }

  /** A dead key of the dead-key scan up to `end` is a dead key of a keycode in 8..end-1. */
  lemma DeadKeyScanFrom(keymap: Keymap, end: nat, dk: DeadKey)
    requires dk in DeadKeyScan(keymap, end)
    ensures exists k: nat :: MIN_KEYCODE <= k < end && dk in KeyDeadKeys(keymap, k)
  {
    DeadKeyScanIsScan(keymap);
    ScanFrom(DeadKeyScans(keymap), KeyDeadKeysOf(keymap), MIN_KEYCODE, end, dk);
    var k: nat :| MIN_KEYCODE <= k < end && dk in KeyDeadKeysOf(keymap)(k);
    assert dk in KeyDeadKeys(keymap, k);
  }

  /** A dead key's first `n` expansions are exactly what the expansion rule yields at table rows below `n`. */
  lemma {:induction false} ExpandDeadKeyMembers(t: Unicode.Tables, dk: DeadKey, combos: seq<(char, char)>, n: nat, f: Filing)
    ensures f in ExpandDeadKey(t, dk, combos, n) <==>
      exists c: nat :: c < n && DeadKeyExpansion(t, dk, combos, c) == Some(f)
  {
    if n > 0 {
      ExpandDeadKeyMembers(t, dk, combos, n - 1, f);
      var here := DeadKeyExpansion(t, dk, combos, n - 1);
      InStep(ExpandDeadKey(t, dk, combos, n), ExpandDeadKey(t, dk, combos, n - 1), here.ToSeq(), f);
      if f in ExpandDeadKey(t, dk, combos, n) && f !in ExpandDeadKey(t, dk, combos, n - 1) {
        assert f in here.ToSeq();
        assert here == Some(f);
      }
      if exists c: nat :: c < n && DeadKeyExpansion(t, dk, combos, c) == Some(f) {
        var c: nat :| c < n && DeadKeyExpansion(t, dk, combos, c) == Some(f);
        if c == n - 1 {
          assert here.ToSeq() == [f];
        }
      }
    }
  }

  /** The expansions of `dks` are exactly the expansions of its members. */
  lemma {:induction false} DeadFilingsMembers(t: Unicode.Tables, dks: seq<DeadKey>, f: Filing)
    ensures f in DeadFilings(t, dks) <==> exists dk :: dk in dks && f in DeadKeyFilings(t, dk)
  {
    if dks != [] {
      var init, last := dks[..|dks| - 1], dks[|dks| - 1];
      assert dks == init + [last];
      DeadFilingsMembers(t, init, f);
      InStep(DeadFilings(t, dks), DeadFilings(t, init), DeadKeyFilings(t, last), f);
      if exists dk :: dk in dks && f in DeadKeyFilings(t, dk) {
        var dk :| dk in dks && f in DeadKeyFilings(t, dk);
        if dk != last {
          assert dk in init;
        }
      }
    }
  }

  // ---------------------------------------------------------------------------
  // Each pass, and everything filed, characterised

  /** The level scan files a filing exactly when it comes from a scanned keycode by the level rule. */
  lemma LevelScanExactly(t: Unicode.Tables, keymap: Keymap, f: Filing)
    ensures f in LevelScan(t, keymap, KEYCODE_END) <==> Scanned(f.origin.keycode) && FromLevel(t, keymap, f)
  {
    if f in LevelScan(t, keymap, KEYCODE_END) {
      LevelScanFrom(t, keymap, KEYCODE_END, f);
      var k: nat :| MIN_KEYCODE <= k < KEYCODE_END && f in KeyFilings(t, keymap, k);
      var key := keymap.KeyAt(k);
      assert key.name.Some?;
      KeyLevelFilingsMembers(t, k, key, key.NumLevels(), f);
      var l: nat :| l < key.NumLevels() && LevelFiling(t, k, key, l) == Some(f);
      assert f.origin == Direct(k, l);
    }
    if Scanned(f.origin.keycode) && FromLevel(t, keymap, f) {
      var k := f.origin.keycode;
      var key := keymap.KeyAt(k);
      KeyLevelFilingsMembers(t, k, key, key.NumLevels(), f);
      assert f.origin.level < key.NumLevels();
      assert f in KeyFilings(t, keymap, k);
      LevelScanHas(t, keymap, KEYCODE_END, k, f);
    }
  }

  /** Every dead key of the scan lies on a scanned keycode and is a genuine dead key of the layout. */
  lemma ScannedDeadKey(keymap: Keymap, dk: DeadKey)
    requires dk in DeadKeyScan(keymap, KEYCODE_END)
    ensures Scanned(dk.keycode) && FoundDeadKey(keymap, dk)
  {
    DeadKeyScanFound(keymap, KEYCODE_END);
    DeadKeyScanFrom(keymap, KEYCODE_END, dk);
    var k: nat :| MIN_KEYCODE <= k < KEYCODE_END && dk in KeyDeadKeys(keymap, k);
    KeyDeadLevelsRange(k, keymap.KeyAt(k), DeadLevelEnd(keymap.KeyAt(k)));
  }

  /** Every expansion of a dead key carries the dead key's keycode. */
  lemma ExpansionKeycode(t: Unicode.Tables, dk: DeadKey, f: Filing)
    requires f in DeadKeyFilings(t, dk)
    ensures f.origin.keycode == dk.keycode
  {
    var combos := DeadKeyCombinations(dk.deadType);
    ExpandDeadKeyMembers(t, dk, combos, |combos|, f);
  }

  /** Every filing of the expansion pass comes from a scanned keycode by the expansion rule. */
  lemma DeadPassFrom(t: Unicode.Tables, keymap: Keymap, f: Filing)
    requires f in DeadFilings(t, DeadKeyScan(keymap, KEYCODE_END))
    ensures Scanned(f.origin.keycode) && FromDeadKey(t, keymap, f)
  {
    var dks := DeadKeyScan(keymap, KEYCODE_END);
    DeadFilingsMembers(t, dks, f);
    var dk :| dk in dks && f in DeadKeyFilings(t, dk);
    ScannedDeadKey(keymap, dk);
    DeadKeyFilingsFound(t, keymap, dk);
    ExpansionKeycode(t, dk, f);
  }

  /** Whatever the expansion rule yields on a scanned keycode is a filing of the expansion pass. */
  lemma DeadPassHas(t: Unicode.Tables, keymap: Keymap, f: Filing)
    requires Scanned(f.origin.keycode) && FromDeadKey(t, keymap, f)
    ensures f in DeadFilings(t, DeadKeyScan(keymap, KEYCODE_END))
  {
    var k, l := f.origin.keycode, f.origin.level;
    var key := keymap.KeyAt(k);
    var dk := DeadKeyAt(k, key, l).value;
    KeyDeadLevelsMembers(k, key, DeadLevelEnd(key), dk);
    assert dk in KeyDeadKeys(keymap, k);
    DeadKeyScanHas(keymap, KEYCODE_END, k, dk);
    var combos := DeadKeyCombinations(dk.deadType);
    ExpandDeadKeyMembers(t, dk, combos, |combos|, f);
    assert f.origin.combo < |combos|;
    assert f in DeadKeyFilings(t, dk);
    DeadFilingsMembers(t, DeadKeyScan(keymap, KEYCODE_END), f);
  }

  /** The expansion pass files a filing exactly when it comes from a scanned keycode by the expansion rule. */
  lemma DeadPassExactly(t: Unicode.Tables, keymap: Keymap, f: Filing)
    ensures f in DeadFilings(t, DeadKeyScan(keymap, KEYCODE_END)) <==> Scanned(f.origin.keycode) && FromDeadKey(t, keymap, f)
  {
    if f in DeadFilings(t, DeadKeyScan(keymap, KEYCODE_END)) {
      DeadPassFrom(t, keymap, f);
    }
    if Scanned(f.origin.keycode) && FromDeadKey(t, keymap, f) {
      DeadPassHas(t, keymap, f);
    }
  }

  /**
   * Everything `build` files, and nothing else: a filing is filed exactly
   * when its keycode is scanned and the level rule or the expansion rule
   * yields it there.
   */
  lemma AllFilingsExactly(t: Unicode.Tables, keymap: Keymap, f: Filing)
    ensures f in AllFilings(t, keymap) <==> Yields(t, keymap, f)
  {
    LevelScanExactly(t, keymap, f);
    DeadPassExactly(t, keymap, f);
  }

  /** The entry of a filing is in the list of its base letter. */
  lemma {:induction false} EntriesHas(fs: seq<Filing>, f: Filing)
    requires f in fs
    ensures f.Entry() in Entries(fs)
  {
    var init, last := fs[..|fs| - 1], fs[|fs| - 1];
    assert fs == init + [last];
    assert Entries(fs) == Entries(init) + [last.Entry()];
    if f != last {
      EntriesHas(init, f);
    }
  }

  /**
   * The list of base letter `b` after `build` holds exactly the entries of
   * the filings with base `b` that the level rule or the expansion rule
   * yields on a scanned keycode.
   */
  lemma BuildBucketExactly(t: Unicode.Tables, keymap: Keymap, b: char, e: ComposeEntry)
    ensures e in Bucket(BuildIndex(t, keymap), b) <==>
      exists f: Filing :: f.base == b && f.Entry() == e && Yields(t, keymap, f)
  {
    var fs := FilingsFor(AllFilings(t, keymap), b);
    BuildBucketOrdered(t, keymap, b);
    if e in Bucket(BuildIndex(t, keymap), b) {
      EntriesFrom(fs, e);
      var f :| f in fs && f.Entry() == e;
      AllFilingsExactly(t, keymap, f);
    }
    if exists f: Filing :: f.base == b && f.Entry() == e && Yields(t, keymap, f) {
      var f: Filing :| f.base == b && f.Entry() == e && Yields(t, keymap, f);
      AllFilingsExactly(t, keymap, f);
      FilingsForKeeps(AllFilings(t, keymap), b, f);
      EntriesHas(fs, f);
    }
  }

  /** Whatever the level rule yields on a named, scanned key is filed, and its entry is in its base letter's list. */
  lemma LevelScanComplete(t: Unicode.Tables, keymap: Keymap, keycode: nat, level: nat)
    requires Scanned(keycode) && keymap.KeyAt(keycode).name.Some?
    requires LevelFiling(t, keycode, keymap.KeyAt(keycode), level).Some?
    ensures var f := LevelFiling(t, keycode, keymap.KeyAt(keycode), level).value;
      f in AllFilings(t, keymap) && f.Entry() in Bucket(BuildIndex(t, keymap), f.base)
  {
    var f := LevelFiling(t, keycode, keymap.KeyAt(keycode), level).value;
    assert FromLevel(t, keymap, f);
    AllFilingsExactly(t, keymap, f);
    BuildBucketExactly(t, keymap, f.base, f.Entry());
  }

  /**
   * Every table row with a base letter, of every dead key on levels
   * 2..min(num_levels, 4)-1 of a named, scanned key, is filed, and its entry
   * is in its base letter's list.
   */
  lemma DeadKeyScanComplete(t: Unicode.Tables, keymap: Keymap, keycode: nat, level: nat, combo: nat)
    requires Scanned(keycode) && keymap.KeyAt(keycode).name.Some?
    requires 2 <= level < DeadLevelEnd(keymap.KeyAt(keycode))
    requires DeadKeyAt(keycode, keymap.KeyAt(keycode), level).Some?
    requires var dk := DeadKeyAt(keycode, keymap.KeyAt(keycode), level).value;
      DeadKeyExpansion(t, dk, DeadKeyCombinations(dk.deadType), combo).Some?
    ensures var dk := DeadKeyAt(keycode, keymap.KeyAt(keycode), level).value;
      var f := DeadKeyExpansion(t, dk, DeadKeyCombinations(dk.deadType), combo).value;
      f in AllFilings(t, keymap) && f.Entry() in Bucket(BuildIndex(t, keymap), f.base)
  {
    var dk := DeadKeyAt(keycode, keymap.KeyAt(keycode), level).value;
    var f := DeadKeyExpansion(t, dk, DeadKeyCombinations(dk.deadType), combo).value;
    assert FromDeadKey(t, keymap, f);
    AllFilingsExactly(t, keymap, f);
    BuildBucketExactly(t, keymap, f.base, f.Entry());
  }
}
