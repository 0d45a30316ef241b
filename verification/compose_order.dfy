/**
 * What the index built from a layout holds, and in which order.
 *
 * `FileAllBucket` says that filing a sequence of filings puts, under each
 * base letter, exactly the entries of the filings with that base, in the
 * order they were filed; `FileAllKeys` says which letters become keys. The
 * order of `AllFilings` is stated through `Precedes` on origins: level-scan
 * filings before dead-key filings, each pass in ascending keycode then
 * level, and dead-key expansions in table order.
 */
module ComposeOrder {
  import opened Wrappers
  import opened Layout
  import opened Compose
  import opened Scans

  // ---------------------------------------------------------------------------
  // Buckets and keys of a filed sequence

  /** The filings of `fs` with base letter `b`, in order. */
  function FilingsFor(fs: seq<Filing>, b: char): (r: seq<Filing>)
    ensures |r| <= |fs|
  {
    if fs == [] then []
    else
      var last := fs[|fs| - 1];
      FilingsFor(fs[..|fs| - 1], b) + (if last.base == b then [last] else [])
  }

  /** The entries of `fs`, in order. */
  function Entries(fs: seq<Filing>): (r: seq<ComposeEntry>)
    ensures |r| == |fs|
  {
    if fs == [] then [] else Entries(fs[..|fs| - 1]) + [fs[|fs| - 1].Entry()]
  }

  /** The base letters of `fs`. */
  function Bases(fs: seq<Filing>): set<char> {
    set i | 0 <= i < |fs| :: fs[i].base
  }

  lemma EntriesAppend(a: seq<Filing>, b: seq<Filing>)
    ensures Entries(a + b) == Entries(a) + Entries(b)
    decreases |b|
  {
    if b != [] {
      assert (a + b)[..|a + b| - 1] == a + b[..|b| - 1];
      EntriesAppend(a, b[..|b| - 1]);
    } else {
      assert a + b == a;
    }
  }

  /** Filing `fs` appends to each base letter's list the entries of the filings with that base. */
  lemma {:induction false} FileAllBucket(index: Index, fs: seq<Filing>, b: char)
    ensures Bucket(FileAll(index, fs), b) == Bucket(index, b) + Entries(FilingsFor(fs, b))
  {
    if fs == [] {
      AppendNil(Bucket(index, b));
    } else {
      var init, f := fs[..|fs| - 1], fs[|fs| - 1];
      FileAllBucket(index, init, b);
      var m := FileAll(index, init);
      var kept := FilingsFor(init, b);
      var tail := if f.base == b then [f] else [];
      assert FilingsFor(fs, b) == kept + tail;
      EntriesAppend(kept, tail);
      if f.base == b {
        assert Entries(tail) == [f.Entry()];
        assert Bucket(AddEntry(m, f.base, f.Entry()), b) == Bucket(m, b) + [f.Entry()];
        AppendAssoc(Bucket(index, b), Entries(kept), [f.Entry()]);
      } else {
        assert Entries(tail) == [];
        assert Bucket(AddEntry(m, f.base, f.Entry()), b) == Bucket(m, b);
        AppendNil(Entries(kept));
      }
    }
  }

  /** Filing `fs` makes keys of exactly the base letters of `fs`. */
  lemma {:induction false} FileAllKeys(index: Index, fs: seq<Filing>)
    ensures FileAll(index, fs).Keys == index.Keys + Bases(fs)
  {
    if fs != [] {
      FileAllKeys(index, fs[..|fs| - 1]);
      BasesSnoc(fs);
    }
  }

  /** The base letters of `fs` are those of all but its last filing, and the last filing's. */
  lemma BasesSnoc(fs: seq<Filing>)
    requires fs != []
    ensures Bases(fs) == Bases(fs[..|fs| - 1]) + {fs[|fs| - 1].base}
  {
    var init, f := fs[..|fs| - 1], fs[|fs| - 1];
    forall c | c in Bases(fs) ensures c in Bases(init) + {f.base} {
      var i :| 0 <= i < |fs| && fs[i].base == c;
      if i < |init| {
        assert init[i] == fs[i];
      }
    }
    forall c | c in Bases(init) ensures c in Bases(fs) {
      var i :| 0 <= i < |init| && init[i].base == c;
      assert fs[i] == init[i];
    }
  }

  /** Every filing of `fs` with base letter `b` is kept by `FilingsFor(fs, b)`. */
  lemma {:induction false} FilingsForKeeps(fs: seq<Filing>, b: char, f: Filing)
    requires f in fs && f.base == b
    ensures f in FilingsFor(fs, b)
  {
    var init, last := fs[..|fs| - 1], fs[|fs| - 1];
    assert fs == init + [last];
    if f != last {
      FilingsForKeeps(init, b, f);
    }
  }

  /** Every entry of `Entries(fs)` is the entry of a filing of `fs`. */
  lemma {:induction false} EntriesFrom(fs: seq<Filing>, e: ComposeEntry)
    requires e in Entries(fs)
    ensures exists f :: f in fs && f.Entry() == e
  {
    var init, last := fs[..|fs| - 1], fs[|fs| - 1];
    assert fs == init + [last];
    if e != last.Entry() {
      EntriesFrom(init, e);
      var f :| f in init && f.Entry() == e;
      assert f in fs;
    }
  }

  /** `count()` after `build` is the number of distinct base letters among everything filed. */
  lemma BuildCount(t: Unicode.Tables, keymap: Keymap)
    ensures ComposeIndex(BuildIndex(t, keymap)).Count() == |Bases(AllFilings(t, keymap))|
  {
    FileAllKeys(map[], AllFilings(t, keymap));
    assert BuildIndex(t, keymap).Keys == Bases(AllFilings(t, keymap));
  }

  /** After `build`, the list under `b` is the entries filed under `b`, in filing order. */
  lemma BuildBucket(t: Unicode.Tables, keymap: Keymap, b: char)
    ensures Bucket(BuildIndex(t, keymap), b) == Entries(FilingsFor(AllFilings(t, keymap), b))
  {
    FileAllBucket(map[], AllFilings(t, keymap), b);
    assert Bucket(map[], b) == [];
  }

  // ---------------------------------------------------------------------------
  // Order

  /** Lexicographic order on (keycode, level). */
  predicate LexLess(k1: nat, l1: nat, k2: nat, l2: nat) {
    k1 < k2 || (k1 == k2 && l1 < l2)
  }

  /**
   * The order in which the builder files: every level-scan filing before every
   * dead-key filing; level-scan filings by keycode then level; dead-key
   * filings by keycode, level, then position in the combination table.
   */
  predicate Precedes(o1: Origin, o2: Origin) {
    match (o1, o2)
    case (Direct(k1, l1), Direct(k2, l2)) => LexLess(k1, l1, k2, l2)
    case (Direct(_, _), ViaDeadKey(_, _, _)) => true
    case (ViaDeadKey(_, _, _), Direct(_, _)) => false
    case (ViaDeadKey(k1, l1, c1), ViaDeadKey(k2, l2, c2)) =>
      LexLess(k1, l1, k2, l2) || (k1 == k2 && l1 == l2 && c1 < c2)
  }

  /** The origins of `fs` are strictly increasing. */
  ghost predicate Ordered(fs: seq<Filing>) {
    forall i, j :: 0 <= i < j < |fs| ==> Precedes(fs[i].origin, fs[j].origin)
  }

  lemma OrderedAppend(a: seq<Filing>, b: seq<Filing>)
    requires Ordered(a) && Ordered(b)
    requires forall i, j :: 0 <= i < |a| && 0 <= j < |b| ==> Precedes(a[i].origin, b[j].origin)
    ensures Ordered(a + b)
  {
    forall i, j | 0 <= i < j < |a + b|
      ensures Precedes((a + b)[i].origin, (a + b)[j].origin)
    {
      if j < |a| {
        assert (a + b)[i] == a[i] && (a + b)[j] == a[j];
      } else if i < |a| {
        assert (a + b)[i] == a[i] && (a + b)[j] == b[j - |a|];
      } else {
        assert (a + b)[i] == b[i - |a|] && (a + b)[j] == b[j - |a|];
      }
    }
  }

  /** Keeping only the filings of one base letter keeps their order. */
  lemma {:induction false} FilingsForOrdered(fs: seq<Filing>, b: char)
    requires Ordered(fs)
    ensures Ordered(FilingsFor(fs, b))
    ensures forall g :: g in FilingsFor(fs, b) ==> g in fs && g.base == b
  {
    if fs != [] {
      var init, f := fs[..|fs| - 1], fs[|fs| - 1];
      assert Ordered(init) by {
        forall i, j | 0 <= i < j < |init| ensures Precedes(init[i].origin, init[j].origin) {
          assert init[i] == fs[i] && init[j] == fs[j];
        }
      }
      FilingsForOrdered(init, b);
      var kept := FilingsFor(init, b);
      var tail := if f.base == b then [f] else [];
      forall i, j | 0 <= i < |kept| && 0 <= j < |tail|
        ensures Precedes(kept[i].origin, tail[j].origin)
      {
        assert kept[i] in init;
        var k :| 0 <= k < |init| && init[k] == kept[i];
        assert fs[k] == init[k];
      }
      OrderedAppend(kept, tail);
      forall g | g in FilingsFor(fs, b) ensures g in fs && g.base == b {
        if g in kept {
          assert g in init;
        }
      }
    }
  }

  // ---------------------------------------------------------------------------
  // The level scan is ordered

  lemma {:induction false} KeyLevelFilingsOrdered(t: Unicode.Tables, keycode: nat, key: Key, n: nat)
    ensures Ordered(KeyLevelFilings(t, keycode, key, n))
    ensures forall i :: 0 <= i < |KeyLevelFilings(t, keycode, key, n)| ==>
      var o := KeyLevelFilings(t, keycode, key, n)[i].origin;
      o.Direct? && o.keycode == keycode && o.level < n
  {
    if n > 0 {
      KeyLevelFilingsOrdered(t, keycode, key, n - 1);
      var init := KeyLevelFilings(t, keycode, key, n - 1);
      var tail := LevelFiling(t, keycode, key, n - 1).ToSeq();
      assert forall j :: 0 <= j < |tail| ==> tail[j].origin == Direct(keycode, n - 1);
      OrderedAppend(init, tail);
      var s := init + tail;
      assert KeyLevelFilings(t, keycode, key, n) == s;
      forall i | 0 <= i < |s|
        ensures s[i].origin.Direct? && s[i].origin.keycode == keycode && s[i].origin.level < n
      {
        if i < |init| {
          assert s[i] == init[i];
        } else {
          assert s[i] == tail[i - |init|];
        }
      }
    }
  }

  /** Appending the filings of keycode `keycode` to level-scan filings of smaller keycodes. */
  lemma LevelScanStepOrdered(a: seq<Filing>, b: seq<Filing>, keycode: nat)
    requires Ordered(a) && Ordered(b)
    requires forall i :: 0 <= i < |a| ==> a[i].origin.Direct? && a[i].origin.keycode < keycode
    requires forall i :: 0 <= i < |b| ==> b[i].origin.Direct? && b[i].origin.keycode == keycode
    ensures Ordered(a + b)
    ensures forall i :: 0 <= i < |a + b| ==> (a + b)[i].origin.Direct? && (a + b)[i].origin.keycode < keycode + 1
  {
    OrderedAppend(a, b);
    forall i | 0 <= i < |a + b|
      ensures (a + b)[i].origin.Direct? && (a + b)[i].origin.keycode < keycode + 1
    {
      if i < |a| {
        assert (a + b)[i] == a[i];
      } else {
        assert (a + b)[i] == b[i - |a|];
      }
    }
  }

  /** Ordered filings, all from the level loop at keycode `keycode`. */
  ghost predicate DirectAt(fs: seq<Filing>, keycode: nat) {
    && Ordered(fs)
    && forall i :: 0 <= i < |fs| ==> fs[i].origin.Direct? && fs[i].origin.keycode == keycode
  }

  lemma KeyFilingsDirect(t: Unicode.Tables, keymap: Keymap, keycode: nat)
    ensures DirectAt(KeyFilings(t, keymap, keycode), keycode)
  {
    var key := keymap.KeyAt(keycode);
    KeyLevelFilingsOrdered(t, keycode, key, key.NumLevels());
  }

  /** A scan whose every keycode contributes its own ordered level filings is ordered, by keycode first. */
  lemma {:induction false} ScanDirectOrdered(scan: nat -> seq<Filing>, chunk: nat -> seq<Filing>, lo: nat, end: nat)
    requires IsScan(scan, chunk, lo)
    requires forall k: nat :: lo <= k < end ==> DirectAt(chunk(k), k)
    ensures Ordered(scan(end))
    ensures forall i :: 0 <= i < |scan(end)| ==> scan(end)[i].origin.Direct? && scan(end)[i].origin.keycode < end
  {
    if lo < end {
      ScanDirectOrdered(scan, chunk, lo, end - 1);
      assert scan(end) == scan(end - 1) + chunk(end - 1);
      LevelScanStepOrdered(scan(end - 1), chunk(end - 1), end - 1);
    }
  }

  lemma LevelScanOrdered(t: Unicode.Tables, keymap: Keymap, end: nat)
    ensures Ordered(LevelScan(t, keymap, end))
    ensures forall i :: 0 <= i < |LevelScan(t, keymap, end)| ==>
      LevelScan(t, keymap, end)[i].origin.Direct? && LevelScan(t, keymap, end)[i].origin.keycode < end
  {
    LevelScanIsScan(t, keymap);
    forall k: nat | MIN_KEYCODE <= k < end ensures DirectAt(KeyFilingsOf(t, keymap)(k), k) {
      KeyFilingsDirect(t, keymap, k);
    }
    ScanDirectOrdered(LevelScans(t, keymap), KeyFilingsOf(t, keymap), MIN_KEYCODE, end);
  }

  // ---------------------------------------------------------------------------
  // The dead-key scan is sorted, and so are its expansions

  /** Dead keys strictly increasing by (keycode, level). */
  ghost predicate DeadKeysSorted(dks: seq<DeadKey>) {
    forall i, j :: 0 <= i < j < |dks| ==> LexLess(dks[i].keycode, dks[i].level, dks[j].keycode, dks[j].level)
  }

  lemma DeadKeysSortedAppend(a: seq<DeadKey>, b: seq<DeadKey>)
    requires DeadKeysSorted(a) && DeadKeysSorted(b)
    requires forall i, j :: 0 <= i < |a| && 0 <= j < |b| ==> LexLess(a[i].keycode, a[i].level, b[j].keycode, b[j].level)
    ensures DeadKeysSorted(a + b)
  {
    forall i, j | 0 <= i < j < |a + b|
      ensures LexLess((a + b)[i].keycode, (a + b)[i].level, (a + b)[j].keycode, (a + b)[j].level)
    {
      if j < |a| {
        assert (a + b)[i] == a[i] && (a + b)[j] == a[j];
      } else if i < |a| {
        assert (a + b)[i] == a[i] && (a + b)[j] == b[j - |a|];
      } else {
        assert (a + b)[i] == b[i - |a|] && (a + b)[j] == b[j - |a|];
      }
    }
  }

  lemma {:induction false} KeyDeadLevelsSorted(keycode: nat, key: Key, end: nat)
    ensures DeadKeysSorted(KeyDeadLevels(keycode, key, end))
    ensures forall i :: 0 <= i < |KeyDeadLevels(keycode, key, end)| ==>
      KeyDeadLevels(keycode, key, end)[i].keycode == keycode && 2 <= KeyDeadLevels(keycode, key, end)[i].level < end
  {
    if end > 2 {
      KeyDeadLevelsSorted(keycode, key, end - 1);
      var init := KeyDeadLevels(keycode, key, end - 1);
      var tail := DeadKeyAt(keycode, key, end - 1).ToSeq();
      assert forall j :: 0 <= j < |tail| ==> tail[j].keycode == keycode && tail[j].level == end - 1;
      DeadKeysSortedAppend(init, tail);
      var s := init + tail;
      assert KeyDeadLevels(keycode, key, end) == s;
      forall i | 0 <= i < |s|
        ensures s[i].keycode == keycode && 2 <= s[i].level < end
      {
        if i < |init| {
          assert s[i] == init[i];
        } else {
          assert s[i] == tail[i - |init|];
        }
      }
    }
  }

  /** Appending the dead keys of keycode `keycode` to dead keys of smaller keycodes. */
  lemma DeadKeyScanStep(a: seq<DeadKey>, b: seq<DeadKey>, keycode: nat)
    requires DeadKeysSorted(a) && DeadKeysSorted(b)
    requires forall i :: 0 <= i < |a| ==> MIN_KEYCODE <= a[i].keycode < keycode && 2 <= a[i].level < 4
    requires forall i :: 0 <= i < |b| ==> b[i].keycode == keycode && 2 <= b[i].level < 4
    requires MIN_KEYCODE <= keycode
    ensures DeadKeysSorted(a + b)
    ensures forall i :: 0 <= i < |a + b| ==> MIN_KEYCODE <= (a + b)[i].keycode < keycode + 1 && 2 <= (a + b)[i].level < 4
  {
    DeadKeysSortedAppend(a, b);
    forall i | 0 <= i < |a + b|
      ensures MIN_KEYCODE <= (a + b)[i].keycode < keycode + 1 && 2 <= (a + b)[i].level < 4
    {
      if i < |a| {
        assert (a + b)[i] == a[i];
      } else {
        assert (a + b)[i] == b[i - |a|];
      }
    }
  }

  /** Sorted dead keys, all at keycode `keycode` on levels 2..3. */
  ghost predicate DeadKeysAt(dks: seq<DeadKey>, keycode: nat) {
    && DeadKeysSorted(dks)
    && forall i :: 0 <= i < |dks| ==> dks[i].keycode == keycode && 2 <= dks[i].level < 4
  }

  lemma KeyDeadKeysAt(keymap: Keymap, keycode: nat)
    ensures DeadKeysAt(KeyDeadKeys(keymap, keycode), keycode)
  {
    var key := keymap.KeyAt(keycode);
    KeyDeadLevelsSorted(keycode, key, DeadLevelEnd(key));
  }

  /** A scan from MIN_KEYCODE whose every keycode contributes its own sorted dead keys is sorted, by keycode first. */
  lemma {:induction false} ScanDeadKeysSorted(scan: nat -> seq<DeadKey>, chunk: nat -> seq<DeadKey>, end: nat)
    requires IsScan(scan, chunk, MIN_KEYCODE)
    requires forall k: nat :: MIN_KEYCODE <= k < end ==> DeadKeysAt(chunk(k), k)
    ensures DeadKeysSorted(scan(end))
    ensures forall i :: 0 <= i < |scan(end)| ==> MIN_KEYCODE <= scan(end)[i].keycode < end && 2 <= scan(end)[i].level < 4
  {
    if MIN_KEYCODE < end {
      ScanDeadKeysSorted(scan, chunk, end - 1);
      assert scan(end) == scan(end - 1) + chunk(end - 1);
      DeadKeyScanStep(scan(end - 1), chunk(end - 1), end - 1);
    }
  }

  lemma DeadKeyScanSorted(keymap: Keymap, end: nat)
    ensures DeadKeysSorted(DeadKeyScan(keymap, end))
    ensures forall i :: 0 <= i < |DeadKeyScan(keymap, end)| ==>
      MIN_KEYCODE <= DeadKeyScan(keymap, end)[i].keycode < end && 2 <= DeadKeyScan(keymap, end)[i].level < 4
  {
    DeadKeyScanIsScan(keymap);
    forall k: nat | MIN_KEYCODE <= k < end ensures DeadKeysAt(KeyDeadKeysOf(keymap)(k), k) {
      KeyDeadKeysAt(keymap, k);
    }
    ScanDeadKeysSorted(DeadKeyScans(keymap), KeyDeadKeysOf(keymap), end);
  }

  lemma {:induction false} ExpandDeadKeyOrdered(t: Unicode.Tables, dk: DeadKey, combos: seq<(char, char)>, n: nat)
    ensures Ordered(ExpandDeadKey(t, dk, combos, n))
    ensures forall i :: 0 <= i < |ExpandDeadKey(t, dk, combos, n)| ==>
      var o := ExpandDeadKey(t, dk, combos, n)[i].origin;
      o.ViaDeadKey? && o.keycode == dk.keycode && o.level == dk.level && o.combo < n
  {
    if n > 0 {
      ExpandDeadKeyOrdered(t, dk, combos, n - 1);
      var init := ExpandDeadKey(t, dk, combos, n - 1);
      var tail := DeadKeyExpansion(t, dk, combos, n - 1).ToSeq();
      assert forall j :: 0 <= j < |tail| ==> tail[j].origin == ViaDeadKey(dk.keycode, dk.level, n - 1);
      OrderedAppend(init, tail);
      var s := init + tail;
      assert ExpandDeadKey(t, dk, combos, n) == s;
      forall i | 0 <= i < |s|
        ensures s[i].origin.ViaDeadKey? && s[i].origin.keycode == dk.keycode && s[i].origin.level == dk.level
                && s[i].origin.combo < n
      {
        if i < |init| {
          assert s[i] == init[i];
        } else {
          assert s[i] == tail[i - |init|];
        }
      }
    }
  }

  lemma DeadBelowStep(a: seq<Filing>, b: seq<Filing>, dk: DeadKey, keycode: nat, level: nat)
    requires forall i :: 0 <= i < |a| ==> a[i].origin.ViaDeadKey? && LexLess(a[i].origin.keycode, a[i].origin.level, keycode, level)
    requires forall i :: 0 <= i < |b| ==>
      b[i].origin.ViaDeadKey? && b[i].origin.keycode == dk.keycode && b[i].origin.level == dk.level
    requires LexLess(dk.keycode, dk.level, keycode, level)
    ensures forall i :: 0 <= i < |a + b| ==>
      (a + b)[i].origin.ViaDeadKey? && LexLess((a + b)[i].origin.keycode, (a + b)[i].origin.level, keycode, level)
  {
    forall i | 0 <= i < |a + b|
      ensures (a + b)[i].origin.ViaDeadKey? && LexLess((a + b)[i].origin.keycode, (a + b)[i].origin.level, keycode, level)
    {
      if i < |a| {
        assert (a + b)[i] == a[i];
      } else {
        assert (a + b)[i] == b[i - |a|];
      }
    }
  }

  /** The expansions of dead keys all below (keycode, level) are all below it. */
  lemma {:induction false} DeadFilingsBelow(t: Unicode.Tables, dks: seq<DeadKey>, keycode: nat, level: nat)
    requires forall i :: 0 <= i < |dks| ==> LexLess(dks[i].keycode, dks[i].level, keycode, level)
    ensures forall i :: 0 <= i < |DeadFilings(t, dks)| ==>
      var o := DeadFilings(t, dks)[i].origin;
      o.ViaDeadKey? && LexLess(o.keycode, o.level, keycode, level)
  {
    if dks != [] {
      var init, dk := dks[..|dks| - 1], dks[|dks| - 1];
      DeadFilingsBelow(t, init, keycode, level);
      var combos := DeadKeyCombinations(dk.deadType);
      ExpandDeadKeyOrdered(t, dk, combos, |combos|);
      assert LexLess(dk.keycode, dk.level, keycode, level);
      DeadBelowStep(DeadFilings(t, init), DeadKeyFilings(t, dk), dk, keycode, level);
    }
  }

  lemma {:induction false} DeadFilingsOrdered(t: Unicode.Tables, dks: seq<DeadKey>)
    requires DeadKeysSorted(dks)
    ensures Ordered(DeadFilings(t, dks))
  {
    if dks != [] {
      var init, dk := dks[..|dks| - 1], dks[|dks| - 1];
      assert DeadKeysSorted(init) by {
        forall i, j | 0 <= i < j < |init|
          ensures LexLess(init[i].keycode, init[i].level, init[j].keycode, init[j].level)
        {
          assert init[i] == dks[i] && init[j] == dks[j];
        }
      }
      DeadFilingsOrdered(t, init);
      assert forall i :: 0 <= i < |init| ==> LexLess(init[i].keycode, init[i].level, dk.keycode, dk.level) by {
        forall i | 0 <= i < |init| ensures LexLess(init[i].keycode, init[i].level, dk.keycode, dk.level) {
          assert init[i] == dks[i];
        }
      }
      DeadFilingsBelow(t, init, dk.keycode, dk.level);
      var combos := DeadKeyCombinations(dk.deadType);
      ExpandDeadKeyOrdered(t, dk, combos, |combos|);
      OrderedAppend(DeadFilings(t, init), DeadKeyFilings(t, dk));
    }
  }

  /** Everything `build` files is in `Precedes` order. */
  lemma AllFilingsOrdered(t: Unicode.Tables, keymap: Keymap)
    ensures Ordered(AllFilings(t, keymap))
  {
    var dks := DeadKeyScan(keymap, KEYCODE_END);
    LevelScanOrdered(t, keymap, KEYCODE_END);
    DeadKeyScanSorted(keymap, KEYCODE_END);
    DeadFilingsOrdered(t, dks);
    DeadFilingsBelow(t, dks, KEYCODE_END, 0);
    OrderedAppend(LevelScan(t, keymap, KEYCODE_END), DeadFilings(t, dks));
  }

  /**
   * After `build`, the list under `b` holds the entries of the filings under
   * `b` in `Precedes` order: level-scan entries before dead-key entries,
   * ascending keycode then level, dead-key expansions in table order.
   */
  lemma BuildBucketOrdered(t: Unicode.Tables, keymap: Keymap, b: char)
    ensures Bucket(BuildIndex(t, keymap), b) == Entries(FilingsFor(AllFilings(t, keymap), b))
    ensures Ordered(FilingsFor(AllFilings(t, keymap), b))
    ensures forall f :: f in FilingsFor(AllFilings(t, keymap), b) ==> f in AllFilings(t, keymap) && f.base == b
  {
    BuildBucket(t, keymap, b);
    AllFilingsOrdered(t, keymap);
    FilingsForOrdered(AllFilings(t, keymap), b);
  }
}
