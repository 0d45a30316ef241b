# kbdviz compose index and result list, in Dafny

kbdviz is a small Wayland overlay. You type a letter and it lists every
accented or related character your keyboard layout can produce for that
letter, together with the keys that produce it. Clicking a row copies the
character.

This project models two parts of it.

The compose index (`src/compose.rs`):
- `ComposeIndex::build` scans keycodes 8..255 of the layout. For levels 0..3
  it classifies the level's first keysym and skips:
  - plain lowercase ASCII at level 0;
  - Shift-capitals at level 1;
  - the obvious AltGr+Shift capital at level 3;
  - control and whitespace characters.
- Each surviving character becomes an entry spelled as the modifier prefix
  followed by the key's label.
- A second scan finds dead keys on levels 2..3. They are expanded through
  `get_dead_key_combinations` into entries spelled as the chord, two spaces
  and the base letter.
- Every entry is filed under the base letter `find_base_char` gives its
  character. `find_variants` looks a typed letter up.

The result list (`src/ui.rs`):
- the key handler that keeps a one-letter filter;
- the click and hover hit-testing over the result rows;
- the rebuilding of the click regions in `render`;
- the split of a key-sequence string into the keycaps a row draws.

The split undoes the spelling that `build` produces. That gives a round
trip across the two files: splitting any stored key sequence recovers the
level's modifier and the key label, and for a dead key also the base letter.
This holds whenever the key label contains neither `-` nor a double space.

Structure:
- `wrappers.dfy`: `Option` and `Result`.
- `unicode.dfy`: Rust's `char` predicates. The ASCII ones, `is_control` and
  `is_whitespace` are exact. Canonical decomposition, case mapping and
  `is_alphabetic` form a parameter `Tables`.
- `layout.dfy`: the keyboard layout as a plain value. Each keycode has an
  optional name and, per level, its keysyms (code point and name).
- `scans.dfy`: membership in a scan that appends, keycode by keycode, what
  each keycode contributes; both passes of `build` are such scans.
- `compose.dfy`: the index.
  - `Build` and its loops are methods.
  - Each method is proved to compute `BuildIndex`, a specification function.
    `BuildIndex` files the filings of the level scan and then those of the
    dead-key expansions.
  - Each filing carries its origin: keycode, level and table row.
- `compose_order.dfy`: the contents and order of each bucket, and the count.
- `compose_properties.dfy`:
  - the rules of the classifier, the labels and the dead-key pass;
  - the validity of the built index;
  - the lookup.
- `compose_complete.dfy`: the converse of the rules, so that each built list
  holds exactly what the rules yield on keycodes 8..255.
- `keycaps.dfy`: the key-sequence split of `draw_result` and its inverse
  lemmas.
- `roundtrip.dfy`: the round trip from `build` to the split.
- `ui.dfy`: the window state as a class with the three event handlers and the
  click-region part of `render`.

## Model

| member | source | states |
|---|---|---|
| Compose.AddEntry | src/compose.rs:226-241 | appends exactly one entry at the end of `base`'s list, creating the list when absent; every other key keeps its list; the key set grows by `base` only |
| Compose.AddEntryValid | src/compose.rs:129-131 | filing a character under the base letter `find_base_char` gives it keeps every list non-empty and every stored character based on its key |
| Compose.FindBaseChar | src/compose.rs:293-318 | the result is None or an ASCII lowercase letter |
| Compose.BaseOverride | src/compose.rs:305-316 | the override table maps only to ASCII lowercase letters |
| Compose.ReplacePlus | src/compose.rs:126 | `replace('+', "-")`: same length, every `+` becomes `-`, every other character is kept |
| Compose.SkipsLevel | src/compose.rs:73-101 | levels from 4 on are always skipped, level 2 never; at levels 0..2 a character that is not an ASCII letter is never skipped; at level 3 nothing is skipped when the level-2 character is missing or is its own uppercase |
| Compose.ModifierPrefix | src/compose.rs:73-101 | the level match gives no prefix exactly when the classifier skips; a prefix it gives belongs to a level below 4, has the length of the level's chord prefix and contains no `-` |
| Compose.ModifierPrefixClassifies | src/compose.rs:73-101 | the level match skips exactly when the classifier says so; when it does not skip, the prefix with `+` replaced by `-` is the level's chord prefix, and the level is below 4 |
| Compose.GraphicBase | src/compose.rs:109-123 | the level-0 character used as a label is ASCII graphic |
| Compose.PhysicalLabel | src/compose.rs:104-123 | the key label is the level-0 keysym's character when it is ASCII graphic, and otherwise the key name, or `?` for a key without one; the label is empty only for a key whose name is empty |
| Compose.Level2Char | src/compose.rs:43-52 | the first character of level 2, None when level 2 has no keysym; the guard on the level count changes nothing, since a level past the count has no keysyms |
| Compose.LevelFiling | src/compose.rs:54-131 | a filing of the level loop comes from this keycode and level, the level is below 4 and below the key's level count |
| Compose.DeadKeyAt | src/compose.rs:148-178 | a dead key found at a level carries that keycode and level, and its keysym name starts with `dead_` |
| Compose.DeadKeyCombinations | src/compose.rs:245-289 | every base letter of the dead-key table is ASCII lowercase |
| Compose.DeadKeyExpansion | src/compose.rs:185-190 | an expansion comes from this dead key's keycode and level and from table row `combo` |
| Compose.ComposeIndex.Count | src/compose.rs:19-21 | `count()` is zero exactly for the empty index, and positive once any base letter has a list |
| Compose.ComposeIndex.FindVariants | src/compose.rs:200-222 | empty input gives an empty list; otherwise the result starts with the list of the lowercase of the first character, and is exactly that list when the character is not uppercase |
| Compose.Build | src/compose.rs:24-197 | always `Ok`, holding `BuildIndex`, which is a valid index: no empty list, and every character is filed under its base letter |
| Compose.ScanLevels | src/compose.rs:31-134 | the level loop over keycodes 8..255 leaves the index holding the filings of `LevelScan`, in order, and the index stays valid |
| Compose.ScanKeyLevels | src/compose.rs:40-133 | the loop over one key's levels appends that key's level filings to the index, keeping it valid |
| Compose.ScanLevel | src/compose.rs:56-131 | one level files something exactly when `LevelFiling` does: the same base and entry, and the entry is well filed |
| Compose.ScanDeadKeys | src/compose.rs:137-180 | the dead-key scan collects the (chord, keysym name) pair of each dead key of `DeadKeyScan`, in order |
| Compose.ScanKeyDeadKeys | src/compose.rs:146-179 | the pairs of one key are those of its levels 2..min(levels, 4) that hold a dead key, in ascending level |
| Compose.ScanDeadLevel | src/compose.rs:149-178 | one level yields a pair exactly when `DeadKeyAt` finds a dead key there, and the pair is its chord and keysym name |
| Compose.ExpandDeadKeys | src/compose.rs:183-192 | expanding every collected dead key appends `DeadFilings` to the level index, in order, keeping it valid |
| Compose.ExpandDeadKeyInto | src/compose.rs:184-191 | one dead key's table rows are filed in table order |
| Compose.ExpandCombination | src/compose.rs:186-190 | one table row files something exactly when `DeadKeyExpansion` does, with the same base and entry, well filed |
| ComposeOrder.FileAllBucket | src/compose.rs:226-241 | after filing a sequence, a key's list is its old list followed by the entries of exactly the filings with that base, in order |
| ComposeOrder.FileAllKeys | src/compose.rs:226-241 | after filing a sequence, the keys are the old keys plus the bases of the filings |
| ComposeOrder.BuildCount | src/compose.rs:19-21 | `count()` of the built index is the number of distinct base letters among all filings |
| ComposeOrder.BuildBucket | src/compose.rs:24-197 | the built list of a base letter holds the entries of exactly the filings with that base, in discovery order |
| ComposeOrder.FilingsForOrdered | src/compose.rs:226-241 | selecting one base's filings keeps their order and keeps only filings with that base |
| ComposeOrder.KeyLevelFilingsOrdered | src/compose.rs:54-132 | one key's level filings come in ascending level, all from that keycode |
| ComposeOrder.LevelScanOrdered | src/compose.rs:31-134 | the level scan's filings come in ascending keycode, then ascending level |
| ComposeOrder.KeyDeadLevelsSorted | src/compose.rs:148-179 | one key's dead keys come in ascending level, on levels from 2 up to the bound |
| ComposeOrder.DeadKeyScanSorted | src/compose.rs:139-180 | the dead keys come in ascending keycode, then ascending level, with keycodes from 8 up to the bound and levels 2..3 |
| ComposeOrder.ExpandDeadKeyOrdered | src/compose.rs:185-191 | one dead key's expansions follow the table order |
| ComposeOrder.DeadFilingsBelow | src/compose.rs:183-192 | the expansions of dead keys that all precede a position also precede it |
| ComposeOrder.DeadFilingsOrdered | src/compose.rs:183-192 | the expansions come in ascending keycode, then level, then table row |
| ComposeOrder.AllFilingsOrdered | src/compose.rs:31-192 | every level-scan filing precedes every dead-key filing, and each pass is ordered |
| ComposeOrder.BuildBucketOrdered | src/compose.rs:31-192 | each built list is ordered: level-scan entries first, by keycode then level, then the dead-key entries, by keycode, level and table row |
| ComposeProperties.FindBaseCharCases | src/compose.rs:293-318 | an ASCII-letter first code point gives that letter lowercased; otherwise the override table decides; anything else gives None |
| ComposeProperties.AsciiLetterBase | src/compose.rs:301-302 | an ASCII letter is filed under its own lowercase |
| ComposeProperties.StrokeNeverFiled | src/compose.rs:284-286 | `ł` and `ø` have no ASCII-letter decomposition and no override, so the `dead_stroke` expansions file nothing |
| ComposeProperties.DeadKeyCombinationsKnown | src/compose.rs:245-289 | the table is empty exactly for names other than the thirteen known dead keys |
| ComposeProperties.UnknownDeadKeyFilesNothing | src/compose.rs:183-191 | an unknown dead key files nothing |
| ComposeProperties.ChordPrefixShape | src/compose.rs:73-101 | the prefix of levels 0..3 is `""`, `"Shift-"`, `"AltGr-"` or `"AltGr-Shift-"`; it has no `+`; at levels 2 and 3 it is the dead-key chord prefix |
| ComposeProperties.LevelFilingRule | src/compose.rs:54-131 | a level files a character exactly when its first keysym has a code point that is not control or whitespace, the classifier keeps it and it has a base; the entry is that character with the level's prefix and the key label |
| ComposeProperties.LevelSkipRules | src/compose.rs:68-101 | controls, whitespace, lowercase ASCII at level 0, uppercase ASCII at level 1, the level-2 capital at level 3, and levels from 4 on file nothing |
| ComposeProperties.NoCharLevel2 | src/compose.rs:43-52 | a level-2 keysym without a character (U+0000 in the source, None here) makes the level-3 test skip the same characters either way |
| ComposeProperties.DeadKeyAtRule | src/compose.rs:149-178 | a level holds a dead key exactly when its first keysym's name starts with `dead_` and the key's level-0 character is ASCII graphic; the chord is the level's AltGr prefix and that character, and the dead-key type is the keysym name |
| ComposeProperties.KeyDeadLevelsRange | src/compose.rs:148-179 | every dead key collected for a key lies on a level from 2 up to the bound, and is the dead key found at that level |
| ComposeProperties.KeyDeadKeysFound | src/compose.rs:142-179 | a named key's dead keys are all genuine dead keys of the layout |
| ComposeProperties.DeadKeyScanFound | src/compose.rs:139-180 | every collected dead key is a genuine dead key of the layout; the converse is `ComposeComplete.DeadKeyScanComplete` |
| ComposeProperties.DeadKeyExpansionRule | src/compose.rs:184-190 | a table row files something exactly when its result character has a base; the entry is that character spelled as chord, two spaces, base letter |
| ComposeProperties.KeyLevelFilingsFound | src/compose.rs:54-132 | every level filing of a key is `LevelFiling` of that key at a level below its count |
| ComposeProperties.KeyFilingsFound | src/compose.rs:34-133 | every filing of one keycode comes from a named key and is the level rule's filing at its level |
| ComposeProperties.LevelScanFound | src/compose.rs:31-134 | every level-scan filing is the level rule's filing at its origin; the converse is `ComposeComplete.LevelScanComplete` |
| ComposeProperties.ExpandDeadKeyFound | src/compose.rs:185-191 | every expansion is the expansion rule's filing at its table row |
| ComposeProperties.DeadKeyFilingsFound | src/compose.rs:183-191 | the expansions of a genuine dead key come from the layout at their origin |
| ComposeProperties.DeadFilingsFound | src/compose.rs:183-192 | every dead-key filing comes from the layout at its origin |
| ComposeProperties.AllFilingsFound | src/compose.rs:24-192 | everything `build` files comes from the level rule or the expansion rule at its origin; the converse is `ComposeComplete.AllFilingsExactly` |
| ComposeProperties.AllFilingsWellFiled | src/compose.rs:129-131 | every filing's base is `find_base_char` of its character, so characters without a base are never stored |
| ComposeProperties.BuildIndexValid | src/compose.rs:129-190 | the built index is valid: no empty list, and each stored character has `find_base_char` equal to its key |
| ComposeProperties.FindVariantsFirstOnly | src/compose.rs:202 | characters after the first are ignored |
| ComposeProperties.FindVariantsUppercase | src/compose.rs:212-216 | for an uppercase first character, the list of its uppercase is appended after the lowercase list |
| ComposeProperties.ValidKeysLower | src/compose.rs:298-302 | every key of a valid index is an ASCII lowercase letter |
| ComposeProperties.FindVariantsAsciiCapital | src/compose.rs:208-216 | in a valid index an ASCII capital finds exactly what its lowercase finds, the lowercase list alone |
| ComposeProperties.FindVariantsBases | src/compose.rs:200-222 | in a valid index every variant found is one character whose base is the lowercase of the first input character, or, when that character is uppercase, its uppercase |
| ComposeComplete.KeyLevelFilingsMembers | src/compose.rs:54-132 | a filing is among one key's level filings exactly when the level rule yields it at some level below the bound |
| ComposeComplete.LevelScanHas | src/compose.rs:31-134 | every filing of a keycode from 8 up to the bound is in the level scan |
| ComposeComplete.LevelScanFrom | src/compose.rs:31-134 | every filing of the level scan belongs to a keycode from 8 up to the bound |
| ComposeComplete.KeyDeadLevelsMembers | src/compose.rs:148-179 | a dead key is among one key's dead-key levels exactly when it is the dead key found at some level from 2 up to the bound |
| ComposeComplete.DeadKeyScanHas | src/compose.rs:139-180 | every dead key of a keycode from 8 up to the bound is collected by the dead-key scan |
| ComposeComplete.DeadKeyScanFrom | src/compose.rs:139-180 | every collected dead key belongs to a keycode from 8 up to the bound |
| ComposeComplete.ExpandDeadKeyMembers | src/compose.rs:185-191 | a filing is among a dead key's expansions exactly when the expansion rule yields it at some table row |
| ComposeComplete.DeadFilingsMembers | src/compose.rs:183-192 | a filing is among the expansions exactly when it expands one of the collected dead keys |
| ComposeComplete.LevelScanExactly | src/compose.rs:31-134 | the level scan holds exactly the level rule's filings on keycodes 8..255 |
| ComposeComplete.DeadPassExactly | src/compose.rs:137-192 | the dead-key pass files exactly the expansion rule's filings of genuine dead keys on keycodes 8..255 |
| ComposeComplete.AllFilingsExactly | src/compose.rs:24-192 | `build` files exactly what the level rule or the expansion rule yields on keycodes 8..255: nothing is missing and nothing else is there |
| ComposeComplete.BuildBucketExactly | src/compose.rs:24-197 | an entry is in the built list of a base letter exactly when some filing the rules yield on keycodes 8..255 has that base and that entry |
| ComposeComplete.LevelScanComplete | src/compose.rs:31-134 | on a named key with keycode 8..255, every filing the level rule yields is filed by `build` and its entry is in the list of its base letter |
| ComposeComplete.DeadKeyScanComplete | src/compose.rs:137-192 | on a named key with keycode 8..255, every dead key found on levels 2..min(levels, 4) - 1 is expanded, and every table row of it that has a base is filed by `build`, its entry in the list of its base letter |
| Keycaps.FindDoubleSpace | src/ui.rs:418 | `find("  ")`: the position of the first double space, or None when there is none |
| Keycaps.RFind | src/ui.rs:424 | `rfind('-')`: the position of the last occurrence, None exactly when there is none |
| Keycaps.TrimStart | src/ui.rs:421 | drops exactly the leading whitespace |
| Keycaps.TrimEnd | src/ui.rs:421 | drops exactly the trailing whitespace |
| Keycaps.Trim | src/ui.rs:421 | the result is a slice of the text with only whitespace before and after it; it starts and ends with non-whitespace, and is empty exactly when the text is all whitespace |
| Keycaps.SplitKeySequence | src/ui.rs:418-447 | one keycap is the whole text, without `-` or double space; a combination rebuilds the text as modifier, `-` and key, with no `-` in the key and no double space in the text; a dead-key chord is the text before a double space cut at a `-` the key does not contain, with the trimmed rest as next keycap; nothing is drawn only when the text before a double space has no `-` |
| Keycaps.SplitDirect | src/ui.rs:435-447 | without a double space: no `-` gives one keycap; otherwise modifier and key are the parts around the last `-` and rebuild the text |
| Keycaps.SplitDead | src/ui.rs:418-434 | with a double space: the chord before the first one is cut at its last `-` into modifier and key, and the next keycap is the trimmed rest; a chord without `-` draws nothing |
| Keycaps.LastDash | src/ui.rs:424 | the last `-` of `m-k` is the one after `m` when `k` has none |
| Keycaps.TrimSpacesBefore | src/ui.rs:421 | two spaces and a letter trim to the letter |
| Keycaps.FirstDoubleSpace | src/ui.rs:418 | the first double space of a space-free chord, two spaces and a letter follows the chord |
| Keycaps.SplitCombination | src/ui.rs:435-443 | `m-k` splits back into `m` and `k` when there is no double space and `k` has no `-` |
| Keycaps.SplitDeadKeyChord | src/ui.rs:418-433 | `m-k`, two spaces and a letter split back into `m`, `k` and the letter |
| Keycaps.HyphenKey | src/ui.rs:435-438 | a key labelled `-` at AltGr, spelled `AltGr--`, splits into modifier `AltGr-` and an empty key |
| RoundTrip.ChordPrefixModifier | src/compose.rs:176 | the prefix of levels 1..3, and the dead-key prefix of levels 2..3, are the modifier keycap followed by `-` |
| RoundTrip.SplitChord | src/compose.rs:126 | a level's sequence splits into the level's modifier and the key label, or into the label alone at level 0 |
| RoundTrip.SplitDeadKeyThen | src/compose.rs:187 | a dead-key sequence splits into the chord's modifier, its key and the base letter |
| RoundTrip.LevelFilingSplits | src/compose.rs:126 | a level filing's sequence splits into the keycaps read off the layout at its origin |
| RoundTrip.DeadFilingSplits | src/compose.rs:176-187 | a dead-key filing's sequence splits into the keycaps read off the layout at its origin |
| RoundTrip.BuildSequencesSplit | src/ui.rs:418-438 | every sequence `build` files whose key label has no `-` and no double space splits into the modifier, key label and base letter of its origin |
| RoundTrip.BuildEntriesSplit | src/ui.rs:418-438 | every entry of a built list comes from a filing with that base, and its sequence splits back as above |
| Ui.FirstHit | src/ui.rs:113-119 | the first region with `y_start <= y < y_end`, or None when no region contains `y` |
| Ui.RowRegions | src/ui.rs:179-193 | `n` regions; region `i` covers `[68 + 34i, 68 + 34(i + 1))` and carries result `i`'s character |
| Ui.RowHit | src/ui.rs:174-193 | a point hits row `(y - 68) / 34` when it lies within the listed rows, and no row otherwise |
| Ui.CharRefUI.constructor | src/ui.rs:72-85 | a new window has an empty filter, no regions, and nothing copied or hovered |
| Ui.CharRefUI.Results | src/ui.rs:152-156 | an empty filter shows nothing and does no lookup |
| Ui.CharRefUI.HandleKeyPress | src/ui.rs:88-107 | clears the copied mark; BackSpace empties the filter; an alphabetic character becomes the whole filter; any other key leaves it; the filter keeps at most one character |
| Ui.CharRefUI.HandleClick | src/ui.rs:110-122 | returns the character of the first row under `y` and marks that row copied; with no row under `y`, returns None and keeps the mark |
| Ui.CharRefUI.HandleMouseMove | src/ui.rs:125-142 | the hovered row becomes the first row under `y`, and the result is true exactly when it changed |
| Ui.CharRefUI.Render | src/ui.rs:144-193 | the regions are rebuilt from empty as the first min(10, number of results) rows of the current results |

## Left out

- Wayland, the layer shell, the event loop, the ESC key and copying via a
  `wl-copy` child process (`src/main.rs`) are I/O. They are not part of this
  model.
- `src/keyboard.rs` and the xkbcommon keymap are replaced by the plain value
  `Layout.Keymap`. `keysym_to_utf32` followed by `char::from_u32` becomes the
  symbol's optional code point. A keysym with no character maps to U+0000 in
  the source, which is a control character and not graphic, so the model
  treats it as no character. At level 3 the comparison against the level-2
  character is unaffected because U+0000 uppercases to itself, which
  `AsciiConsistent` requires.
- Canonical decomposition, `to_uppercase`, `to_lowercase`, `is_uppercase` and
  `is_alphabetic` are the parameter `Unicode.Tables`. Facts about ASCII
  letters are assumed only through the precondition `AsciiConsistent`.
- `find_base_char` tests `is_alphabetic() && is_ascii()`, which for ASCII
  is exactly `IsAsciiLetter`.
- The doc comment on `find_base_char` (src/compose.rs:292) says `ø` maps to
  `o`. The code has no such case, and the model follows the code.
  `StrokeNeverFiled` shows that the `dead_stroke` expansions are then never
  stored, given tables in which `ł` and `ø` do not decompose.
- The `"?"` fallback for an unnamed key (src/compose.rs:104) is modelled but
  unreachable, because unnamed keys are skipped first.
- Compose.ComposeIndex.Count: its own contract says only when the count is
  zero; its exact value for the built index is stated by
  `ComposeOrder.BuildCount`.
- `Build` is modelled as always returning `Ok`, as the source does; no error
  path exists.
- The `eprintln!` summary line, `Arc` sharing of the index, and concurrency
  are left out.
- Drawing is left out: pixel fills, rounded rectangles, text shaping with
  `cosmic_text`, colours, keycap widths and the buffer hand-off
  (src/ui.rs:146-147, 158-172, 177, 181-183, 204-447 apart from the split).
- `draw_result`'s split is modelled as the pure function
  `Keycaps.SplitKeySequence` returning the keycaps to draw, not the drawing.
- Mouse coordinates are f64 values cast to f32 in the source. The model uses
  integers; all region bounds are integer constants.
- Strings are sequences of `char`. `find` and `rfind` return byte offsets in
  the source and character positions in the model. The slices they cut are
  the same.
