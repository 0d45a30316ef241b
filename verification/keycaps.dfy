/**
 * The split of a key-sequence string into the keycaps a result row draws.
 *
 * A sequence with a double space is a dead-key sequence: the text before the
 * first double space is the chord, split at its last '-' into modifier and
 * key, and the trimmed rest is the key pressed next. Any other sequence is
 * split at its last '-' into modifier and key, and one without '-' is a
 * single keycap.
 */
module Keycaps {
  import opened Wrappers
  import opened Unicode

  /** What a result row draws for a key sequence. */
  datatype Keycaps =
    | DeadKeyChord(modifier: string, key: string, next: string)  // modifier + key, then next
    | Combination(modifier: string, key: string)                // modifier + key
    | SingleKeycap(keycap: string)
    | NoKeycaps                                                  // a dead-key chord without '-'

  /** Whether `s` has two spaces at positions `j` and `j + 1`. */
  predicate DoubleSpaceAt(s: string, j: int) {
    0 <= j && j + 1 < |s| && s[j] == ' ' && s[j + 1] == ' '
  }

  /** `s.find("  ")`: the position of the first double space. */
  function FindDoubleSpace(s: string): (r: Option<nat>)
    ensures r.Some? ==> DoubleSpaceAt(s, r.value) && forall j :: 0 <= j < r.value ==> !DoubleSpaceAt(s, j)
    ensures r.None? ==> forall j :: !DoubleSpaceAt(s, j)
  {
    if |s| < 2 then None
    else if s[0] == ' ' && s[1] == ' ' then Some(0)
    else
      var r := FindDoubleSpace(s[1..]);
      assert forall j :: 1 <= j ==> (DoubleSpaceAt(s, j) <==> DoubleSpaceAt(s[1..], j - 1));
      assert !DoubleSpaceAt(s, 0);
      if r.None? then None else Some(r.value + 1)
  }

  /** `s.rfind(c)`: the position of the last `c`. */
  function RFind(s: string, c: char): (r: Option<nat>)
    ensures r.Some? ==> r.value < |s| && s[r.value] == c && forall j :: r.value < j < |s| ==> s[j] != c
    ensures r.None? <==> c !in s
  {
    if s == [] then None
    else if s[|s| - 1] == c then Some(|s| - 1)
    else
      assert s == s[..|s| - 1] + [s[|s| - 1]];
      RFind(s[..|s| - 1], c)
  }

  /** `str::trim_start`: drop leading whitespace. */
  function TrimStart(s: string): (r: string)
    ensures |r| <= |s| && r == s[|s| - |r|..]
    ensures forall j :: 0 <= j < |s| - |r| ==> IsWhitespace(s[j])
    ensures r != [] ==> !IsWhitespace(r[0])
  {
    if s != [] && IsWhitespace(s[0]) then TrimStart(s[1..]) else s
  }

  /** `str::trim_end`: drop trailing whitespace. */
  function TrimEnd(s: string): (r: string)
    ensures |r| <= |s| && r == s[..|r|]
    ensures forall j :: |r| <= j < |s| ==> IsWhitespace(s[j])
    ensures r != [] ==> !IsWhitespace(r[|r| - 1])
  {
    if s != [] && IsWhitespace(s[|s| - 1]) then TrimEnd(s[..|s| - 1]) else s
  }

  /** `str::trim`: drop whitespace at both ends. */
  function Trim(s: string): (r: string)
    ensures r != [] ==> !IsWhitespace(r[0]) && !IsWhitespace(r[|r| - 1])
    ensures r == [] <==> forall j :: 0 <= j < |s| ==> IsWhitespace(s[j])
    ensures exists i :: TrimmedAt(s, i, r)
  {
    var e := TrimEnd(s);
    var r := TrimStart(e);
    TrimBothEnds(s, e, r);
    r
  }

  /** Trimming the end and then the start leaves a slice with only whitespace around it. */
  lemma TrimBothEnds(s: string, e: string, r: string)
    requires e == TrimEnd(s) && r == TrimStart(e)
    ensures TrimmedAt(s, |e| - |r|, r)
    ensures r != [] ==> !IsWhitespace(r[0]) && !IsWhitespace(r[|r| - 1])
  {
    assert r != [] ==> r[|r| - 1] == e[|e| - 1];
    var i := |e| - |r|;
    assert r == e[i..] == s[i..|e|];
    assert forall k :: 0 <= k < i ==> s[k] == e[k];
  }

  /** `r` is the slice of `s` at `i`, with only whitespace before and after it. */
  predicate TrimmedAt(s: string, i: int, r: string) {
    && 0 <= i && i + |r| <= |s| && r == s[i..i + |r|]
    && (forall k :: 0 <= k < i ==> IsWhitespace(s[k]))
    && (forall k :: i + |r| <= k < |s| ==> IsWhitespace(s[k]))
  }

  /** The split of `draw_result`. */
  function SplitKeySequence(s: string): (r: Keycaps)
    ensures r.SingleKeycap? ==> r.keycap == s && Plain(s)
    ensures r.Combination? ==>
      && s == r.modifier + "-" + r.key && '-' !in r.key
      && forall j :: !DoubleSpaceAt(s, j)
    ensures r.DeadKeyChord? ==>
      && '-' !in r.key
      && exists p :: DoubleSpaceAt(s, p) && s[..p] == r.modifier + "-" + r.key && r.next == Trim(s[p..])
    ensures r.NoKeycaps? ==> exists p :: DoubleSpaceAt(s, p) && '-' !in s[..p]
  {
    match FindDoubleSpace(s)
    case Some(p) =>
      var firstPart := s[..p];
      var secondPart := Trim(s[p..]);
      (match RFind(firstPart, '-')
       case Some(d) =>
         CutAt(firstPart, d);
         DeadKeyChord(firstPart[..d], firstPart[d + 1..], secondPart)
       case None => NoKeycaps)
    case None =>
      match RFind(s, '-')
      case Some(d) =>
        CutAt(s, d);
        Combination(s[..d], s[d + 1..])
      case None => SingleKeycap(s)
  }

  /** Cutting at a '-' and joining the two sides with '-' gives the string back. */
  lemma CutAt(s: string, d: nat)
    requires d < |s| && s[d] == '-'
    ensures s == s[..d] + "-" + s[d + 1..]
  {
  }

  /** A string with no double space and no '-'. */
  predicate Plain(s: string) {
    '-' !in s && forall j :: 0 <= j < |s| ==> !DoubleSpaceAt(s, j)
  }

  /**
   * A sequence without a double space is a single keycap when it has no
   * '-', and otherwise the text before and after its last '-', which
   * together give back the whole sequence.
   */
  lemma SplitDirect(s: string)
    requires forall j :: !DoubleSpaceAt(s, j)
    ensures '-' !in s ==> SplitKeySequence(s) == SingleKeycap(s)
    ensures '-' in s ==>
      && SplitKeySequence(s).Combination?
      && s == SplitKeySequence(s).modifier + "-" + SplitKeySequence(s).key
      && '-' !in SplitKeySequence(s).key
  {
    if '-' in s {
      var d := RFind(s, '-').value;
      assert s == s[..d] + "-" + s[d + 1..];
    }
  }

  /**
   * A sequence with a double space splits into the chord before its first
   * double space, cut at the chord's last '-', and the trimmed rest; a chord
   * without '-' draws nothing.
   */
  lemma SplitDead(s: string, p: nat)
    requires DoubleSpaceAt(s, p) && forall j :: 0 <= j < p ==> !DoubleSpaceAt(s, j)
    ensures '-' !in s[..p] ==> SplitKeySequence(s) == NoKeycaps
    ensures '-' in s[..p] ==>
      && SplitKeySequence(s).DeadKeyChord?
      && s[..p] == SplitKeySequence(s).modifier + "-" + SplitKeySequence(s).key
      && '-' !in SplitKeySequence(s).key
      && SplitKeySequence(s).next == Trim(s[p..])
  {
    var q := FindDoubleSpace(s).value;
    assert q == p;
    if '-' in s[..p] {
      var d := RFind(s[..p], '-').value;
      assert s[..p] == s[..p][..d] + "-" + s[..p][d + 1..];
    }
  }

  /** The last '-' of `m + "-" + k` is the one after `m` when `k` has none. */
  lemma LastDash(m: string, k: string)
    requires '-' !in k
    ensures RFind(m + "-" + k, '-') == Some(|m|)
  {
    var s := m + "-" + k;
    assert s[|m|] == '-';
    assert forall j :: |m| < j < |s| ==> s[j] == k[j - |m| - 1];
  }

  /** Two spaces before a letter trim to the letter. */
  lemma TrimSpacesBefore(letter: char)
    requires !IsWhitespace(letter)
    ensures Trim("  " + [letter]) == [letter]
  {
    var s := "  " + [letter];
    assert TrimEnd(s) == s;
    assert s[1..] == " " + [letter] && s[1..][1..] == [letter];
  }

  /** A modifier and a key joined by '-' split back into them, when neither has a double space and the key has no '-'. */
  lemma SplitCombination(m: string, k: string)
    requires forall j :: !DoubleSpaceAt(m + "-" + k, j)
    requires '-' !in k
    ensures SplitKeySequence(m + "-" + k) == Combination(m, k)
  {
    var s := m + "-" + k;
    LastDash(m, k);
    assert s[..|m|] == m && s[|m| + 1..] == k;
  }

  /** The first double space of a chord without spaces, two spaces and a letter is the one after the chord. */
  lemma FirstDoubleSpace(chord: string, letter: char)
    requires ' ' !in chord
    ensures FindDoubleSpace(chord + "  " + [letter]) == Some(|chord|)
  {
    var s := chord + "  " + [letter];
    assert forall j :: 0 <= j < |chord| ==> s[j] == chord[j];
    assert DoubleSpaceAt(s, |chord|);
    var r := FindDoubleSpace(s).value;
    assert !DoubleSpaceAt(s, r) || r >= |chord|;
  }

  /**
   * A dead-key chord `m-k` followed by two spaces and a letter splits back
   * into the modifier, the key and the letter, when the chord has no space
   * and the key no '-'.
   */
  lemma SplitDeadKeyChord(m: string, k: string, letter: char)
    requires ' ' !in m && ' ' !in k && '-' !in k
    requires !IsWhitespace(letter)
    ensures SplitKeySequence(m + "-" + k + "  " + [letter]) == DeadKeyChord(m, k, [letter])
  {
    var chord := m + "-" + k;
    var s := chord + "  " + [letter];
    assert s[..|chord|] == chord;
    assert s[|chord|..] == "  " + [letter];
    assert chord[|m|] == '-';
    assert ' ' !in chord;
    FirstDoubleSpace(chord, letter);
    TrimSpacesBefore(letter);
    SplitDead(s, |chord|);
    var r := SplitKeySequence(s);
    DashSplitUnique(m, k, r.modifier, r.key);
  }

  /** A text has one split at a '-' that leaves no '-' after it. */
  lemma DashSplitUnique(m: string, k: string, m2: string, k2: string)
    requires m + "-" + k == m2 + "-" + k2
    requires '-' !in k && '-' !in k2
    ensures m == m2 && k == k2
  {
    LastDash(m, k);
    LastDash(m2, k2);
    var s := m + "-" + k;
    assert s[..|m|] == m && s[|m| + 1..] == k;
    assert s[..|m2|] == m2 && s[|m2| + 1..] == k2;
  }

  /** A key labelled '-' at AltGr splits into the modifier "AltGr-" and an empty key. */
  lemma HyphenKey()
    ensures SplitKeySequence("AltGr--") == Combination("AltGr-", "")
  {
    var m, s := "AltGr-", "AltGr--";
    assert s == m + "-" + "";
    assert ' ' !in s;
    SplitCombination(m, "");
  }
}
