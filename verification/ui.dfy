/**
 * The character-reference window's state: the one-letter filter typed so
 * far, the clickable result rows of the last render, and which row was
 * copied or is hovered. Drawing is not modelled; `Render` keeps only the
 * rebuilding of the click regions.
 */
module Ui {
  import opened Wrappers
  import opened Unicode
  import opened Compose

  /** A clickable result row: the vertical span it covers and the character it copies. */
  datatype ClickRegion = ClickRegion(yStart: int, yEnd: int, character: string)

  predicate Hits(region: ClickRegion, y: int) {
    region.yStart <= y < region.yEnd
  }

  /** The index of the first region whose span contains `y`. */
  function FirstHit(regions: seq<ClickRegion>, y: int): (r: Option<nat>)
    ensures r.Some? ==>
      && r.value < |regions| && Hits(regions[r.value], y)
      && forall j :: 0 <= j < r.value ==> !Hits(regions[j], y)
    ensures r.None? ==> forall j :: 0 <= j < |regions| ==> !Hits(regions[j], y)
  {
    if regions == [] then None
    else if Hits(regions[0], y) then Some(0)
    else
      var rest := FirstHit(regions[1..], y);
      if rest.None? then None else Some(rest.value + 1)
  }

  /** Where the first result row starts, the height of a row, and how many rows are listed. */
  const FIRST_ROW_Y: int := 68
  const ROW_HEIGHT: int := 34
  const MAX_ROWS: nat := 10

  /** The region of result row `i`. */
  function RowRegion(results: seq<ComposeEntry>, i: nat): ClickRegion
    requires i < |results|
  {
    ClickRegion(FIRST_ROW_Y + ROW_HEIGHT * i, FIRST_ROW_Y + ROW_HEIGHT * (i + 1), results[i].character)
  }

  /** The regions of the first `n` result rows, top to bottom. */
  function RowRegions(results: seq<ComposeEntry>, n: nat): (r: seq<ClickRegion>)
    requires n <= |results|
    ensures |r| == n
    ensures forall i :: 0 <= i < n ==> r[i] == RowRegion(results, i)
  {
    if n == 0 then [] else RowRegions(results, n - 1) + [RowRegion(results, n - 1)]
  }

  /**
   * A point hits the row its distance below the first row falls in, and no
   * row when it is above the first row or below the last.
   */
  lemma RowHit(results: seq<ComposeEntry>, n: nat, y: int)
    requires n <= |results|
    ensures FirstHit(RowRegions(results, n), y) ==
      if FIRST_ROW_Y <= y < FIRST_ROW_Y + ROW_HEIGHT * n then Some((y - FIRST_ROW_Y) / ROW_HEIGHT) else None
  {
    var regions := RowRegions(results, n);
    if FIRST_ROW_Y <= y < FIRST_ROW_Y + ROW_HEIGHT * n {
      var i := (y - FIRST_ROW_Y) / ROW_HEIGHT;
      assert ROW_HEIGHT * i <= y - FIRST_ROW_Y < ROW_HEIGHT * (i + 1);
      assert i < n;
      assert Hits(regions[i], y);
      forall j | 0 <= j < i ensures !Hits(regions[j], y) {
        assert FIRST_ROW_Y + ROW_HEIGHT * (j + 1) <= FIRST_ROW_Y + ROW_HEIGHT * i;
      }
      var r := FirstHit(regions, y);
      assert r.Some?;
      assert !(r.value < i) && !(i < r.value);
    } else {
      forall j | 0 <= j < n ensures !Hits(regions[j], y) {
        assert FIRST_ROW_Y + ROW_HEIGHT * (j + 1) <= FIRST_ROW_Y + ROW_HEIGHT * n;
      }
    }
  }

  /** `xkb::Keysym::BackSpace` */
  const BACKSPACE: nat := 0xff08

  /** A keysym, with the character `keysym_to_utf32` and `char::from_u32` make of it, if any. */
  datatype Keysym = Keysym(code: nat, character: Option<char>)

  function Min(a: nat, b: nat): nat {
    if a < b then a else b
  }

  class CharRefUI {
    const unicode: Tables
    const composeIndex: ComposeIndex
    var inputText: string
    var clickRegions: seq<ClickRegion>
    var copiedRow: Option<nat>
    var hoveredRow: Option<nat>

    /** The filter holds at most one character. */
    predicate Valid()
      reads this
    {
      |inputText| <= 1
    }

    /** A window with no filter, no result rows, and nothing copied or hovered. */
    constructor (unicode: Tables, composeIndex: ComposeIndex)
      ensures this.unicode == unicode && this.composeIndex == composeIndex
      ensures inputText == [] && clickRegions == [] && copiedRow == None && hoveredRow == None
      ensures Valid()
    {
      this.unicode := unicode;
      this.composeIndex := composeIndex;
      inputText := [];
      clickRegions := [];
      copiedRow := None;
      hoveredRow := None;
    }

    /** What the result list shows: nothing for an empty filter, else the variants of the filter. */
    function Results(): (r: seq<ComposeEntry>)
      reads this
      ensures inputText == [] ==> r == []
    {
      if inputText == [] then [] else composeIndex.FindVariants(unicode, inputText)
    }

    /**
     * `handle_key_press`: any key clears the copied mark; BackSpace empties
     * the filter; a key whose character is alphabetic makes that character
     * the whole filter; any other key leaves the filter alone.
     */
    method HandleKeyPress(keysym: Keysym)
      modifies this
      ensures copiedRow == None
      ensures keysym.code == BACKSPACE ==> inputText == []
      ensures keysym.code != BACKSPACE && keysym.character.Some? && unicode.isAlphabetic(keysym.character.value) ==>
        inputText == [keysym.character.value]
      ensures keysym.code != BACKSPACE && !(keysym.character.Some? && unicode.isAlphabetic(keysym.character.value)) ==>
        inputText == old(inputText)
      ensures clickRegions == old(clickRegions) && hoveredRow == old(hoveredRow)
      ensures old(Valid()) ==> Valid()
    {
      copiedRow := None;
      if keysym.code == BACKSPACE {
        inputText := [];
        return;
      }
      if keysym.character.Some? {
        var ch := keysym.character.value;
        if unicode.isAlphabetic(ch) {
          inputText := [];
          inputText := inputText + [ch];
        }
      }
    }

    /**
     * `handle_click`: the character of the first row under `y`, which is then
     * marked as copied; None, and the mark left alone, when no row is under `y`.
     */
    method HandleClick(y: int) returns (r: Option<string>)
      modifies this
      ensures FirstHit(clickRegions, y).Some? ==>
        r == Some(clickRegions[FirstHit(clickRegions, y).value].character) && copiedRow == FirstHit(clickRegions, y)
      ensures FirstHit(clickRegions, y).None? ==> r == None && copiedRow == old(copiedRow)
      ensures inputText == old(inputText) && clickRegions == old(clickRegions) && hoveredRow == old(hoveredRow)
    {
      for index := 0 to |clickRegions|
        invariant forall j :: 0 <= j < index ==> !Hits(clickRegions[j], y)
      {
        var region := clickRegions[index];
        if y >= region.yStart && y < region.yEnd {
          var character := region.character;
          copiedRow := Some(index);
          return Some(character);
        }
      }
      return None;
    }

    /**
     * `handle_mouse_move`: the hovered row becomes the first row under `y`
     * (None when there is none); the result says whether it changed, so a
     * second move to the same `y` reports no change.
     */
    method HandleMouseMove(y: int) returns (changed: bool)
      modifies this
      ensures hoveredRow == FirstHit(clickRegions, y)
      ensures changed <==> hoveredRow != old(hoveredRow)
      ensures inputText == old(inputText) && clickRegions == old(clickRegions) && copiedRow == old(copiedRow)
    {
      var newHover: Option<nat> := None;
      for index := 0 to |clickRegions|
        invariant forall j :: 0 <= j < index ==> !Hits(clickRegions[j], y)
        invariant newHover.None?
      {
        var region := clickRegions[index];
        if y >= region.yStart && y < region.yEnd {
          newHover := Some(index);
          break;
        }
      }
      if newHover != hoveredRow {
        hoveredRow := newHover;
        changed := true;
      } else {
        changed := false;
      }
    }

    /**
     * The click-region part of `render`: the regions are rebuilt from empty,
     * one per listed result, at most ten, each one row high below the last.
     */
    method Render()
      modifies this
      ensures clickRegions == RowRegions(Results(), Min(MAX_ROWS, |Results()|))
      ensures inputText == old(inputText) && copiedRow == old(copiedRow) && hoveredRow == old(hoveredRow)
    {
      clickRegions := [];
      var results: seq<ComposeEntry>;
      if inputText == [] {
        results := [];
      } else {
        results := composeIndex.FindVariants(unicode, inputText);
      }
      assert results == Results();
      var y := FIRST_ROW_Y;
      var rows := Min(MAX_ROWS, |results|);
      for index := 0 to rows
        invariant clickRegions == RowRegions(results, index)
        invariant y == FIRST_ROW_Y + ROW_HEIGHT * index
        invariant inputText == old(inputText) && copiedRow == old(copiedRow) && hoveredRow == old(hoveredRow)
      {
        var entry := results[index];
        clickRegions := clickRegions + [ClickRegion(y, y + ROW_HEIGHT, entry.character)];
        y := y + ROW_HEIGHT;
      }
    }
  }
}
