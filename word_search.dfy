/** The word-search game (src/components/WordSearch.tsx): a fixed 12x12 grid
    of letters, a drag gesture that selects a straight run of cells, and the
    check of the selected letters against six airport words. */
module WordSearch {
  import opened Common
  import opened CellIds
  import opened LinePaths

  /** An entry of `wordSearchWords`; the category is only shown, never matched. */
  datatype WordItem = WordItem(word: string, category: string)

  const WordList: seq<WordItem> := [
    WordItem("AIRLINE", "airline"),
    WordItem("BOARDING", "boarding"),
    WordItem("FLIGHT", "flight"),
    WordItem("GATE", "gate"),
    WordItem("LUGGAGE", "luggage"),
    WordItem("TICKET", "ticket")
  ]

  /** `grid[r]`: the letters of row `r` of the fixed grid. */
  function GridRow(r: nat): (s: string)
    requires r < Rows
    ensures |s| == Cols
  {
    if r == 0 then "GATEWZPNKJHV" else if r == 1 then "KBCDESFGHIFK"
    else if r == 2 then "PLISTUVWXYLA" else if r == 3 then "QMRWYZABCDIT"
    else if r == 4 then "LNSXJKLMNOGI" else if r == 5 then "UAIRLINEPQHC"
    else if r == 6 then "GOTUVTWXYZTK" else if r == 7 then "GPUEFIGHIJKE"
    else if r == 8 then "AQVBOARDINGT" else if r == 9 then "GRWXYCZABCDL"
    else if r == 10 then "ESXYZKABCDEM" else "FTYZAEBCDEFN"
  }

  /** The palette for found words, used round robin. */
  const Colors: seq<string> := ["red", "green", "yellow", "blue", "purple"]

  /** A grid cell: its id `"row-col"`, its letter and whether it belongs to a
      found word (and with which colour). */
  datatype Cell = Cell(id: string, letter: char, isFound: bool, foundColor: Option<string>)

  /** The target words as a set. */
  function TargetWords(): set<string> {
    set k | 0 <= k < |WordList| :: WordList[k].word
  }

  /** The letter at a grid position. */
  function Letter(p: Coord): char
    requires InGrid(p)
  {
    GridRow(p.row)[p.col]
  }

  /** The grid's letters in row-major order. */
  function GridLetters(): (g: seq<char>)
    ensures |g| == Rows * Cols
  {
    seq(Rows * Cols, i requires 0 <= i < Rows * Cols => Letter(PositionOf(i)))
  }

  /** The letters of a cell list, in order. */
  function LettersOf(cells: seq<Cell>): (l: seq<char>)
    ensures |l| == |cells|
  {
    seq(|cells|, i requires 0 <= i < |cells| => cells[i].letter)
  }

  /** The position of the `i`-th cell of the row-major cell list. */
  function PositionOf(i: nat): Coord {
    Coord(i / Cols, i % Cols)
  }

  lemma PositionOfIndex(r: nat, c: nat)
    requires c < Cols
    ensures PositionOf(Cols * r + c) == Coord(r, c)
  {
    var i := Cols * r + c;
    assert i == Cols * (i / Cols) + i % Cols;
  }

  /** The cell the initializer pushes for row `r`, column `c`: the id
      `"r-c"`, the grid letter, not found, no colour. */
  function InitialCell(r: nat, c: nat): Cell
    requires r < Rows && c < Cols
  {
    Cell(CellId(r, c), GridRow(r)[c], false, None)
  }

  /** The cells the initializer pushes for row `r`. */
  function InitialRow(r: nat): (row: seq<Cell>)
    requires r < Rows
    ensures |row| == Cols
  {
    seq(Cols, c requires 0 <= c < Cols => InitialCell(r, c))
  }

  /** The cells of the first `n` rows, row after row. */
  function RowsUpTo(n: nat): (cells: seq<Cell>)
    requires n <= Rows
    ensures |cells| == Cols * n
  {
    if n == 0 then [] else RowsUpTo(n - 1) + InitialRow(n - 1)
  }

  /** The cell list the component starts with. */
  function InitialCells(): seq<Cell> {
    RowsUpTo(Rows)
  }

  /** Column `c` of row `r` sits at index `Cols * r + c` of the first `n` rows. */
  lemma {:induction false} RowsUpToAt(n: nat, r: nat, c: nat)
    requires n <= Rows && r < n && c < Cols
    ensures Cols * r + c < |RowsUpTo(n)| && RowsUpTo(n)[Cols * r + c] == InitialRow(r)[c]
  {
    var front, last := RowsUpTo(n - 1), InitialRow(n - 1);
    assert RowsUpTo(n) == front + last;
    if r < n - 1 {
      assert Cols * r + c < Cols * (n - 1) by {
        assert Cols * r + Cols == Cols * (r + 1) <= Cols * (n - 1);
      }
      RowsUpToAt(n - 1, r, c);
      assert (front + last)[Cols * r + c] == front[Cols * r + c];
    } else {
      assert Cols * r + c == |front| + c;
      assert (front + last)[|front| + c] == last[c];
    }
  }

  /** The initial cell at index `i` has the id and letter of position
      `PositionOf(i)`, and is neither found nor coloured. */
  lemma InitialCellAt(i: nat)
    requires i < Rows * Cols
    ensures |InitialCells()| == Rows * Cols
    ensures InitialCells()[i] == Cell(CellId(i / Cols, i % Cols), Letter(PositionOf(i)), false, None)
  {
    var r, c := i / Cols, i % Cols;
    assert i == Cols * r + c;
    RowsUpToAt(Rows, r, c);
  }

  /** The cell list has the grid's ids and letters in row-major order. */
  ghost predicate CellsLaidOut(cells: seq<Cell>) {
    |cells| == Rows * Cols &&
    (forall i :: 0 <= i < |cells| ==> cells[i].id == CellId(i / Cols, i % Cols)) &&
    LettersOf(cells) == GridLetters()
  }

  /** The cell at a laid-out index carries the grid letter of its position. */
  lemma LaidOutLetter(cells: seq<Cell>, i: nat)
    requires CellsLaidOut(cells) && i < |cells|
    ensures InGrid(PositionOf(i)) && cells[i].letter == Letter(PositionOf(i))
  {
    assert LettersOf(cells)[i] == GridLetters()[i];
  }

  /** A cell is found exactly when it has a colour, and colours come from the palette. */
  ghost predicate CellsColoured(cells: seq<Cell>) {
    forall i :: 0 <= i < |cells| ==>
      (cells[i].isFound <==> cells[i].foundColor.Some?) &&
      (cells[i].foundColor.Some? ==> cells[i].foundColor.value in Colors)
  }

  /** `foundWords` holds target words only, each at most once. */
  ghost predicate FoundWordsValid(found: seq<string>) {
    Distinct(found) && forall w :: w in found ==> w in TargetWords()
  }

  lemma InitialCellsValid()
    ensures CellsLaidOut(InitialCells()) && CellsColoured(InitialCells())
  {
    var init := InitialCells();
    forall i | 0 <= i < |init|
      ensures init[i] == Cell(CellId(i / Cols, i % Cols), Letter(PositionOf(i)), false, None)
    {
      InitialCellAt(i);
    }
    assert LettersOf(init) == GridLetters();
  }

  /** A string names a cell of the grid. */
  predicate IsGridId(id: string) {
    ParseId(id).Some? && InGrid(ParseId(id).value)
  }

  // ---------------------------------------------------------------------------
  // Path resolution on ids

  /** The ids of a list of positions. */
  function PathIds(p: seq<Coord>): (ids: seq<string>)
    requires forall k :: 0 <= k < |p| ==> p[k].row >= 0 && p[k].col >= 0
    ensures |ids| == |p|
  {
    seq(|p|, k requires 0 <= k < |p| => CellId(p[k].row, p[k].col))
  }

  /** `getCellsInLine(startId, endId)`: on a line, the start id alone when both
      ends are the same position, otherwise the ids of the walk from start to
      end; no cells when the ends are off a common line or not readable. */
  function CellsInLine(startId: string, endId: string): seq<string> {
    match (ParseId(startId), ParseId(endId))
    case (Some(a), Some(b)) =>
      if !OnLine(a, b) then []
      else if Steps(a, b) == 0 then [startId]
      else PathIds(LinePath(a, b))
    case _ => []
  }

  /** `getCellsInLine` as the source runs it: a `for` loop that pushes one id
      per step.  Proved to compute `CellsInLine`. */
  method GetCellsInLine(startId: string, endId: string) returns (cells: seq<string>)
    ensures cells == CellsInLine(startId, endId)
  {
    var start, end := ParseId(startId), ParseId(endId);
    cells := [];
    if start.None? || end.None? {
      return;
    }
    var a, b := start.value, end.value;
    CellsInLineOf(startId, endId, a, b);
    var deltaRow, deltaCol := b.row - a.row, b.col - a.col;
    if deltaRow == 0 || deltaCol == 0 || Abs(deltaRow) == Abs(deltaCol) {
      var steps := Max(Abs(deltaRow), Abs(deltaCol));
      if steps == 0 {
        cells := cells + [startId];
      } else {
        cells := WalkIds(a, b, steps);
      }
    }
  }

  /** The `for` loop of `getCellsInLine`: for `i` from 0 to `steps`, push the
      id of the cell `i` steps from the start towards the end. */
  method WalkIds(a: Coord, b: Coord, steps: nat) returns (cells: seq<string>)
    requires a.row >= 0 && a.col >= 0 && b.row >= 0 && b.col >= 0
    requires OnLine(a, b) && steps == Steps(a, b)
    ensures cells == PathIds(LinePath(a, b))
  {
    ghost var path := PathIds(LinePath(a, b));
    var deltaRow, deltaCol := b.row - a.row, b.col - a.col;
    cells := [];
    for i := 0 to steps + 1
      invariant |cells| == i
      invariant forall k :: 0 <= k < i ==> cells[k] == path[k]
    {
      var row := a.row + Offset(deltaRow, i);
      var col := a.col + Offset(deltaCol, i);
      assert Coord(row, col) == LinePath(a, b)[i];
      cells := cells + [CellId(row, col)];
    }
    assert cells == path;
  }

  /** `CellsInLine` between two readable ids, by the three cases of the
      source. */
  lemma CellsInLineOf(startId: string, endId: string, a: Coord, b: Coord)
    requires ParseId(startId) == Some(a) && ParseId(endId) == Some(b)
    ensures CellsInLine(startId, endId) ==
      if !OnLine(a, b) then []
      else if Steps(a, b) == 0 then [startId]
      else PathIds(LinePath(a, b))
  {
  }

  /** Each id of `CellsInLine(s, e)` reads back as the matching position of
      the walk between the two cells. */
  lemma CellsInLineParses(s: string, e: string)
    requires ParseId(s).Some? && ParseId(e).Some?
    ensures var p := LinePath(ParseId(s).value, ParseId(e).value);
      |CellsInLine(s, e)| == |p| &&
      forall k :: 0 <= k < |p| ==> ParseId(CellsInLine(s, e)[k]) == Some(p[k])
  {
    var a, b := ParseId(s).value, ParseId(e).value;
    var p := LinePath(a, b);
    if OnLine(a, b) && Steps(a, b) > 0 {
      forall k | 0 <= k < |p| ensures ParseId(CellsInLine(s, e)[k]) == Some(p[k]) {
        CellIdRoundTrip(p[k].row, p[k].col);
      }
    }
  }

  /** Between two printed ids the path is the list of the walk's ids, also for
      a single cell. */
  lemma CellsInLineOfIds(a: Coord, b: Coord)
    requires a.row >= 0 && a.col >= 0 && b.row >= 0 && b.col >= 0
    ensures CellsInLine(CellId(a.row, a.col), CellId(b.row, b.col)) == PathIds(LinePath(a, b))
  {
    var s, e := CellId(a.row, a.col), CellId(b.row, b.col);
    CellIdRoundTrip(a.row, a.col);
    CellIdRoundTrip(b.row, b.col);
    CellsInLineOf(s, e, a, b);
    if !OnLine(a, b) {
      LinePathNonEmptyIff(a, b);
    } else if Steps(a, b) == 0 {
      assert a == b;
      LinePathSameCell(a);
    }
  }

  /** Dragging back from the end to the start selects the same cells in the
      opposite order. */
  lemma CellsInLineSymmetric(a: Coord, b: Coord)
    requires a.row >= 0 && a.col >= 0 && b.row >= 0 && b.col >= 0
    ensures CellsInLine(CellId(b.row, b.col), CellId(a.row, a.col)) ==
            Reverse(CellsInLine(CellId(a.row, a.col), CellId(b.row, b.col)))
  {
    CellsInLineOfIds(a, b);
    CellsInLineOfIds(b, a);
    LinePathReverse(a, b);
    PathIdsReverse(LinePath(a, b));
  }

  /** A drag that starts and ends on the same readable id selects that id. */
  lemma CellsInLineSameId(id: string)
    requires ParseId(id).Some?
    ensures CellsInLine(id, id) == [id]
  {
    var a := ParseId(id).value;
    CellsInLineOf(id, id, a, a);
  }

  /** The ids of a reversed path are the path's ids reversed. */
  lemma PathIdsReverse(p: seq<Coord>)
    requires forall k :: 0 <= k < |p| ==> p[k].row >= 0 && p[k].col >= 0
    ensures PathIds(Reverse(p)) == Reverse(PathIds(p))
  {
    var q := Reverse(p);
    assert forall k :: 0 <= k < |q| ==> q[k] == p[|p| - 1 - k];
  }

  // ---------------------------------------------------------------------------
  // Letters of a selection and the word check

  /** `cells.find(c => c.id === id)`: the first cell with that id. */
  function FindCell(cells: seq<Cell>, id: string): (r: Option<Cell>)
    ensures r.Some? ==> r.value.id == id && r.value in cells
    ensures r.None? ==> forall k :: 0 <= k < |cells| ==> cells[k].id != id
  {
    if |cells| == 0 then None
    else if cells[0].id == id then Some(cells[0])
    else FindCell(cells[1..], id)
  }

  /** The letter of the cell with that id, or the empty string if none. */
  function LetterText(cells: seq<Cell>, id: string): string {
    match FindCell(cells, id)
    case Some(c) => [c.letter]
    case None => ""
  }

  /** `getWordFromCells(cellIds)`: the letters of the cells in selection order. */
  function WordFromCells(cells: seq<Cell>, ids: seq<string>): string {
    if |ids| == 0 then "" else WordFromCells(cells, ids[..|ids| - 1]) + LetterText(cells, ids[|ids| - 1])
  }

  /** The letters of the grid along a list of positions. */
  function GridWord(p: seq<Coord>): string
    requires AllInGrid(p)
  {
    seq(|p|, k requires 0 <= k < |p| => Letter(p[k]))
  }

  /** A target word matches the selected letters read forwards or backwards. */
  predicate Matches(target: string, selected: string) {
    target == selected || target == Reverse(selected)
  }

  /** `wordSearchWords.find(...)`: the first entry matching the selection in
      either direction, or none. */
  function FindTarget(words: seq<WordItem>, selected: string): (r: Option<WordItem>)
    ensures r.Some? ==> r.value in words && Matches(r.value.word, selected)
    ensures r.None? ==> forall k :: 0 <= k < |words| ==> !Matches(words[k].word, selected)
  {
    if |words| == 0 then None
    else if Matches(words[0].word, selected) then Some(words[0])
    else FindTarget(words[1..], selected)
  }

  /** The word a mouse-up records: only while dragging over a non-empty
      selection, only if its letters match a target and only if that target is
      not yet found. */
  function NewFind(dragging: bool, cells: seq<Cell>, selected: seq<string>, found: seq<string>): Option<string> {
    if dragging && |selected| > 0 then
      match FindTarget(WordList, WordFromCells(cells, selected))
      case Some(t) => if t.word !in found then Some(t.word) else None
      case None => None
    else None
  }

  /** The cells after a find: selected cells become found with `color`, all
      others are kept. */
  function MarkFound(cells: seq<Cell>, selected: seq<string>, color: string): seq<Cell> {
    seq(|cells|, i requires 0 <= i < |cells| =>
      if cells[i].id in selected then cells[i].(isFound := true, foundColor := Some(color)) else cells[i])
  }

  /** The cells after a reset: no cell found, no colour. */
  function ClearFound(cells: seq<Cell>): seq<Cell> {
    seq(|cells|, i requires 0 <= i < |cells| => cells[i].(isFound := false, foundColor := None))
  }

  /** Marking cells found keeps the ids and letters, and a palette colour
      keeps every found cell coloured from the palette. */
  lemma MarkFoundKeepsLayout(cells: seq<Cell>, selected: seq<string>, color: string)
    requires CellsLaidOut(cells) && CellsColoured(cells) && color in Colors
    ensures CellsLaidOut(MarkFound(cells, selected, color))
    ensures CellsColoured(MarkFound(cells, selected, color))
  {
    assert LettersOf(MarkFound(cells, selected, color)) == LettersOf(cells);
  }

  /** Clearing keeps the ids and letters and leaves no cell coloured. */
  lemma ClearFoundKeepsLayout(cells: seq<Cell>)
    requires CellsLaidOut(cells)
    ensures CellsLaidOut(ClearFound(cells)) && CellsColoured(ClearFound(cells))
  {
    assert LettersOf(ClearFound(cells)) == LettersOf(cells);
  }

  // ---------------------------------------------------------------------------
  // Facts about the tables and the word check

  /** The distinct cells of the laid-out list have distinct ids, so `find` by
      the id of a position returns the cell at that position. */
  lemma FindCellAt(cells: seq<Cell>, r: nat, c: nat)
    requires CellsLaidOut(cells)
    requires InGrid(Coord(r, c))
    ensures FindCell(cells, CellId(r, c)) == Some(cells[Cols * r + c])
  {
    var k := Cols * r + c;
    PositionOfIndex(r, c);
    forall j | 0 <= j < k ensures cells[j].id != CellId(r, c) {
      CellIdInjective(j / Cols, j % Cols, r, c);
      assert j == Cols * (j / Cols) + j % Cols;
    }
    FindCellFirst(cells, CellId(r, c), k);
  }

  lemma {:induction false} FindCellFirst(cells: seq<Cell>, id: string, k: nat)
    requires k < |cells| && cells[k].id == id
    requires forall j :: 0 <= j < k ==> cells[j].id != id
    ensures FindCell(cells, id) == Some(cells[k])
  {
    if k > 0 {
      FindCellFirst(cells[1..], id, k - 1);
    }
  }

  /** The letter of the cell found by a position's id is the grid letter there. */
  lemma LetterTextAt(cells: seq<Cell>, q: Coord)
    requires CellsLaidOut(cells)
    requires InGrid(q)
    ensures LetterText(cells, CellId(q.row, q.col)) == [Letter(q)]
  {
    var r, c := q.row, q.col;
    LetterTextOfIndex(cells, r, c);
    LaidOutLetterAt(cells, r, c);
    assert [cells[Cols * r + c].letter] == [Letter(q)];
  }

  /** The cell at the index of a position carries that position's letter. */
  lemma LaidOutLetterAt(cells: seq<Cell>, r: nat, c: nat)
    requires CellsLaidOut(cells)
    requires InGrid(Coord(r, c))
    ensures Cols * r + c < |cells| && cells[Cols * r + c].letter == Letter(Coord(r, c))
  {
    PositionOfIndex(r, c);
    LaidOutLetter(cells, Cols * r + c);
  }

  /** The letter found by a position's id is the letter of the cell at that
      position's index. */
  lemma LetterTextOfIndex(cells: seq<Cell>, r: nat, c: nat)
    requires CellsLaidOut(cells)
    requires InGrid(Coord(r, c))
    ensures Cols * r + c < |cells|
    ensures LetterText(cells, CellId(r, c)) == [cells[Cols * r + c].letter]
  {
    FindCellAt(cells, r, c);
  }

  lemma PathIdsPrefix(p: seq<Coord>)
    requires |p| > 0 && AllInGrid(p)
    ensures PathIds(p)[..|p| - 1] == PathIds(p[..|p| - 1])
    ensures PathIds(p)[|p| - 1] == CellId(p[|p| - 1].row, p[|p| - 1].col)
  {
  }

  lemma GridWordPrefix(p: seq<Coord>)
    requires |p| > 0 && AllInGrid(p)
    ensures GridWord(p) == GridWord(p[..|p| - 1]) + [Letter(p[|p| - 1])]
  {
  }

  /** On the laid-out cells, the selection of a path of grid positions spells
      the grid letters along that path. */
  lemma {:induction false} WordFromPath(cells: seq<Cell>, p: seq<Coord>)
    requires CellsLaidOut(cells)
    requires AllInGrid(p)
    ensures WordFromCells(cells, PathIds(p)) == GridWord(p)
  {
    if |p| > 0 {
      var init := p[..|p| - 1];
      var last := p[|p| - 1];
      var ids := PathIds(p);
      PathIdsPrefix(p);
      GridWordPrefix(p);
      assert AllInGrid(init);
      WordFromPath(cells, init);
      LetterTextAt(cells, last);
      assert WordFromCells(cells, ids) ==
        WordFromCells(cells, ids[..|ids| - 1]) + LetterText(cells, ids[|ids| - 1]);
    }
  }

  /** Two words differ from each other's reverse when their lengths differ or
      one of their first two letters differs from the mirrored letter. */
  lemma NotReverse(u: string, v: string)
    requires |u| != |v| || (|u| >= 2 && (u[0] != v[|v| - 1] || u[1] != v[|v| - 2]))
    ensures u != Reverse(v)
  {
    if |u| == |v| {
      assert Reverse(v)[0] == v[|v| - 1] && Reverse(v)[1] == v[|v| - 2];
    }
  }

  /** Each target occurs at most once in the list, and no target is the
      reverse of a target, so a selection matches at most one of them. */
  lemma WordListUnambiguous()
    ensures forall i, j :: 0 <= i < |WordList| && 0 <= j < |WordList| ==>
      (WordList[i].word == WordList[j].word ==> i == j) &&
      WordList[i].word != Reverse(WordList[j].word)
  {
    forall i, j | 0 <= i < |WordList| && 0 <= j < |WordList|
      ensures (WordList[i].word == WordList[j].word ==> i == j) &&
              WordList[i].word != Reverse(WordList[j].word)
    {
      NotReverse(WordList[i].word, WordList[j].word);
    }
  }

  lemma TargetWordsCount()
    ensures |TargetWords()| == |WordList| == 6
  {
    var ws := seq(|WordList|, k requires 0 <= k < |WordList| => WordList[k].word);
    WordListUnambiguous();
    assert Distinct(ws);
    DistinctCardinality(ws);
    forall x | x in TargetWords() ensures x in Elements(ws) {
      var k :| 0 <= k < |WordList| && WordList[k].word == x;
      assert ws[k] == x;
    }
    forall x | x in Elements(ws) ensures x in TargetWords() {
      var k :| 0 <= k < |ws| && ws[k] == x;
      assert WordList[k].word == x;
    }
    assert Elements(ws) == TargetWords();
  }

  /** A selection matches at most one target. */
  lemma MatchUnique(i: nat, j: nat, selected: string)
    requires i < |WordList| && j < |WordList|
    requires Matches(WordList[i].word, selected) && Matches(WordList[j].word, selected)
    ensures i == j
  {
    WordListUnambiguous();
    var s := selected;
    assert Reverse(Reverse(s)) == s;
  }

  /** Mouse-up records a word exactly when some target, not yet found, matches
      the selected letters forwards or backwards. */
  lemma NewFindIff(dragging: bool, cells: seq<Cell>, selected: seq<string>, found: seq<string>)
    ensures var w := WordFromCells(cells, selected);
      NewFind(dragging, cells, selected, found).Some? <==>
      dragging && |selected| > 0 &&
      exists k :: 0 <= k < |WordList| && Matches(WordList[k].word, w) && WordList[k].word !in found
    ensures var r := NewFind(dragging, cells, selected, found);
      r.Some? ==> r.value in TargetWords() && r.value !in found &&
                  Matches(r.value, WordFromCells(cells, selected))
  {
    var w := WordFromCells(cells, selected);
    if dragging && |selected| > 0 {
      var t := FindTarget(WordList, w);
      if t.Some? {
        var i :| 0 <= i < |WordList| && WordList[i] == t.value;
        forall k | 0 <= k < |WordList| && Matches(WordList[k].word, w) ensures k == i {
          MatchUnique(k, i, w);
        }
      }
    }
  }

  /** Once all six targets are found, no drag records anything. */
  lemma NoFindWhenComplete(dragging: bool, cells: seq<Cell>, selected: seq<string>, found: seq<string>)
    requires FoundWordsValid(found) && |found| == |WordList|
    ensures NewFind(dragging, cells, selected, found) == None
  {
    TargetWordsCount();
    DistinctFull(found, TargetWords());
    NewFindIff(dragging, cells, selected, found);
  }

  /** Recording a target word not yet found keeps the found list valid, and
      it then holds at most all the targets. */
  lemma RecordFind(found: seq<string>, t: WordItem)
    requires FoundWordsValid(found) && t in WordList && t.word !in found
    ensures FoundWordsValid(found + [t.word])
    ensures |found| + 1 <= |WordList|
  {
    DistinctAppend(found, t.word);
    FoundWordsBound(found + [t.word]);
  }

  /** `foundWords` never holds more than the six targets. */
  lemma FoundWordsBound(found: seq<string>)
    requires FoundWordsValid(found)
    ensures |found| <= |WordList|
  {
    TargetWordsCount();
    DistinctBound(found, TargetWords());
  }

  /** A find marks exactly the cells on the selected line, with one colour,
      and leaves every other cell as it was; ids and letters never change. */
  lemma MarkFoundExactly(cells: seq<Cell>, a: Coord, b: Coord, color: string)
    requires CellsLaidOut(cells)
    requires InGrid(a) && InGrid(b)
    ensures var m := MarkFound(cells, CellsInLine(CellId(a.row, a.col), CellId(b.row, b.col)), color);
      CellsLaidOut(m) &&
      forall i :: 0 <= i < |cells| ==>
        if PositionOf(i) in LinePath(a, b)
        then m[i] == cells[i].(isFound := true, foundColor := Some(color))
        else m[i] == cells[i]
  {
    var sel := CellsInLine(CellId(a.row, a.col), CellId(b.row, b.col));
    assert LettersOf(MarkFound(cells, sel, color)) == LettersOf(cells);
    forall i | 0 <= i < |cells| ensures cells[i].id in sel <==> PositionOf(i) in LinePath(a, b) {
      SelectedIff(cells, a, b, i);
    }
  }

  /** A laid-out cell is selected by a drag exactly when its position is on
      the drag's line. */
  lemma SelectedIff(cells: seq<Cell>, a: Coord, b: Coord, i: nat)
    requires CellsLaidOut(cells)
    requires InGrid(a) && InGrid(b) && i < |cells|
    ensures cells[i].id in CellsInLine(CellId(a.row, a.col), CellId(b.row, b.col)) <==>
      PositionOf(i) in LinePath(a, b)
  {
    var q := PositionOf(i);
    assert cells[i].id == CellId(q.row, q.col);
    CellsInLineOfIds(a, b);
    LinePathInGrid(a, b);
    IdInPathIds(LinePath(a, b), q);
  }

  /** A position's id is among the ids of a path exactly when the position is
      on the path. */
  lemma IdInPathIds(p: seq<Coord>, q: Coord)
    requires forall k :: 0 <= k < |p| ==> p[k].row >= 0 && p[k].col >= 0
    requires q.row >= 0 && q.col >= 0
    ensures CellId(q.row, q.col) in PathIds(p) <==> q in p
  {
    var ids := PathIds(p);
    if CellId(q.row, q.col) in ids {
      var k :| 0 <= k < |ids| && ids[k] == CellId(q.row, q.col);
      CellIdInjective(q.row, q.col, p[k].row, p[k].col);
    }
    if q in p {
      var k :| 0 <= k < |p| && p[k] == q;
      assert ids[k] == CellId(q.row, q.col);
    }
  }

  // ---------------------------------------------------------------------------
  // Examples from the source's grid

  /** A path along a row, left to right. */
  lemma RowPath(r: int, c0: int, c1: int)
    requires c0 <= c1
    ensures LinePath(Coord(r, c0), Coord(r, c1)) ==
      seq(c1 - c0 + 1, i requires 0 <= i <= c1 - c0 => Coord(r, c0 + i))
  {
  }

  /** A path down a column, top to bottom. */
  lemma ColumnPath(c: int, r0: int, r1: int)
    requires r0 <= r1
    ensures LinePath(Coord(r0, c), Coord(r1, c)) ==
      seq(r1 - r0 + 1, i requires 0 <= i <= r1 - r0 => Coord(r0 + i, c))
  {
  }

  /** Along a row the grid word is the row's letters read left to right. */
  lemma RowWord(r: int, c0: int, c1: int)
    requires 0 <= r < Rows && 0 <= c0 <= c1 < Cols
    ensures AllInGrid(LinePath(Coord(r, c0), Coord(r, c1)))
    ensures GridWord(LinePath(Coord(r, c0), Coord(r, c1))) ==
      seq(c1 - c0 + 1, i requires 0 <= i <= c1 - c0 => Letter(Coord(r, c0 + i)))
  {
    RowPath(r, c0, c1);
  }

  /** Down a column the grid word is the column's letters read top to bottom. */
  lemma ColumnWord(c: int, r0: int, r1: int)
    requires 0 <= c < Cols && 0 <= r0 <= r1 < Rows
    ensures AllInGrid(LinePath(Coord(r0, c), Coord(r1, c)))
    ensures GridWord(LinePath(Coord(r0, c), Coord(r1, c))) ==
      seq(r1 - r0 + 1, i requires 0 <= i <= r1 - r0 => Letter(Coord(r0 + i, c)))
  {
    ColumnPath(c, r0, r1);
  }

  /** The line from `a` to `b` lies in the grid and spells `w`. */
  predicate SpelledAt(a: Coord, b: Coord, w: string) {
    InGrid(a) && InGrid(b) && OnLine(a, b) && AllInGrid(LinePath(a, b)) &&
    GridWord(LinePath(a, b)) == w
  }

  /** The letters of row 5, columns 1 to 7. */
  lemma AirlineLetters() ensures seq(7, i requires 0 <= i <= 6 => Letter(Coord(5, 1 + i))) == "AIRLINE" {
    assert GridRow(5) == "UAIRLINEPQHC";
    var w := seq(7, i requires 0 <= i <= 6 => Letter(Coord(5, 1 + i)));
    assert w[0] == 'A' && w[1] == 'I' && w[2] == 'R' && w[3] == 'L' && w[4] == 'I' && w[5] == 'N' && w[6] == 'E';
  }

  lemma AirlinePlaced() ensures SpelledAt(Coord(5, 1), Coord(5, 7), "AIRLINE") {
    RowWord(5, 1, 7);
    AirlineLetters();
  }

  /** The letters of row 8, columns 3 to 10. */
  lemma BoardingLetters() ensures seq(8, i requires 0 <= i <= 7 => Letter(Coord(8, 3 + i))) == "BOARDING" {
    assert GridRow(8) == "AQVBOARDINGT";
    var w := seq(8, i requires 0 <= i <= 7 => Letter(Coord(8, 3 + i)));
    assert w[0] == 'B' && w[1] == 'O' && w[2] == 'A' && w[3] == 'R' && w[4] == 'D' && w[5] == 'I' && w[6] == 'N' && w[7] == 'G';
  }

  lemma BoardingPlaced() ensures SpelledAt(Coord(8, 3), Coord(8, 10), "BOARDING") {
    RowWord(8, 3, 10);
    BoardingLetters();
  }

  /** The letters of row 0, columns 0 to 3. */
  lemma GateLetters() ensures seq(4, i requires 0 <= i <= 3 => Letter(Coord(0, i))) == "GATE" {
    assert GridRow(0) == "GATEWZPNKJHV";
    var w := seq(4, i requires 0 <= i <= 3 => Letter(Coord(0, i)));
    assert w[0] == 'G' && w[1] == 'A' && w[2] == 'T' && w[3] == 'E';
  }

  lemma GatePlaced() ensures SpelledAt(Coord(0, 0), Coord(0, 3), "GATE") {
    RowWord(0, 0, 3);
    GateLetters();
  }

  /** The letters of column 10, rows 1 to 6. */
  lemma FlightLetters() ensures seq(6, i requires 0 <= i <= 5 => Letter(Coord(1 + i, 10))) == "FLIGHT" {
    assert GridRow(1)[10] == 'F';
    assert GridRow(2)[10] == 'L';
    assert GridRow(3)[10] == 'I';
    assert GridRow(4)[10] == 'G';
    assert GridRow(5)[10] == 'H';
    assert GridRow(6)[10] == 'T';
    var w := seq(6, i requires 0 <= i <= 5 => Letter(Coord(1 + i, 10)));
    assert w[0] == 'F' && w[1] == 'L' && w[2] == 'I' && w[3] == 'G' && w[4] == 'H' && w[5] == 'T';
  }

  lemma FlightPlaced() ensures SpelledAt(Coord(1, 10), Coord(6, 10), "FLIGHT") {
    ColumnWord(10, 1, 6);
    FlightLetters();
  }

  /** The letters of column 0, rows 4 to 10. */
  lemma LuggageLetters() ensures seq(7, i requires 0 <= i <= 6 => Letter(Coord(4 + i, 0))) == "LUGGAGE" {
    assert GridRow(4)[0] == 'L';
    assert GridRow(5)[0] == 'U';
    assert GridRow(6)[0] == 'G';
    assert GridRow(7)[0] == 'G';
    assert GridRow(8)[0] == 'A';
    assert GridRow(9)[0] == 'G';
    assert GridRow(10)[0] == 'E';
    var w := seq(7, i requires 0 <= i <= 6 => Letter(Coord(4 + i, 0)));
    assert w[0] == 'L' && w[1] == 'U' && w[2] == 'G' && w[3] == 'G' && w[4] == 'A' && w[5] == 'G' && w[6] == 'E';
  }

  lemma LuggagePlaced() ensures SpelledAt(Coord(4, 0), Coord(10, 0), "LUGGAGE") {
    ColumnWord(0, 4, 10);
    LuggageLetters();
  }

  /** The letters of column 11, rows 3 to 8. */
  lemma TicketLetters() ensures seq(6, i requires 0 <= i <= 5 => Letter(Coord(3 + i, 11))) == "TICKET" {
    assert GridRow(3)[11] == 'T';
    assert GridRow(4)[11] == 'I';
    assert GridRow(5)[11] == 'C';
    assert GridRow(6)[11] == 'K';
    assert GridRow(7)[11] == 'E';
    assert GridRow(8)[11] == 'T';
    var w := seq(6, i requires 0 <= i <= 5 => Letter(Coord(3 + i, 11)));
    assert w[0] == 'T' && w[1] == 'I' && w[2] == 'C' && w[3] == 'K' && w[4] == 'E' && w[5] == 'T';
  }

  lemma TicketPlaced() ensures SpelledAt(Coord(3, 11), Coord(8, 11), "TICKET") {
    ColumnWord(11, 3, 8);
    TicketLetters();
  }

  /** Where each target lies in the grid: start and end of its line. */
  function Placement(k: nat): (Coord, Coord)
    requires k < |WordList|
  {
    [(Coord(5, 1), Coord(5, 7)),  // AIRLINE, row 5
     (Coord(8, 3), Coord(8, 10)), // BOARDING, row 8
     (Coord(1, 10), Coord(6, 10)), // FLIGHT, column 10
     (Coord(0, 0), Coord(0, 3)),  // GATE, row 0
     (Coord(4, 0), Coord(10, 0)), // LUGGAGE, column 0
     (Coord(3, 11), Coord(8, 11))] // TICKET, column 11
    [k]
  }

  /** The puzzle can be completed: every target is spelled along a straight
      line of the grid. */
  lemma EveryTargetPlaced(k: nat)
    requires k < |WordList|
    ensures SpelledAt(Placement(k).0, Placement(k).1, WordList[k].word)
  {
    if k == 0 { AirlinePlaced(); }
    else if k == 1 { BoardingPlaced(); }
    else if k == 2 { FlightPlaced(); }
    else if k == 3 { GatePlaced(); }
    else if k == 4 { LuggagePlaced(); }
    else { TicketPlaced(); }
  }

  /** The concrete drag of the source's sample: (5,1) to (5,7) selects the ids
      of row 5, columns 1 to 7. */
  lemma AirlineSelection()
    ensures CellsInLine("5-1", "5-7") == PathIds(LinePath(Coord(5, 1), Coord(5, 7)))
  {
    assert CellId(5, 1) == "5-1" && CellId(5, 7) == "5-7";
    CellsInLineOfIds(Coord(5, 1), Coord(5, 7));
  }

  /** On the laid-out cells that drag spells AIRLINE, which is the first
      target. */
  lemma AirlineExample(cells: seq<Cell>)
    requires CellsLaidOut(cells)
    ensures WordFromCells(cells, CellsInLine("5-1", "5-7")) == "AIRLINE"
    ensures FindTarget(WordList, "AIRLINE") == Some(WordList[0])
  {
    AirlineSelection();
    AirlinePlaced();
    WordFromPath(cells, LinePath(Coord(5, 1), Coord(5, 7)));
  }

  /** The initializer of the `cells` state: one cell per grid letter, pushed
      row by row as the nested `forEach` loops do. */
  method BuildCells() returns (built: seq<Cell>)
    ensures built == InitialCells()
  {
    built := [];
    for r := 0 to Rows
      invariant built == RowsUpTo(r)
    {
      for c := 0 to Cols
        invariant built == RowsUpTo(r) + InitialRow(r)[..c]
      {
        RowStep(r, c);
        built := built + [InitialCell(r, c)];
      }
      RowsStep(r);
    }
  }

  /** Pushing the cell of column `c` extends the row's prefix by one. */
  lemma RowStep(r: nat, c: nat)
    requires r < Rows && c < Cols
    ensures InitialRow(r)[..c + 1] == InitialRow(r)[..c] + [InitialCell(r, c)]
  {
    var row := InitialRow(r);
    assert row[..c + 1] == row[..c] + [row[c]];
  }

  /** A completed row extends the rows before it. */
  lemma RowsStep(r: nat)
    requires r < Rows
    ensures RowsUpTo(r) + InitialRow(r)[..Cols] == RowsUpTo(r + 1)
  {
    assert InitialRow(r)[..Cols] == InitialRow(r);
  }

  // ---------------------------------------------------------------------------
  // The component state and its event handlers

  class Game {
    var foundWords: seq<string>
    var showCelebrationPopup: bool
    var isDragging: bool
    var startCell: Option<string>
    var selectedCells: seq<string>
    var cells: seq<Cell>
    /** The cell the pointer last entered during the current drag. */
    ghost var pointerCell: string

    /** The cells keep the grid's ids and letters, found words are distinct
        targets, and the selection is empty or the line from the start cell to
        the pointer cell. */
    ghost predicate Valid()
      reads this
    {
      CellsLaidOut(cells) && CellsColoured(cells) &&
      FoundWordsValid(foundWords) &&
      (isDragging <==> startCell.Some?) &&
      (!isDragging ==> selectedCells == []) &&
      (isDragging ==>
        IsGridId(startCell.value) && IsGridId(pointerCell) &&
        selectedCells == CellsInLine(startCell.value, pointerCell))
    }

    /** The initial state: no word found, no drag, and the cell list of
        `BuildCells`. */
    constructor ()
      ensures Valid()
      ensures cells == InitialCells()
      ensures foundWords == [] && !showCelebrationPopup
      ensures !isDragging && startCell == None && selectedCells == []
    {
      var initial := BuildCells();
      InitialCellsValid();
      cells := initial;
      foundWords := [];
      showCelebrationPopup := false;
      isDragging := false;
      startCell := None;
      selectedCells := [];
      pointerCell := "";
    }

    /** `handleCellMouseDown`: start a drag at the cell; the selection is that
        cell alone. */
    method MouseDown(cellId: string)
      requires Valid() && IsGridId(cellId)
      modifies this
      ensures Valid()
      ensures isDragging && startCell == Some(cellId) && selectedCells == [cellId]
      ensures cells == old(cells) && foundWords == old(foundWords)
      ensures showCelebrationPopup == old(showCelebrationPopup)
    {
      CellsInLineSameId(cellId);
      isDragging := true;
      startCell := Some(cellId);
      selectedCells := [cellId];
      pointerCell := cellId;
    }

    /** `handleCellMouseEnter`: while dragging, the selection becomes the line
        from the start cell to this cell (no cells when off the line). */
    method MouseEnter(cellId: string)
      requires Valid() && IsGridId(cellId)
      modifies this
      ensures Valid()
      ensures selectedCells ==
        if old(isDragging) && old(startCell).Some? && old(startCell).value != ""
        then CellsInLine(old(startCell).value, cellId)
        else old(selectedCells)
      ensures isDragging == old(isDragging) && startCell == old(startCell)
      ensures cells == old(cells) && foundWords == old(foundWords)
      ensures showCelebrationPopup == old(showCelebrationPopup)
    {
      if isDragging && startCell.Some? && startCell.value != "" {
        var cellsInLine := GetCellsInLine(startCell.value, cellId);
        selectedCells := cellsInLine;
        pointerCell := cellId;
      }
    }

    /** `handleCellMouseUp`: check the selection, record a new find with the
        next palette colour, then end the drag in every case.  Returns whether
        the celebration fires. */
    method MouseUp() returns (celebrate: bool)
      requires Valid()
      modifies this
      ensures Valid()
      ensures !isDragging && startCell == None && selectedCells == []
      ensures var find := NewFind(old(isDragging), old(cells), old(selectedCells), old(foundWords));
        if find.Some? then
          cells == MarkFound(old(cells), old(selectedCells), Colors[|old(foundWords)| % |Colors|]) &&
          foundWords == old(foundWords) + [find.value] &&
          celebrate == (|old(foundWords)| + 1 >= |WordList|)
        else
          cells == old(cells) && foundWords == old(foundWords) && !celebrate
      ensures showCelebrationPopup == (old(showCelebrationPopup) || celebrate)
      ensures celebrate ==> |foundWords| == |WordList|
    {
      celebrate := false;
      if isDragging && |selectedCells| > 0 {
        var selectedWord := WordFromCells(cells, selectedCells);
        var targetWord := FindTarget(WordList, selectedWord);
        if targetWord.Some? && targetWord.value.word !in foundWords {
          var color := Colors[|foundWords| % |Colors|];
          MarkFoundKeepsLayout(cells, selectedCells, color);
          cells := MarkFound(cells, selectedCells, color);
          celebrate := |foundWords| + 1 >= |WordList|;
          RecordFind(foundWords, targetWord.value);
          foundWords := foundWords + [targetWord.value.word];
          if celebrate {
            showCelebrationPopup := true;
          }
        }
      }
      isDragging := false;
      startCell := None;
      selectedCells := [];
    }

    /** `handleMouseLeave`: abandon the drag without checking anything. */
    method MouseLeave()
      requires Valid()
      modifies this
      ensures Valid()
      ensures !isDragging && startCell == None && selectedCells == []
      ensures cells == old(cells) && foundWords == old(foundWords)
      ensures showCelebrationPopup == old(showCelebrationPopup)
    {
      isDragging := false;
      startCell := None;
      selectedCells := [];
    }

    /** The popup's timer or its button hides the celebration. */
    method DismissCelebration()
      requires Valid()
      modifies this`showCelebrationPopup
      ensures Valid() && !showCelebrationPopup
    {
      showCelebrationPopup := false;
    }

    /** `resetGame`: forget the found words and the drag, clear every cell's
        found flag and colour; ids and letters stay. */
    method Reset()
      requires Valid()
      modifies this
      ensures Valid()
      ensures foundWords == [] && !isDragging && startCell == None && selectedCells == []
      ensures cells == ClearFound(old(cells))
      ensures showCelebrationPopup == old(showCelebrationPopup)
    {
      foundWords := [];
      isDragging := false;
      startCell := None;
      selectedCells := [];
      ClearFoundKeepsLayout(cells);
      cells := ClearFound(cells);
    }
  }

  /** After a reset every cell has its original id and letter and is neither
      found nor coloured: the cell list is the initial one again. */
  lemma ResetRestoresInitialCells(cells: seq<Cell>)
    requires CellsLaidOut(cells)
    ensures ClearFound(cells) == InitialCells()
  {
    forall i | 0 <= i < |cells| ensures ClearFound(cells)[i] == InitialCells()[i] {
      LaidOutLetter(cells, i);
      InitialCellAt(i);
    }
  }

  /** Released over the laid-out cells, the sample drag records AIRLINE. */
  lemma AirlineFind(cells: seq<Cell>)
    requires CellsLaidOut(cells)
    ensures NewFind(true, cells, CellsInLine("5-1", "5-7"), []) == Some("AIRLINE")
  {
    AirlineExample(cells);
    AirlineSelection();
  }

  /** Row 5 meets the sample line exactly in columns 1 to 7. */
  lemma AirlineRow(c: nat)
    requires c < Cols
    ensures Coord(5, c) in LinePath(Coord(5, 1), Coord(5, 7)) <==> 1 <= c <= 7
  {
    RowPath(5, 1, 7);
    var p := LinePath(Coord(5, 1), Coord(5, 7));
    if 1 <= c <= 7 {
      assert p[c - 1] == Coord(5, c);
    }
  }

  /** The ids of the sample drag's end cells. */
  lemma AirlineIds()
    ensures CellId(5, 1) == "5-1" && CellId(5, 7) == "5-7"
  {
  }

  /** Marking the sample drag in red on unmarked laid-out cells colours
      exactly columns 1 to 7 of row 5. */
  lemma AirlineMarks(cells: seq<Cell>)
    requires CellsLaidOut(cells)
    requires forall i :: 0 <= i < |cells| ==> !cells[i].isFound
    ensures var row := MarkFound(cells, CellsInLine("5-1", "5-7"), "red")[Cols * 5..Cols * 6];
      |row| == Cols &&
      forall c :: 0 <= c < Cols ==>
        row[c].isFound == (1 <= c <= 7) &&
        (row[c].isFound ==> row[c].foundColor == Some("red"))
  {
    var row := MarkFound(cells, CellsInLine("5-1", "5-7"), "red")[Cols * 5..Cols * 6];
    forall c | 0 <= c < Cols
      ensures row[c].isFound == (1 <= c <= 7)
      ensures row[c].isFound ==> row[c].foundColor == Some("red")
    {
      AirlineRowAt(cells, c);
    }
  }

  /** Column `c` of the slice of row 5 after marking the sample drag. */
  lemma AirlineRowAt(cells: seq<Cell>, c: nat)
    requires CellsLaidOut(cells)
    requires forall i :: 0 <= i < |cells| ==> !cells[i].isFound
    requires c < Cols
    ensures var row := MarkFound(cells, CellsInLine("5-1", "5-7"), "red")[Cols * 5..Cols * 6];
      |row| == Cols &&
      row[c].isFound == (1 <= c <= 7) &&
      (row[c].isFound ==> row[c].foundColor == Some("red"))
  {
    var m := MarkFound(cells, CellsInLine(CellId(5, 1), CellId(5, 7)), "red");
    AirlineMarksAt(cells, c);
    RowSliceAt(m, 5, c);
    AirlineLine();
  }

  /** The sample drag's line, by its literal ids and by printed positions. */
  lemma AirlineLine()
    ensures CellsInLine("5-1", "5-7") == CellsInLine(CellId(5, 1), CellId(5, 7))
  {
    AirlineIds();
  }

  /** Column `c` of row 5 after marking the sample drag. */
  lemma AirlineMarksAt(cells: seq<Cell>, c: nat)
    requires CellsLaidOut(cells)
    requires forall i :: 0 <= i < |cells| ==> !cells[i].isFound
    requires c < Cols
    ensures var m := MarkFound(cells, CellsInLine(CellId(5, 1), CellId(5, 7)), "red");
      |m| == Rows * Cols &&
      m[Cols * 5 + c].isFound == (1 <= c <= 7) &&
      (m[Cols * 5 + c].isFound ==> m[Cols * 5 + c].foundColor == Some("red"))
  {
    MarkFoundExactly(cells, Coord(5, 1), Coord(5, 7), "red");
    PositionOfIndex(5, c);
    AirlineRow(c);
  }

  /** Column `c` of the slice of row `r` is the cell at index `Cols * r + c`. */
  lemma RowSliceAt(m: seq<Cell>, r: nat, c: nat)
    requires |m| == Rows * Cols && r < Rows && c < Cols
    ensures |m[Cols * r..Cols * (r + 1)]| == Cols
    ensures m[Cols * r..Cols * (r + 1)][c] == m[Cols * r + c]
  {
  }

  /** No cell of the initial list is found. */
  lemma InitialCellsUnfound()
    ensures forall i :: 0 <= i < |InitialCells()| ==> !InitialCells()[i].isFound
  {
    forall i | 0 <= i < |InitialCells()| ensures !InitialCells()[i].isFound {
      InitialCellAt(i);
    }
  }

  /** The source's concrete scenario on a fresh game: drag from (5,1) to
      (5,7) and release. AIRLINE is recorded, with the first colour on exactly
      columns 1 to 7 of row 5, and the celebration does not fire yet. */
  method AirlineScenario() returns (found: seq<string>, row5: seq<Cell>, celebrate: bool)
    ensures found == ["AIRLINE"] && !celebrate
    ensures |row5| == Cols
    ensures forall c :: 0 <= c < Cols ==>
      row5[c].isFound == (1 <= c <= 7) &&
      (row5[c].isFound ==> row5[c].foundColor == Some("red"))
  {
    var g := new Game();
    InitialCellsUnfound();
    AirlineMarks(g.cells);
    AirlineFind(g.cells);
    AirlineIds();
    CellIdRoundTrip(5, 1);
    CellIdRoundTrip(5, 7);
    g.MouseDown("5-1");
    g.MouseEnter("5-7");
    celebrate := g.MouseUp();
    found := g.foundWords;
    row5 := g.cells[Cols * 5..Cols * 6];
  }
}
