/** What the console shows: printing a text on a cleared screen leaves exactly the last 25 rows of
    that text laid out in 80 columns.  The layout is defined on the whole text at once, row by row
    from the front, without a cursor and without scrolling.
 */
module ConsoleWindow {
  import opened Console

  /** The number of leading characters of `text` that share its first row. */
  function RowLength(text: string): (n: nat)
    ensures n <= |text| && n <= NUM_COLS
    ensures forall i :: 0 <= i < n ==> !IsBreak(text[i])
    ensures n == |text| || n == NUM_COLS || IsBreak(text[n])
  {
    FirstRow(text, 0)
  }

  function FirstRow(text: string, from: nat): (n: nat)
    requires from <= |text| && from <= NUM_COLS
    requires forall i :: 0 <= i < from ==> !IsBreak(text[i])
    ensures from <= n <= |text| && n <= NUM_COLS
    ensures forall i :: 0 <= i < n ==> !IsBreak(text[i])
    ensures n == |text| || n == NUM_COLS || IsBreak(text[n])
    decreases |text| - from
  {
    if from == |text| || from == NUM_COLS || IsBreak(text[from]) then from else FirstRow(text, from + 1)
  }

  /** The rows of a text: a full row starts a new one at once, and so does a line break. */
  function Rows(text: string): (rows: seq<string>)
    ensures |rows| > 0 && |rows[|rows| - 1]| < NUM_COLS
    ensures forall r :: 0 <= r < |rows| ==> |rows[r]| <= NUM_COLS
    decreases |text|
  {
    var n := RowLength(text);
    if n == NUM_COLS then [text[..n]] + Rows(text[n..])
    else if n == |text| then [text]
    else [text[..n]] + Rows(text[n + 1..])
  }

  /** The cell of row `r`, column `c` of a layout. */
  function CellAt(rows: seq<string>, r: int, c: int, attr: nat): Cell {
    if 0 <= r < |rows| && 0 <= c < |rows[r]| then Cell(rows[r][c], attr) else Cell(' ', attr)
  }

  /** The first row that a window on the end of `rows` shows. */
  function Top(rows: seq<string>): nat {
    if |rows| <= NUM_ROWS then 0 else |rows| - NUM_ROWS
  }

  /** The last row of the layout is on a screen that starts at row `top`. */
  predicate Fits(rows: seq<string>, top: nat) {
    top < |rows| <= top + NUM_ROWS
  }

  /** The screen that shows a layout from row `top` on, with the cursor after its last character. */
  function Pane(rows: seq<string>, top: nat, attr: nat): Screen
    requires Fits(rows, top)
  {
    Screen(seq(CELLS, (i: nat) => CellAt(rows, top + i / NUM_COLS, i % NUM_COLS, attr)),
           |rows[|rows| - 1]|, |rows| - 1 - top)
  }

  /** The screen that shows the end of a layout. */
  function Window(rows: seq<string>, attr: nat): Screen
    requires |rows| > 0
  {
    Pane(rows, Top(rows), attr)
  }

  /** The row that a screen shows first once it scrolled as far as a layout needs. */
  function Scrolled(rows: seq<string>, top: nat): nat {
    if top < Top(rows) then Top(rows) else top
  }

  /** How one more character changes a layout. */
  function Extend(rows: seq<string>, c: char): (r: seq<string>)
    requires |rows| > 0
    ensures |r| > 0
  {
    var k := |rows| - 1;
    if IsBreak(c) then rows + [""]
    else if |rows[k]| + 1 == NUM_COLS then rows[..k] + [rows[k] + [c], ""]
    else rows[..k] + [rows[k] + [c]]
  }

  lemma {:induction false} RowLengthUnique(text: string, n: nat)
    requires n <= |text| && n <= NUM_COLS
    requires forall i :: 0 <= i < n ==> !IsBreak(text[i])
    requires n == |text| || n == NUM_COLS || IsBreak(text[n])
    ensures RowLength(text) == n
  {
  }

  lemma {:induction false} ExtendBehind(first: string, rows: seq<string>, c: char)
    requires |rows| > 0
    ensures Extend([first] + rows, c) == [first] + Extend(rows, c)
  {
    var all, k := [first] + rows, |rows| - 1;
    assert all[..k + 1] == [first] + rows[..k];
  }

  /** The layout of a text whose first row ends before the end of the text. */
  lemma {:induction false} RowsOf(text: string, n: nat, next: nat)
    requires n <= next <= |text| && RowLength(text) == n
    requires n == next == NUM_COLS || (n < NUM_COLS && next == n + 1)
    ensures Rows(text) == [text[..n]] + Rows(text[next..])
  {
  }

  lemma {:induction false} RowsOfShort(text: string)
    requires RowLength(text) == |text| < NUM_COLS
    ensures Rows(text) == [text]
  {
  }

  /** Appending a character to a text only touches the end of its layout. */
  lemma {:induction false} RowsAppend(text: string, c: char)
    ensures Rows(text + [c]) == Extend(Rows(text), c)
    decreases |text|
  {
    hide Rows, Extend, FirstRow, RowLength;
    var n := RowLength(text);
    var all := text + [c];
    if n < |text| || n == NUM_COLS {
      var next := if n == NUM_COLS then n else n + 1;
      RowLengthUnique(all, n);
      RowsOf(text, n, next);
      RowsOf(all, n, next);
      assert all[..n] == text[..n] && all[next..] == text[next..] + [c];
      RowsAppend(text[next..], c);
      ExtendBehind(text[..n], Rows(text[next..]), c);
    } else {
      RowsOfShort(text);
      RowsAppendShort(text, c);
    }
  }

  lemma {:induction false} Snoc(text: string, c: char)
    ensures var all := text + [c]; all[..|text|] == text && all[..|all|] == all && all[|all|..] == ""
  {
  }

  lemma {:induction false} RowsAppendShort(text: string, c: char)
    requires RowLength(text) == |text| < NUM_COLS
    ensures Rows(text + [c]) == Extend([text], c)
  {
    if IsBreak(c) {
      RowsBroken(text, c);
    } else if |text| + 1 == NUM_COLS {
      RowsFilled(text + [c]);
    } else {
      RowLengthUnique(text + [c], |text| + 1);
      RowsOfShort(text + [c]);
    }
  }

  lemma {:induction false} RowsBroken(text: string, c: char)
    requires RowLength(text) == |text| < NUM_COLS && IsBreak(c)
    ensures Rows(text + [c]) == [text, ""]
  {
    var n, all := |text|, text + [c];
    Snoc(text, c);
    RowLengthUnique(all, n);
    RowsOf(all, n, n + 1);
    RowsOfShort(all[n + 1..]);
  }

  lemma {:induction false} RowsFilled(all: string)
    requires |all| == NUM_COLS && forall i :: 0 <= i < |all| ==> !IsBreak(all[i])
    ensures Rows(all) == [all, ""]
  {
    RowLengthUnique(all, NUM_COLS);
    RowsOf(all, NUM_COLS, NUM_COLS);
    RowsOfShort(all[NUM_COLS..]);
    assert all[..NUM_COLS] == all;
  }

  lemma {:induction false} Position(i: nat, r: nat, c: nat)
    requires c < NUM_COLS
    ensures i == NUM_COLS * r + c <==> i / NUM_COLS == r && i % NUM_COLS == c
  {
  }

  lemma {:induction false} PaneCells(rows: seq<string>, top: nat, attr: nat, cells: seq<Cell>)
    requires Fits(rows, top) && |cells| == CELLS
    requires forall i :: 0 <= i < CELLS ==> cells[i] == CellAt(rows, top + i / NUM_COLS, i % NUM_COLS, attr)
    ensures cells == Pane(rows, top, attr).cells
  {
  }

  /** Starting a row below the last one shows the layout with one empty row more. */
  lemma {:induction false} RowStep(rows: seq<string>, top: nat, attr: nat)
    requires Fits(rows, top)
    ensures var s := Pane(rows, top, attr);
            AtRow(s.cells, s.y + 1, attr) == Pane(rows + [""], Scrolled(rows + [""], top), attr)
  {
    var s, more := Pane(rows, top, attr), rows + [""];
    var r := AtRow(s.cells, s.y + 1, attr);
    forall i | 0 <= i < CELLS
      ensures r.cells[i] == CellAt(more, Scrolled(more, top) + i / NUM_COLS, i % NUM_COLS, attr)
    {
      if s.y + 1 == NUM_ROWS && i < CELLS - NUM_COLS {
        assert r.cells[i] == s.cells[i + NUM_COLS];
        assert (i + NUM_COLS) / NUM_COLS == i / NUM_COLS + 1 && (i + NUM_COLS) % NUM_COLS == i % NUM_COLS;
      }
    }
    PaneCells(more, Scrolled(more, top), attr, r.cells);
  }

  /** Storing a character at the cursor shows the layout with that character at its end. */
  lemma {:induction false} StoreStep(rows: seq<string>, top: nat, c: char, attr: nat)
    requires Fits(rows, top) && |rows[|rows| - 1]| < NUM_COLS
    ensures var s := Pane(rows, top, attr);
            s.cells[NUM_COLS * s.y + s.x := Cell(c, attr)]
            == Pane(rows[..|rows| - 1] + [rows[|rows| - 1] + [c]], top, attr).cells
  {
    var s := Pane(rows, top, attr);
    var more := rows[..|rows| - 1] + [rows[|rows| - 1] + [c]];
    var cells := s.cells[NUM_COLS * s.y + s.x := Cell(c, attr)];
    forall i | 0 <= i < CELLS
      ensures cells[i] == CellAt(more, top + i / NUM_COLS, i % NUM_COLS, attr)
    {
      Position(i, s.y, s.x);
    }
    PaneCells(more, top, attr, cells);
  }

  /** One putc shows the layout with one more character, scrolled if it must be. */
  lemma {:induction false} PutCharStep(rows: seq<string>, top: nat, c: char, attr: nat)
    requires Fits(rows, top) && |rows[|rows| - 1]| < NUM_COLS
    ensures OnScreen(Pane(rows, top, attr)) && Fits(Extend(rows, c), Scrolled(Extend(rows, c), top))
    ensures PutChar(Pane(rows, top, attr), c, attr) == Pane(Extend(rows, c), Scrolled(Extend(rows, c), top), attr)
  {
    var k := |rows| - 1;
    if IsBreak(c) {
      RowStep(rows, top, attr);
    } else {
      StoreStep(rows, top, c, attr);
      var more := rows[..k] + [rows[k] + [c]];
      if |rows[k]| + 1 == NUM_COLS {
        RowStep(more, top, attr);
        assert more + [""] == Extend(rows, c);
      }
    }
  }

  lemma {:induction false} EmptyPane(attr: nat)
    ensures Rows("") == [""] && Screen(Blanks(CELLS, attr), 0, 0) == Pane(Rows(""), 0, attr)
  {
    RowsOfShort("");
    PaneCells([""], 0, attr, Blanks(CELLS, attr));
  }

  /** Text only adds rows. */
  lemma {:induction false} RowsGrow(rows: seq<string>, c: char)
    requires |rows| > 0
    ensures |rows| <= |Extend(rows, c)|
  {
  }

  /** Text on a screen that shows a layout shows the layout with that text at its end. */
  lemma {:induction false} PutTextStep(text: string, top: nat, more: string, attr: nat)
    requires Fits(Rows(text), top)
    ensures OnScreen(Pane(Rows(text), top, attr))
    ensures |Rows(text)| <= |Rows(text + more)|
    ensures Fits(Rows(text + more), Scrolled(Rows(text + more), top))
    ensures PutText(Pane(Rows(text), top, attr), more, attr)
            == Pane(Rows(text + more), Scrolled(Rows(text + more), top), attr)
    decreases |more|
  {
    hide Rows, Extend, PutChar, Pane;
    PutCharStep(Rows(text), top, ' ', attr);
    if more == [] {
      assert text + more == text;
    } else {
      var n := |more| - 1;
      var front := text + more[..n];
      PutTextStep(text, top, more[..n], attr);
      PutCharStep(Rows(front), Scrolled(Rows(front), top), more[n], attr);
      RowsGrow(Rows(front), more[n]);
      RowsAppend(front, more[n]);
      assert front + [more[n]] == text + more;
    }
  }

  /** Main result: a text printed on a cleared screen shows the last 25 rows of its layout. */
  lemma {:induction false} ShowsLastRows(text: string, attr: nat)
    ensures PutText(Screen(Blanks(CELLS, attr), 0, 0), text, attr) == Window(Rows(text), attr)
  {
    hide Rows, PutText, Pane;
    EmptyPane(attr);
    PutTextStep("", 0, text, attr);
    assert "" + text == text;
  }

  // ----- rubbing out -----

  function Spaces(n: nat): (s: string) {
    seq(n, _ => ' ')
  }

  /** The text that a backspace leaves: the last character is gone, and in place of a line break there are
      spaces up to the last column. */
  function Rubbed(text: string): string
    requires text != ""
  {
    var front := text[..|text| - 1];
    if IsBreak(text[|text| - 1]) then front + Spaces(NUM_COLS - 1 - |Rows(front)[|Rows(front)| - 1]|) else front
  }

  lemma {:induction false} BlankAtEnd(rows: seq<string>, top: nat, attr: nat)
    requires Fits(rows, top) && |rows[|rows| - 1]| < NUM_COLS
    ensures var s := Pane(rows, top, attr); OnScreen(s) && s.cells[Place(s)] == Cell(' ', attr)
  {
    var s := Pane(rows, top, attr);
    Position(Place(s), s.y, s.x);
  }

  /** Rubbing out a character takes it back. */
  lemma {:induction false} RubChar(rows: seq<string>, top: nat, c: char, attr: nat)
    requires |rows| > 0 && |rows[|rows| - 1]| < NUM_COLS && !IsBreak(c)
    requires Fits(Extend(rows, c), top) && Place(Pane(Extend(rows, c), top, attr)) > 0
    ensures OnScreen(Pane(Extend(rows, c), top, attr)) && Fits(rows, top)
    ensures Backspaced(Pane(Extend(rows, c), top, attr), attr) == Pane(rows, top, attr)
  {
    var k := |rows| - 1;
    assert Fits(rows, top) && Place(Pane(rows, top, attr)) < CELLS - 1 && Scrolled(Extend(rows, c), top) == top;
    hide Extend, Pane;
    PutCharStep(rows, top, c, attr);
    BlankAtEnd(rows, top, attr);
    BackspaceUndoes(Pane(rows, top, attr), c, attr);
  }

  /** Padding a layout with spaces does not show, except for the cursor. */
  lemma {:induction false} RubBreak(rows: seq<string>, top: nat, pad: nat, attr: nat)
    requires |rows| > 0 && |rows[|rows| - 1]| + pad == NUM_COLS - 1
    requires Fits(rows + [""], top) && Place(Pane(rows + [""], top, attr)) > 0
    ensures OnScreen(Pane(rows + [""], top, attr))
    ensures var padded := rows[..|rows| - 1] + [rows[|rows| - 1] + Spaces(pad)];
      Fits(padded, top) && Backspaced(Pane(rows + [""], top, attr), attr) == Pane(padded, top, attr)
  {
    var k := |rows| - 1;
    var s, padded := Pane(rows + [""], top, attr), rows[..k] + [rows[k] + Spaces(pad)];
    var r := Backspaced(s, attr);
    BackspacedPlace(s, attr);
    SamePlace(r, Pane(padded, top, attr));
    forall i | 0 <= i < CELLS
      ensures r.cells[i] == CellAt(padded, top + i / NUM_COLS, i % NUM_COLS, attr)
    {
      Position(i, s.y - 1, NUM_COLS - 1);
    }
    PaneCells(padded, top, attr, r.cells);
  }

  /** Spaces that stay in the last row. */
  lemma {:induction false} RowsPadded(text: string, pad: nat)
    requires |Rows(text)[|Rows(text)| - 1]| + pad < NUM_COLS
    ensures var rows := Rows(text); Rows(text + Spaces(pad)) == rows[..|rows| - 1] + [rows[|rows| - 1] + Spaces(pad)]
    decreases pad
  {
    hide Rows;
    if pad == 0 {
      assert text + Spaces(0) == text && Rows(text)[|Rows(text)| - 1] + Spaces(0) == Rows(text)[|Rows(text)| - 1];
    } else {
      RowsPadded(text, pad - 1);
      RowsAppend(text + Spaces(pad - 1), ' ');
      assert Spaces(pad - 1) + [' '] == Spaces(pad);
      assert (text + Spaces(pad - 1)) + [' '] == text + Spaces(pad);
      assert (Rows(text)[|Rows(text)| - 1] + Spaces(pad - 1)) + [' '] == Rows(text)[|Rows(text)| - 1] + Spaces(pad);
    }
  }

  lemma {:induction false} NothingToRub(top: nat, attr: nat)
    requires Fits(Rows(""), top)
    ensures Place(Pane(Rows(""), top, attr)) == 0
  {
    RowsOfShort("");
  }

  /** A backspace on a screen that shows a layout shows the layout of the text it leaves, across the start of a
      row too. */
  lemma {:induction false} RubStep(text: string, top: nat, attr: nat)
    requires Fits(Rows(text), top) && Place(Pane(Rows(text), top, attr)) > 0
    ensures text != "" && OnScreen(Pane(Rows(text), top, attr)) && Fits(Rows(Rubbed(text)), top)
    ensures Backspaced(Pane(Rows(text), top, attr), attr) == Pane(Rows(Rubbed(text)), top, attr)
  {
    hide Rows, Pane, Place;
    if text == "" {
      NothingToRub(top, attr);
    }
    var n := |text| - 1;
    var front, c := text[..n], text[n];
    var rows := Rows(front);
    RowsAppend(front, c);
    assert front + [c] == text;
    if IsBreak(c) {
      var pad := NUM_COLS - 1 - |rows[|rows| - 1]|;
      RowsPadded(front, pad);
      RubBreak(rows, top, pad, attr);
    } else {
      RubChar(rows, top, c, attr);
    }
  }
}
