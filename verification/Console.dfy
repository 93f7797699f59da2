/** The text console of lib.c: one block of video memory that holds the visible page and the three
    hidden pages, the pointer that library output goes through, and a cursor per terminal.

    A terminal's *logical screen* is the visible page while the terminal is shown and its own hidden
    page otherwise.  Every operation here is specified by its effect on the three logical screens.
 */
module Console {
  const NUM_COLS := 80
  const NUM_ROWS := 25
  const CELLS := 2000      // NUM_ROWS * NUM_COLS, also VIDEO_SIZE in two-byte cells
  const PAGE := 2048       // cells between the starts of VIDEO, VIDEO_0, VIDEO_1 and VIDEO_2
  const NUM_TERMINALS := 3

  datatype Cell = Cell(ch: char, attr: nat)

  datatype Screen = Screen(cells: seq<Cell>, x: nat, y: nat)

  predicate OnScreen(s: Screen) {
    |s.cells| == CELLS && s.x < NUM_COLS && s.y < NUM_ROWS
  }

  /** How far the cursor is from the top left corner. */
  function Place(s: Screen): nat {
    NUM_COLS * s.y + s.x
  }

  predicate IsBreak(c: char) {
    c == '\n' || c == '\r'
  }

  function Blanks(n: nat, attr: nat): seq<Cell> {
    seq(n, _ => Cell(' ', attr))
  }

  /** The screen after the cursor moved to column 0 of row `y`, scrolling if that row is off screen. */
  function AtRow(cells: seq<Cell>, y: nat, attr: nat): Screen
    requires |cells| == CELLS
  {
    if y < NUM_ROWS then Screen(cells, 0, y)
    else Screen(cells[NUM_COLS..] + Blanks(NUM_COLS, attr), 0, y - 1)
  }

  /** The screen after one character. */
  function PutChar(s: Screen, c: char, attr: nat): (r: Screen)
    requires OnScreen(s)
    ensures OnScreen(r)
  {
    if IsBreak(c) then AtRow(s.cells, s.y + 1, attr)
    else
      var cells := s.cells[NUM_COLS * s.y + s.x := Cell(c, attr)];
      if s.x + 1 == NUM_COLS then AtRow(cells, s.y + 1, attr) else Screen(cells, s.x + 1, s.y)
  }

  /** The screen after a whole text. */
  function PutText(s: Screen, text: string, attr: nat): (r: Screen)
    requires OnScreen(s)
    ensures OnScreen(r)
  {
    if text == [] then s
    else PutChar(PutText(s, text[..|text| - 1], attr), text[|text| - 1], attr)
  }

  function Cleared(s: Screen, attr: nat): Screen {
    s.(cells := Blanks(CELLS, attr))
  }

  /** Where `set_pos` puts the cursor: columns past the end wrap down, rows stop at the last one. */
  function Moved(s: Screen, x: nat, y: nat): Screen {
    var row := y + x / NUM_COLS;
    s.(x := x % NUM_COLS, y := if row < NUM_ROWS then row else NUM_ROWS - 1)
  }

  /** The screen after the character before the cursor was rubbed out. */
  function Backspaced(s: Screen, attr: nat): (r: Screen)
    requires OnScreen(s) && (s.x > 0 || s.y > 0)
    ensures OnScreen(r)
  {
    var x, y := if s.x == 0 then NUM_COLS - 1 else s.x - 1, if s.x == 0 then s.y - 1 else s.y;
    Moved(PutChar(Moved(s, x, y), ' ', attr), x, y)
  }

  /** A position on the screen is where the cursor goes; beyond it the cursor stays in the last row. */
  lemma {:induction false} MovedPlace(s: Screen, x: nat, y: nat)
    requires OnScreen(s)
    ensures OnScreen(Moved(s, x, y)) && Moved(s, x, y).cells == s.cells
    ensures NUM_COLS * y + x < CELLS ==> Place(Moved(s, x, y)) == NUM_COLS * y + x
    ensures NUM_COLS * y + x >= CELLS ==> Moved(s, x, y).y == NUM_ROWS - 1 && (x - Moved(s, x, y).x) % NUM_COLS == 0
  {
    assert x == NUM_COLS * (x / NUM_COLS) + x % NUM_COLS;
  }

  /** A backspace blanks the cell before the cursor, across the start of a row too, and moves the cursor there. */
  lemma {:induction false} BackspacedPlace(s: Screen, attr: nat)
    requires OnScreen(s) && Place(s) > 0
    ensures Place(Backspaced(s, attr)) == Place(s) - 1
    ensures Backspaced(s, attr).cells == s.cells[Place(s) - 1 := Cell(' ', attr)]
  {
  }

  /** The cursor position follows from the place. */
  lemma {:induction false} SamePlace(s: Screen, r: Screen)
    requires OnScreen(s) && OnScreen(r) && Place(s) == Place(r)
    ensures s.x == r.x && s.y == r.y
  {
  }

  /** A backspace undoes a character that was put on a blank cell and did not scroll the screen. */
  lemma {:induction false} BackspaceUndoes(s: Screen, c: char, attr: nat)
    requires OnScreen(s) && !IsBreak(c) && s.cells[Place(s)] == Cell(' ', attr) && Place(s) < CELLS - 1
    ensures Place(PutChar(s, c, attr)) == Place(s) + 1 && Backspaced(PutChar(s, c, attr), attr) == s
  {
    var r := PutChar(s, c, attr);
    BackspacedPlace(r, attr);
    SamePlace(s, Backspaced(r, attr));
    assert s.cells[Place(s) := Cell(c, attr)][Place(s) := Cell(' ', attr)] == s.cells;
  }

  /** The attribute of each terminal after `terminal_init`. */
  const ATTRIBUTES: seq<nat> := [0x05, 0x0C, 0x0A]

  class Display {
    const vram: array<Cell>
    var videoMem: nat          // offset in vram of the page that library output goes to
    var screenX: seq<nat>
    var screenY: seq<nat>
    var attributes: seq<nat>
    var curTerminal: nat

    /** Everything but the bounds on the cursors, which putc leaves for a moment. */
    predicate Mapped()
      reads this
    {
      && vram.Length == 4 * PAGE
      && |screenX| == NUM_TERMINALS && |screenY| == NUM_TERMINALS && |attributes| == NUM_TERMINALS
      && curTerminal < NUM_TERMINALS
      && videoMem in {0, PAGE, 2 * PAGE, 3 * PAGE}
      // the hidden page of the terminal on show is stale: nothing may write through it
      && videoMem != Hidden(curTerminal)
    }

    predicate Valid()
      reads this
    {
      Mapped() && forall t :: 0 <= t < NUM_TERMINALS ==> screenX[t] < NUM_COLS && screenY[t] < NUM_ROWS
    }

    static function Hidden(t: nat): nat {
      PAGE * (t + 1)
    }

    /** Where the screen of terminal `t` lives. */
    function Base(t: nat): nat
      reads this
    {
      if t == curTerminal then 0 else Hidden(t)
    }

    function Logical(t: nat): (s: Screen)
      requires Valid() && t < NUM_TERMINALS
      reads this, vram
      ensures OnScreen(s)
    {
      Screen(vram[Base(t)..Base(t) + CELLS], screenX[t], screenY[t])
    }

    /** The three logical screens. */
    function Screens(): (s: seq<Screen>)
      requires Valid()
      reads this, vram
      ensures |s| == NUM_TERMINALS && forall t :: 0 <= t < NUM_TERMINALS ==> s[t] == Logical(t)
    {
      [Logical(0), Logical(1), Logical(2)]
    }

    /** The terminal whose screen library output reaches (get_screen_xy_idx). */
    function Target(): (t: nat)
      requires Mapped()
      reads this
      ensures t < NUM_TERMINALS && videoMem == Base(t)
    {
      if videoMem == PAGE then 0
      else if videoMem == 2 * PAGE then 1
      else if videoMem == 3 * PAGE then 2
      else curTerminal
    }

    /** The page that library output goes to. */
    function Page(): (p: seq<Cell>)
      requires Mapped()
      reads this, vram
      ensures |p| == CELLS
    {
      vram[videoMem..videoMem + CELLS]
    }

    /** Only the target's screen changed, to `s`: what every output operation does. */
    ghost predicate Wrote(before: seq<Screen>, s: Screen)
      requires Valid()
      reads this, vram
    {
      |before| == NUM_TERMINALS && Screens() == before[Target() := s]
    }

    constructor ()
      ensures Valid() && fresh(vram) && curTerminal == 0 && videoMem == 0
      ensures screenX == [0, 0, 0] && screenY == [0, 0, 0] && attributes == [0x05, 0x05, 0x05]
    {
      vram := new Cell[4 * PAGE](_ => Cell('\0', 0));
      videoMem := 0;
      screenX := [0, 0, 0];
      screenY := [0, 0, 0];
      attributes := [0x05, 0x05, 0x05];
      curTerminal := 0;
    }

    /** Relative to the given memory and cursors, only the target's page and cursor changed, to `s`. */
    ghost predicate Only(was: seq<Cell>, xs: seq<nat>, ys: seq<nat>, s: Screen)
      requires Mapped() && |xs| == NUM_TERMINALS && |ys| == NUM_TERMINALS
      reads this, vram
    {
      && |was| == vram.Length
      && (forall i :: 0 <= i < vram.Length && !(videoMem <= i < videoMem + CELLS) ==> vram[i] == was[i])
      && Page() == s.cells && screenX == xs[Target() := s.x] && screenY == ys[Target() := s.y]
    }

    static lemma {:induction false} SameSlice(v: seq<Cell>, w: seq<Cell>, page: nat, base: nat)
      requires |v| == |w| && base + CELLS <= |v| && (base + CELLS <= page || page + CELLS <= base)
      requires forall i :: 0 <= i < |w| && !(page <= i < page + CELLS) ==> w[i] == v[i]
      ensures w[base..base + CELLS] == v[base..base + CELLS]
    {
    }

    /** The pages of two terminals do not overlap, so a write to one page is invisible in the others. */
    twostate lemma WroteFrom(s: Screen)
      requires old(Valid()) && Valid() && OnScreen(s)
      requires videoMem == old(videoMem) && curTerminal == old(curTerminal)
      requires Only(old(vram[..]), old(screenX), old(screenY), s)
      ensures Wrote(old(Screens()), s)
    {
      ghost var was := old(vram[..]);
      forall t | 0 <= t < NUM_TERMINALS && t != Target()
        ensures Logical(t) == old(Logical(t))
      {
        assert Base(t) + CELLS <= videoMem || videoMem + CELLS <= Base(t);
        SameSlice(was, vram[..], videoMem, Base(t));
        assert vram[Base(t)..Base(t) + CELLS] == vram[..][Base(t)..Base(t) + CELLS];
      }
    }

    /** memcpy and memmove within video memory. */
    method CopyCells(dst: nat, src: nat, n: nat)
      requires dst + n <= vram.Length && src + n <= vram.Length
      modifies vram
      ensures vram[dst..dst + n] == old(vram[src..src + n])
      ensures forall i :: 0 <= i < vram.Length && !(dst <= i < dst + n) ==> vram[i] == old(vram[i])
    {
      forall i | 0 <= i < n {
        vram[dst + i] := vram[src + i];
      }
    }

    /** The blanking loop of clear and scroll: cells `from` up to the end of the page. */
    method BlankFrom(from: nat)
      requires Mapped() && from <= CELLS
      modifies vram
      ensures Page() == old(Page())[..from] + Blanks(CELLS - from, attributes[Target()])
      ensures forall i :: 0 <= i < vram.Length && !(videoMem <= i < videoMem + CELLS) ==> vram[i] == old(vram[i])
    {
      var i := from;
      while i < NUM_ROWS * NUM_COLS
        invariant from <= i <= CELLS
        invariant forall k :: videoMem <= k < videoMem + from ==> vram[k] == old(vram[k])
        invariant forall k :: videoMem + from <= k < videoMem + i ==> vram[k] == Cell(' ', attributes[Target()])
        invariant forall k :: 0 <= k < vram.Length && !(videoMem <= k < videoMem + CELLS) ==> vram[k] == old(vram[k])
      {
        vram[videoMem + i] := Cell(' ', attributes[Target()]);
        i := i + 1;
      }
      ghost var was, now := old(Page()), Page();
      forall k | 0 <= k < from ensures now[k] == was[k] {
        assert now[k] == vram[videoMem + k] && was[k] == old(vram[videoMem + k]);
      }
      forall k | from <= k < CELLS ensures now[k] == Cell(' ', attributes[Target()]) {
        assert now[k] == vram[videoMem + k];
      }
      Blanked(was, now, from, attributes[Target()]);
    }

    static lemma {:induction false} Blanked(was: seq<Cell>, now: seq<Cell>, from: nat, attr: nat)
      requires |was| == |now| == CELLS && from <= CELLS
      requires forall k :: 0 <= k < from ==> now[k] == was[k]
      requires forall k :: from <= k < CELLS ==> now[k] == Cell(' ', attr)
      ensures now == was[..from] + Blanks(CELLS - from, attr)
    {
    }

    lemma {:induction false} PageSlice(k: nat)
      requires Mapped() && k <= CELLS
      ensures Page()[..k] == vram[videoMem..videoMem + k] && Page()[k..] == vram[videoMem + k..videoMem + CELLS]
    {
      assert Page() == vram[videoMem..videoMem + k] + vram[videoMem + k..videoMem + CELLS];
    }

    /** Moves the page up a row when the cursor has left the screen. */
    method Scroll()
      requires Mapped() && screenY[Target()] <= NUM_ROWS
      modifies this`screenY, vram
      ensures Mapped()
      ensures screenY == old(screenY)[Target() := AtRow(old(Page()), old(screenY[Target()]), attributes[Target()]).y]
      ensures Page() == AtRow(old(Page()), old(screenY[Target()]), attributes[Target()]).cells
      ensures forall i :: 0 <= i < vram.Length && !(videoMem <= i < videoMem + CELLS) ==> vram[i] == old(vram[i])
    {
      if screenY[Target()] >= NUM_ROWS {
        PageSlice(NUM_COLS);
        CopyCells(videoMem, videoMem + NUM_COLS, (NUM_ROWS - 1) * NUM_COLS);
        PageSlice(CELLS - NUM_COLS);
        screenY := screenY[Target() := screenY[Target()] - 1];
        BlankFrom((NUM_ROWS - 1) * NUM_COLS);
      }
    }

    /** Writes one cell at the cursor. */
    method Store(c: char)
      requires Valid()
      modifies vram
      ensures Page() == old(Page())[NUM_COLS * screenY[Target()] + screenX[Target()] := Cell(c, attributes[Target()])]
      ensures forall i :: 0 <= i < vram.Length && !(videoMem <= i < videoMem + CELLS) ==> vram[i] == old(vram[i])
    {
      vram[videoMem + NUM_COLS * screenY[Target()] + screenX[Target()]] := Cell(c, attributes[Target()]);
    }

    /** The line-break branch of putc, and the step to the next row in the other one. */
    method NextRow()
      requires Mapped() && screenY[Target()] < NUM_ROWS
      modifies this`screenY, vram
      ensures Mapped()
      ensures screenY ==
        old(screenY)[Target() := AtRow(old(Page()), old(screenY[Target()]) + 1, attributes[Target()]).y]
      ensures Page() == AtRow(old(Page()), old(screenY[Target()]) + 1, attributes[Target()]).cells
      ensures forall i :: 0 <= i < vram.Length && !(videoMem <= i < videoMem + CELLS) ==> vram[i] == old(vram[i])
    {
      screenY := screenY[Target() := screenY[Target()] + 1];
      Scroll();
    }

    /** The two reductions at the end of putc; the second one changes nothing. */
    method Reduce()
      requires Mapped() && screenX[Target()] <= NUM_COLS && screenY[Target()] < NUM_ROWS
      modifies this`screenX, this`screenY
      ensures Mapped() && screenY == old(screenY)
      ensures screenX ==
        old(screenX)[Target() := if old(screenX[Target()]) == NUM_COLS then 0 else old(screenX[Target()])]
    {
      var t := Target();
      screenX := screenX[t := screenX[t] % NUM_COLS];
      screenY := screenY[t := (screenY[t] + screenX[t] / NUM_COLS) % NUM_ROWS];
    }

    /** The branch of putc for a character, which may fill its row. */
    method Glyph(c: char)
      requires Valid() && !IsBreak(c)
      modifies this`screenX, this`screenY, vram
      ensures Mapped()
      ensures Only(old(vram[..]), old(screenX), old(screenY), PutChar(old(Logical(Target())), c, attributes[Target()]))
    {
      Store(c);
      Advance();
    }

    /** The cursor moves on, to the next row when its row is full. */
    method Advance()
      requires Valid()
      modifies this`screenX, this`screenY, vram
      ensures Mapped()
      ensures var x, y := old(screenX[Target()]), old(screenY[Target()]);
        var next := if x + 1 == NUM_COLS then AtRow(old(Page()), y + 1, attributes[Target()])
                    else Screen(old(Page()), x + 1, y);
        Only(old(vram[..]), old(screenX), old(screenY), next)
    {
      var t := Target();
      screenX := screenX[t := screenX[t] + 1];
      if screenX[t] == NUM_COLS {
        NextRow();
      }
      Reduce();
    }

    method Putc(c: char)
      requires Valid()
      modifies this`screenX, this`screenY, vram
      ensures Valid()
      ensures Wrote(old(Screens()), PutChar(old(Logical(Target())), c, attributes[Target()]))
    {
      if IsBreak(c) {
        NextRow();
        screenX := screenX[Target() := 0];
      } else {
        Glyph(c);
      }
      WroteFrom(PutChar(old(Logical(Target())), c, attributes[Target()]));
    }

    /** puts, and the loop of terminal_write. */
    method Puts(text: string)
      requires Valid()
      modifies this`screenX, this`screenY, vram
      ensures Valid()
      ensures Wrote(old(Screens()), PutText(old(Logical(Target())), text, attributes[Target()]))
    {
      hide Logical, Screens, PutChar;
      var index := 0;
      while index < |text|
        invariant 0 <= index <= |text|
        invariant Valid()
        invariant Wrote(old(Screens()), PutText(old(Logical(Target())), text[..index], attributes[Target()]))
        modifies this`screenX, this`screenY, vram
      {
        Putc(text[index]);
        assert text[..index + 1][..index] == text[..index];
        index := index + 1;
      }
      assert text[..index] == text;
    }

    method Clear()
      requires Valid()
      modifies vram
      ensures Valid() && Wrote(old(Screens()), Cleared(old(Logical(Target())), attributes[Target()]))
    {
      BlankFrom(0);
      WroteFrom(Cleared(old(Logical(Target())), attributes[Target()]));
    }

    /** The two loops of set_pos. */
    static method Wrapped(x0: nat, y0: nat) returns (x: nat, y: nat)
      ensures x == x0 % NUM_COLS
      ensures y == if y0 + x0 / NUM_COLS < NUM_ROWS then y0 + x0 / NUM_COLS else NUM_ROWS - 1
    {
      x, y := x0, y0;
      while x >= NUM_COLS
        invariant x % NUM_COLS == x0 % NUM_COLS && y + x / NUM_COLS == y0 + x0 / NUM_COLS
      {
        x := x - NUM_COLS;
        y := y + 1;
      }
      ghost var row := y;
      while y >= NUM_ROWS
        invariant if row < NUM_ROWS then y == row else NUM_ROWS - 1 <= y <= row
      {
        y := y - 1;
      }
    }

    method SetPos(x0: nat, y0: nat)
      requires Valid()
      modifies this`screenX, this`screenY
      ensures Valid() && Wrote(old(Screens()), Moved(old(Logical(Target())), x0, y0))
    {
      var x, y := Wrapped(x0, y0);
      screenX := screenX[Target() := x];
      screenY := screenY[Target() := y];
      WroteFrom(Moved(old(Logical(Target())), x0, y0));
    }

    /** The screen side of the backspace key. */
    method RubOut()
      requires Valid() && (screenX[Target()] > 0 || screenY[Target()] > 0)
      modifies this`screenX, this`screenY, vram
      ensures Valid() && Wrote(old(Screens()), Backspaced(old(Logical(Target())), attributes[Target()]))
      ensures Target() == old(Target()) && Place(Logical(Target())) == old(Place(Logical(Target()))) - 1
      ensures Logical(Target()).cells ==
        old(Logical(Target()).cells[Place(Logical(Target())) - 1 := Cell(' ', attributes[Target()])])
    {
      BackspacedPlace(Logical(Target()), attributes[Target()]);
      hide PutChar, Moved;
      var x, y := screenX[Target()], screenY[Target()];
      if x == 0 {
        x, y := NUM_COLS - 1, y - 1;
      } else {
        x := x - 1;
      }
      BlankAt(x, y);
      assert Logical(Target()) == Screens()[Target()];
    }

    /** A blank at a position, which becomes the cursor's. */
    method BlankAt(x: nat, y: nat)
      requires Valid()
      modifies this`screenX, this`screenY, vram
      ensures Valid() && videoMem == old(videoMem)
      ensures var attr := attributes[Target()];
        Wrote(old(Screens()), Moved(PutChar(Moved(old(Logical(Target())), x, y), ' ', attr), x, y))
    {
      hide PutChar, Moved, Logical, Screens;
      SetPos(x, y);
      Putc(' ');
      SetPos(x, y);
    }

    /** clear, set_pos(0, 0) and puts, as Ctrl-C and Ctrl-L do. */
    method StartOver(text: string)
      requires Valid()
      modifies this`screenX, this`screenY, vram
      ensures Valid()
      ensures var attr := attributes[Target()];
        Wrote(old(Screens()), PutText(Moved(Cleared(old(Logical(Target())), attr), 0, 0), text, attr))
    {
      hide Cleared, Moved, PutText, Logical, Screens;
      Clear();
      SetPos(0, 0);
      Puts(text);
    }

    /** set_video_context: -1 is ACTIVE_CONTEXT, the visible page.  Only the context of the terminal on show
        would aim output at its stale hidden page. */
    method SetVideoContext(context: int)
      requires Mapped()
      modifies this`videoMem
      ensures Mapped() <==> context != curTerminal
      ensures context == -1 ==> Target() == curTerminal
      ensures 0 <= context < NUM_TERMINALS && context != curTerminal ==> Target() == context
      ensures context == curTerminal ==> videoMem == Hidden(curTerminal)
      ensures !(-1 <= context < NUM_TERMINALS) ==> videoMem == old(videoMem)
    {
      if context == -1 {
        videoMem := 0;
      } else if context == 0 {
        videoMem := PAGE;
      } else if context == 1 {
        videoMem := 2 * PAGE;
      } else if context == 2 {
        videoMem := 3 * PAGE;
      }
    }

    method SetAttribute(attribute: nat, terminal: nat)
      requires Mapped() && terminal < NUM_TERMINALS
      modifies this`attributes
      ensures Mapped() && attributes == old(attributes)[terminal := attribute]
    {
      attributes := attributes[terminal := attribute];
    }

    function PageAt(base: nat): (p: seq<Cell>)
      requires Mapped() && base <= 3 * PAGE
      reads this, vram
      ensures |p| == CELLS
    {
      vram[base..base + CELLS]
    }

    /** Copies one page to another; the pages are far enough apart for the rest to stay as it was. */
    method CopyPage(dst: nat, src: nat)
      requires Mapped() && dst <= 3 && src <= 3
      modifies vram
      ensures PageAt(PAGE * dst) == old(PageAt(PAGE * src))
      ensures forall p :: 0 <= p <= 3 && p != dst ==> PageAt(PAGE * p) == old(PageAt(PAGE * p))
    {
      CopyCells(PAGE * dst, PAGE * src, CELLS);
      forall p | 0 <= p <= 3 && p != dst
        ensures PageAt(PAGE * p) == old(PageAt(PAGE * p))
      {
        assert PAGE * p + CELLS <= PAGE * dst || PAGE * dst + CELLS <= PAGE * p;
      }
    }

    /** The display side of terminal_switch to a terminal that has a process: save_video_context puts
        the visible page on the old terminal's hidden page and load_video_context shows the new
        terminal's hidden page.  All three logical screens survive. */
    method Exchange(newTerminal: nat)
      requires Valid() && videoMem == 0 && newTerminal < NUM_TERMINALS && newTerminal != curTerminal
      modifies this`curTerminal, vram
      ensures Valid() && curTerminal == newTerminal && Screens() == old(Screens())
    {
      var oldTerminal := curTerminal;
      curTerminal := newTerminal;
      CopyPage(oldTerminal + 1, 0);
      CopyPage(0, curTerminal + 1);
      forall t | 0 <= t < NUM_TERMINALS
        ensures Logical(t) == old(Logical(t))
      {
        assert Logical(t).cells == PageAt(Base(t)) == old(PageAt(Base(t)));
      }
    }

    /** The page on show is saved for the terminal that is left. */
    method Leave(newTerminal: nat)
      requires Valid() && videoMem == 0 && newTerminal < NUM_TERMINALS && newTerminal != curTerminal
      modifies this`curTerminal, vram
      ensures Valid() && curTerminal == newTerminal
      ensures forall t :: 0 <= t < NUM_TERMINALS && t != newTerminal ==> Logical(t) == old(Logical(t))
    {
      var oldTerminal := curTerminal;
      curTerminal := newTerminal;
      CopyPage(oldTerminal + 1, 0);
      forall t | 0 <= t < NUM_TERMINALS && t != newTerminal
        ensures Logical(t) == old(Logical(t))
      {
        assert Logical(t).cells == PageAt(Base(t)) == old(PageAt(Base(t)));
      }
    }

    /** The display side of terminal_switch to a terminal without a process: the new terminal starts
        on a blank page. */
    method StartBlank(newTerminal: nat)
      requires Valid() && videoMem == 0 && newTerminal < NUM_TERMINALS && newTerminal != curTerminal
      modifies this`curTerminal, vram
      ensures Valid() && curTerminal == newTerminal
      ensures Wrote(old(Screens()), Cleared(old(Logical(newTerminal)), attributes[newTerminal]))
    {
      Leave(newTerminal);
      Clear();
    }
  }
}
