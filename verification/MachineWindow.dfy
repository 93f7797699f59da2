/** The screens over whole runs: the screen of a terminal shows the layout of what was printed on it and not
    rubbed out since it was last cleared, from the row that the layout made it scroll to.
 */
module MachineWindow {
  import opened Console
  import opened ConsoleWindow
  import opened Keyboard
  import opened Machine
  import opened MachineDrawing
  import opened MachineMoves
  import opened MachineRuns
  import opened MachineScreens
  import opened Wrappers

  // ----- what was printed -----

  /** A text and the row of its layout that the screen shows first. */
  datatype Output = Output(text: string, top: nat)

  /** What was printed on a screen since it was cleared, or nothing if that is not known. */
  type Printed = Option<Output>

  const BLANK: Printed := Some(Output("", 0))

  /** More output scrolls the screen as far as its layout needs. */
  function Also(y: Printed, text: string): Printed {
    if y.None? then None
    else
      var all := y.value.text + text;
      Some(Output(all, Scrolled(Rows(all), y.value.top)))
  }

  /** A backspace takes the last character back, but a row that scrolled away does not come back. */
  function Less(y: Printed): Printed {
    if y.None? || y.value.text == "" then y else Some(Output(Rubbed(y.value.text), y.value.top))
  }

  ghost predicate Shows(s: Screen, y: Printed, attr: nat) {
    y.Some? ==> Fits(Rows(y.value.text), y.value.top) && s == Pane(Rows(y.value.text), y.value.top, attr)
  }

  /** The effect of a key typed while terminal `t` is shown. */
  ghost function KeyPrints(y: Printed, m: State, e: Event, t: nat): Printed
    requires Ok(m) && e.Key? && t == m.shown
  {
    match KeyAction(m, e)
    case Insert(c) => if m.lines[t].pos < BUFFER_SIZE - 1 then Also(y, [c]) else y
    case Erase => if m.lines[t].pos == 0 then y else Less(y)
    case Submit => Also(y, "\n")
    case Interrupt => Also(Also(BLANK, PROMPT), if Ends(m, e) then Farewell(m) else "")
    case Redraw => Also(BLANK, PROMPT)
    case _ => y
  }

  /** The effect of a step. */
  ghost function PrintStep(y: Printed, m: State, e: Event, t: nat): Printed
    requires Ok(m) && Allowed(m, e) && t < NUM_TERMINALS
  {
    if !Draws(m, e, t) then y
    else
      match e
      case Write(buf) => if buf.None? then y else Also(y, buf.value)
      case Fault(message) => Also(Also(y, message), Farewell(m))
      case Halt(_) => Also(y, Farewell(m))
      case Tick(_) => Also(Also(BLANK, PROMPT), Farewell(m))
      case Key(_, _) => if KeyAction(m, e).SwitchTo? then BLANK else KeyPrints(y, m, e, t)
      case _ => y
  }

  /** The fold of a run. */
  ghost function PrintedOn(y: Printed, m: State, es: seq<Event>, t: nat): Printed
    requires Ok(m) && Admissible(m, es) && t < NUM_TERMINALS
    decreases |es|
  {
    if es == [] then y else PrintedOn(PrintStep(y, m, es[0], t), After1(m, es[0]), es[1..], t)
  }

  // ----- terminals that were never started -----

  /** Output is aimed at a terminal that is in turn or shown, and terminals without a process have their
      cursor at the top left corner. */
  ghost predicate Tidy(m: State)
    requires Ok(m)
  {
    && (m.target == m.turn || m.target == m.shown)
    && forall t :: 0 <= t < NUM_TERMINALS && m.stacks[t] == [] ==> m.screens[t].x == 0 && m.screens[t].y == 0
  }

  lemma {:induction false} KeyAims(m: State, e: Event)
    requires Ok(m) && Allowed(m, e) && e.Key?
    ensures After1(m, e).target == After1(m, e).turn || After1(m, e).target == After1(m, e).shown
  {
    hide PutText, Prompted, Echo, Decode, Update, Fresh;
    if Ends(m, e) {
      KeyEnds(m, e.scancode, e.at);
      TerminateFrame(Edited(m.(mods := Update(m.mods, e.scancode)), Interrupt).(target := m.turn), 256);
    } else if Starts(m, e) {
      KeyStarts(m, e.scancode, e.at);
    }
  }

  lemma {:induction false} TerminateShown(m: State, value: int)
    requires Ok(m)
    ensures Terminate(m, value).0.shown == m.shown
  {
  }

  lemma {:induction false} EndAims(m: State, e: Event)
    requires Ok(m) && Allowed(m, e) && (e.Halt? || e.Fault? || e.Tick?) && (m.target == m.turn || m.target == m.shown)
    ensures After1(m, e).target == After1(m, e).turn || After1(m, e).target == After1(m, e).shown
  {
    hide Terminate, PutText, Prompted;
    match e
    case Halt(status) =>
      TerminateFrame(m, status);
      TerminateShown(m, status);
    case Fault(message) =>
      TerminateFrame(Print(m, message), 256);
      TerminateShown(Print(m, message), 256);
    case Tick(_) =>
      if m.kill[m.turn] {
        var m1 := Reprompt(m.(kill := m.kill[m.turn := false]));
        TerminateFrame(m1, 256);
        TerminateShown(m1, 256);
      }
  }

  lemma {:induction false} CallShown(m: State, e: Event)
    requires Ok(m) && Allowed(m, e) && !(e.Halt? || e.Fault? || e.Tick? || e.Key?)
    ensures var m' := After1(m, e); m'.shown == m.shown && m'.turn == m.turn && m'.target == m.target
  {
    hide Terminate, Timer, Keyed, PutText, FirstClosed, Decode, Update, Fresh;
    if !e.Write? {
      CallFrame(m, e);
    }
  }

  lemma {:induction false} StepAims(m: State, e: Event)
    requires Ok(m) && Allowed(m, e) && (m.target == m.turn || m.target == m.shown)
    ensures After1(m, e).target == After1(m, e).turn || After1(m, e).target == After1(m, e).shown
  {
    if e.Key? {
      KeyAims(m, e);
    } else if e.Halt? || e.Fault? || e.Tick? {
      EndAims(m, e);
    } else {
      CallShown(m, e);
    }
  }

  lemma {:induction false} NeverEmptied(m: State, e: Event, t: nat)
    requires Ok(m) && Allowed(m, e) && t < NUM_TERMINALS && After1(m, e).stacks[t] == []
    ensures m.stacks[t] == [] && !(Starts(m, e) && KeyAction(m, e).terminal == t)
  {
    hide Step, Decode, Update, Fresh;
    StepMoves(m, e);
  }

  lemma {:induction false} EmptyUndrawn(m: State, e: Event, t: nat)
    requires Ok(m) && Allowed(m, e) && Tidy(m) && t < NUM_TERMINALS && m.stacks[t] == []
    requires !(Starts(m, e) && KeyAction(m, e).terminal == t)
    ensures !Draws(m, e, t)
  {
    hide Decode, Update, Fresh;
  }

  lemma {:induction false} StepTidy(m: State, e: Event)
    requires Ok(m) && Allowed(m, e) && Tidy(m)
    ensures Tidy(After1(m, e))
  {
    StepAims(m, e);
    var m' := After1(m, e);
    hide After1;
    forall t | 0 <= t < NUM_TERMINALS && m'.stacks[t] == [] ensures m'.screens[t].x == 0 && m'.screens[t].y == 0 {
      NeverEmptied(m, e, t);
      EmptyUndrawn(m, e, t);
      StepDraws(m, e, t);
    }
  }

  // ----- one step and whole runs -----

  lemma {:induction false} AlsoShows(s: Screen, y: Printed, text: string, attr: nat)
    requires OnScreen(s) && Shows(s, y, attr)
    ensures Shows(PutText(s, text, attr), Also(y, text), attr)
  {
    hide Rows, Pane, PutText;
    if y.Some? {
      PutTextStep(y.value.text, y.value.top, text, attr);
    }
  }

  lemma {:induction false} LessShows(s: Screen, y: Printed, attr: nat)
    requires OnScreen(s) && Place(s) > 0 && Shows(s, y, attr)
    ensures Shows(Backspaced(s, attr), Less(y), attr)
  {
    hide Rows, Pane, Backspaced;
    if y.Some? {
      RubStep(y.value.text, y.value.top, attr);
    }
  }

  lemma {:induction false} BlankShows(attr: nat)
    ensures Shows(Screen(Blanks(CELLS, attr), 0, 0), BLANK, attr)
  {
    hide Rows, Pane;
    EmptyPane(attr);
  }

  lemma {:induction false} PromptShows(s: Screen, attr: nat)
    requires OnScreen(s)
    ensures Shows(Prompted(s, attr), Also(BLANK, PROMPT), attr)
  {
    hide Rows, Pane, PutText, Also, Shows;
    BlankShows(attr);
    AlsoShows(Moved(Cleared(s, attr), 0, 0), BLANK, PROMPT, attr);
  }

  lemma {:induction false} CharShows(s: Screen, y: Printed, c: char, attr: nat)
    requires OnScreen(s) && Shows(s, y, attr)
    ensures Shows(PutChar(s, c, attr), Also(y, [c]), attr)
  {
    AlsoShows(s, y, [c], attr);
    OneChar(s, c, attr);
  }

  lemma {:induction false} OneChar(s: Screen, c: char, attr: nat)
    requires OnScreen(s)
    ensures PutText(s, [c], attr) == PutChar(s, c, attr)
  {
    hide PutChar;
    assert [c][..0] == [];
  }

  lemma {:induction false} ErasesOnScreen(m: State, e: Event)
    requires Ok(m) && Allowed(m, e) && e.Key? && KeyAction(m, e).Erase? && m.lines[m.shown].pos > 0
    ensures Place(m.screens[m.shown]) > 0
  {
  }

  lemma {:induction false} KeyShows(y: Printed, m: State, e: Event, t: nat)
    requires Ok(m) && Allowed(m, e) && e.Key? && t == m.shown && Shows(m.screens[t], y, ATTRIBUTES[t])
    requires !KeyAction(m, e).SwitchTo?
    ensures Shows(KeyScreen(m, e, t), KeyPrints(y, m, e, t), ATTRIBUTES[t])
  {
    hide Rows, Pane, PutText, PutChar, Prompted, Backspaced, Decode, Update, Also, Less, Shows;
    var s, attr := m.screens[t], ATTRIBUTES[t];
    match KeyAction(m, e)
    case Insert(c) => CharShows(s, y, c, attr);
    case Submit => CharShows(s, y, '\n', attr);
    case Erase =>
      if m.lines[t].pos > 0 {
        ErasesOnScreen(m, e);
        LessShows(s, y, attr);
      }
    case Interrupt =>
      PromptShows(s, attr);
      var bye := if Ends(m, e) then Farewell(m) else "";
      AlsoShows(Prompted(s, attr), Also(BLANK, PROMPT), bye, attr);
      NoText(Prompted(s, attr), attr);
    case Redraw => PromptShows(s, attr);
    case _ =>
  }

  lemma {:induction false} StepShows(y: Printed, m: State, e: Event, t: nat)
    requires Ok(m) && Allowed(m, e) && Tidy(m) && t < NUM_TERMINALS && Shows(m.screens[t], y, ATTRIBUTES[t])
    ensures Shows(After1(m, e).screens[t], PrintStep(y, m, e, t), ATTRIBUTES[t])
  {
    StepScreens(m, e, t);
    hide Rows, Pane, PutText, Prompted, Decode, Update, Fresh, After1, KeyScreen, KeyPrints, Shows, Also;
    var s, attr := m.screens[t], ATTRIBUTES[t];
    if Draws(m, e, t) {
      match e
      case Write(buf) =>
        if buf.Some? {
          AlsoShows(s, y, buf.value, attr);
        }
      case Fault(message) =>
        AlsoShows(s, y, message, attr);
        AlsoShows(PutText(s, message, attr), Also(y, message), Farewell(m), attr);
      case Halt(_) => AlsoShows(s, y, Farewell(m), attr);
      case Tick(_) =>
        PromptShows(s, attr);
        AlsoShows(Prompted(s, attr), Also(BLANK, PROMPT), Farewell(m), attr);
      case Key(_, _) =>
        if KeyAction(m, e).SwitchTo? {
          StartShows(m, t);
        } else {
          KeyShows(y, m, e, t);
        }
      case _ =>
    }
  }

  lemma {:induction false} StartShows(m: State, t: nat)
    requires Ok(m) && Tidy(m) && t < NUM_TERMINALS && m.stacks[t] == []
    ensures Shows(Cleared(m.screens[t], ATTRIBUTES[t]), BLANK, ATTRIBUTES[t])
  {
    hide Rows, Pane, Shows;
    BlankShows(ATTRIBUTES[t]);
  }

  /** Main result: over every run, with switches, scheduling, launches, halts and keys in between, the screen of
      each terminal shows the layout of what was printed there and not rubbed out since it was cleared. */
  lemma {:induction false} ScreenIsWindow(y: Printed, m: State, es: seq<Event>, t: nat)
    requires Ok(m) && Admissible(m, es) && Tidy(m) && t < NUM_TERMINALS && Shows(m.screens[t], y, ATTRIBUTES[t])
    ensures Tidy(After(m, es)) && Shows(After(m, es).screens[t], PrintedOn(y, m, es, t), ATTRIBUTES[t])
    decreases |es|
  {
    hide Shows, Tidy, PrintStep;
    if es != [] {
      StepTidy(m, es[0]);
      StepShows(y, m, es[0], t);
      ScreenIsWindow(PrintStep(y, m, es[0], t), After1(m, es[0]), es[1..], t);
    }
  }
}
