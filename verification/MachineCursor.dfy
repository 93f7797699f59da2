/** Backspace never leaves the screen as long as every line has room: its terminal's cursor is at least as far
    from the top left corner as the line is long.  One step can take the room away, and the condition is exact.
 */
module MachineCursor {
  import opened Console
  import opened Keyboard
  import opened Machine
  import opened MachineDrawing
  import opened MachineLines
  import opened MachineMoves
  import opened MachineRuns
  import opened MachineScreens

  const LAST_ROW := NUM_COLS * (NUM_ROWS - 1)

  ghost predicate RoomAt(m: State, t: nat)
    requires Ok(m) && t < NUM_TERMINALS
  {
    m.lines[t].pos <= Place(m.screens[t])
  }

  ghost predicate Room(m: State)
    requires Ok(m)
  {
    forall t :: 0 <= t < NUM_TERMINALS ==> RoomAt(m, t)
  }

  // ----- where output leaves the cursor -----

  lemma {:induction false} PutCharPlace(s: Screen, c: char, attr: nat)
    requires OnScreen(s)
    ensures Place(PutChar(s, c, attr)) > Place(s) || Place(PutChar(s, c, attr)) >= LAST_ROW
  {
  }

  lemma {:induction false} PutTextPlace(s: Screen, text: string, attr: nat, p: nat)
    requires OnScreen(s) && Place(s) >= p && p <= LAST_ROW
    ensures Place(PutText(s, text, attr)) >= p
  {
    if text != [] {
      var n := |text| - 1;
      PutTextPlace(s, text[..n], attr, p);
      PutCharPlace(PutText(s, text[..n], attr), text[n], attr);
    }
  }

  predicate Plain(text: string) {
    forall i :: 0 <= i < |text| ==> !IsBreak(text[i])
  }

  /** A text without breaks that fits the row moves the cursor by its length. */
  lemma {:induction false} PlainPlace(s: Screen, text: string, attr: nat)
    requires OnScreen(s) && Plain(text) && s.x + |text| < NUM_COLS
    ensures PutText(s, text, attr).x == s.x + |text| && PutText(s, text, attr).y == s.y
  {
    if text != [] {
      PlainPlace(s, text[..|text| - 1], attr);
    }
  }

  lemma {:induction false} PromptIsPlain()
    ensures Plain(PROMPT) && |PROMPT| == 7
  {
  }

  lemma {:induction false} RestartIsPlain()
    ensures Plain(RESTART_TEXT) && |RESTART_TEXT| == 46
  {
    var a, b, c: string := "Cannot c", "lose las", "t proces";
    var e, f, g: string := "s! Resta", "rting sh", "ell...";
    assert Plain(a) && Plain(b) && Plain(c) && Plain(e) && Plain(f) && Plain(g);
    assert Plain(a + b + c) && Plain(e + f + g);
  }

  lemma {:induction false} PromptedPlace(s: Screen, attr: nat)
    requires OnScreen(s)
    ensures Prompted(s, attr).x == 7 && Prompted(s, attr).y == 0
  {
    PromptIsPlain();
    hide PutText;
    PlainPlace(Moved(Cleared(s, attr), 0, 0), PROMPT, attr);
  }

  /** The message of a restarted shell ends at the start of the next row. */
  lemma {:induction false} RestartedPlace(s: Screen, attr: nat)
    requires OnScreen(s) && s.x == 7 && s.y == 0
    ensures Place(PutText(s, RESTARTING, attr)) == NUM_COLS
  {
    RestartIsPlain();
    PlainPlace(s, RESTART_TEXT, attr);
    assert RESTARTING[..46] == RESTART_TEXT && RESTARTING[46] == '\n';
  }

  // ----- one step -----

  /** The timer finds a halt pending and draws the prompt where the line of the screen's terminal is longer
      than what then precedes the cursor. */
  ghost predicate Overdraws(m: State, e: Event)
    requires Ok(m)
  {
    && e.Tick? && m.kill[m.turn]
    && if |m.stacks[m.turn]| == 1 then m.target != m.turn && m.lines[m.target].pos > NUM_COLS
       else m.lines[m.target].pos > |PROMPT|
  }

  /** The cursor after a pending halt. */
  lemma {:induction false} HaltedPlace(m: State, e: Event)
    requires Ok(m) && Allowed(m, e) && e.Tick? && m.kill[m.turn]
    ensures Place(ScreenStep(m, e, m.target)) == if |m.stacks[m.turn]| == 1 then NUM_COLS else 7
  {
    hide PutText, Prompted;
    var s, attr := m.screens[m.target], ATTRIBUTES[m.target];
    PromptedPlace(s, attr);
    if |m.stacks[m.turn]| == 1 {
      RestartedPlace(Prompted(s, attr), attr);
    } else {
      NoText(Prompted(s, attr), attr);
    }
  }

  lemma {:induction false} TickRoom(m: State, e: Event, t: nat)
    requires Ok(m) && Allowed(m, e) && e.Tick? && t < NUM_TERMINALS && RoomAt(m, t)
    ensures RoomAt(After1(m, e), t) <==> !(Overdraws(m, e) && t == m.target)
  {
    StepLines(m, e, t);
    StepScreens(m, e, t);
    PromptIsPlain();
    hide ScreenStep;
    if m.kill[m.turn] && t == m.target {
      HaltedPlace(m, e);
    } else {
      Undrawn(m, e, t);
    }
  }

  lemma {:induction false} Undrawn(m: State, e: Event, t: nat)
    requires Ok(m) && Allowed(m, e) && t < NUM_TERMINALS && !Draws(m, e, t)
    ensures ScreenStep(m, e, t) == m.screens[t]
  {
  }

  lemma {:induction false} EchoRoom(s: Screen, l: Line, a: Action, attr: nat)
    requires OnScreen(s) && ValidLine(l) && l.pos <= Place(s) && (a.Erase? && l.pos > 0 ==> s.x > 0 || s.y > 0)
    ensures Edit(l, a).pos <= Place(Echo(s, l, a, attr))
  {
    hide PutText, Backspaced, PutChar, Prompted;
    match a
    case Insert(c) => PutCharPlace(s, c, attr);
    case Submit => PutCharPlace(s, '\n', attr);
    case Erase =>
      if l.pos > 0 {
        BackspacedPlace(s, attr);
      }
    case _ =>
  }

  lemma {:induction false} KeyRoom(m: State, e: Event, t: nat)
    requires Ok(m) && Allowed(m, e) && e.Key? && t < NUM_TERMINALS && RoomAt(m, t)
    ensures RoomAt(After1(m, e), t)
  {
    StepLines(m, e, t);
    StepScreens(m, e, t);
    hide PutText, Echo, Decode, Update, Edit;
    if t == m.shown && !KeyAction(m, e).SwitchTo? {
      var a, attr := KeyAction(m, e), ATTRIBUTES[t];
      EchoRoom(m.screens[t], m.lines[t], a, attr);
      EditRange(m.lines[t], a);
      var s := Echo(m.screens[t], m.lines[t], a, attr);
      PutTextPlace(s, Farewell(m), attr, Edit(m.lines[t], a).pos);
    } else {
      KeyElsewhere(m, e, t);
    }
  }

  lemma {:induction false} EditRange(l: Line, a: Action)
    requires ValidLine(l)
    ensures Edit(l, a).pos < LAST_ROW
  {
  }

  lemma {:induction false} KeyElsewhere(m: State, e: Event, t: nat)
    requires Ok(m) && Allowed(m, e) && e.Key? && t < NUM_TERMINALS && (t != m.shown || KeyAction(m, e).SwitchTo?)
    ensures Place(ScreenStep(m, e, t)) == Place(m.screens[t]) && LineStep(m, e, t).pos <= m.lines[t].pos
  {
  }

  lemma {:induction false} OtherRoom(m: State, e: Event, t: nat)
    requires Ok(m) && Allowed(m, e) && !e.Tick? && !e.Key? && t < NUM_TERMINALS && RoomAt(m, t)
    ensures RoomAt(After1(m, e), t)
  {
    StepLines(m, e, t);
    StepScreens(m, e, t);
    hide PutText;
    var s, p, attr := m.screens[t], m.lines[t].pos, ATTRIBUTES[t];
    match e
    case Write(buf) =>
      if buf.Some? {
        PutTextPlace(s, buf.value, attr, p);
      }
    case Halt(_) => PutTextPlace(s, Farewell(m), attr, p);
    case Fault(message) =>
      PutTextPlace(s, message, attr, p);
      PutTextPlace(PutText(s, message, attr), Farewell(m), attr, p);
    case _ =>
  }

  /** A step takes the room of some line if and only if it is that tick. */
  lemma {:induction false} StepRoom(m: State, e: Event)
    requires Ok(m) && Allowed(m, e) && Room(m)
    ensures Room(After1(m, e)) <==> !Overdraws(m, e)
  {
    forall t | 0 <= t < NUM_TERMINALS ensures RoomAt(After1(m, e), t) <==> !(Overdraws(m, e) && t == m.target) {
      assert RoomAt(m, t);
      if e.Tick? {
        TickRoom(m, e, t);
      } else if e.Key? {
        KeyRoom(m, e, t);
      } else {
        OtherRoom(m, e, t);
      }
    }
    assert m.target < NUM_TERMINALS;
    if Overdraws(m, e) {
      assert !RoomAt(After1(m, e), m.target);
    }
  }

  // ----- runs -----

  /** What the arguments of an event have to satisfy, whatever the state. */
  predicate Lawful(e: Event) {
    match e
    case Halt(status) => status < 256
    case ReadFd(fd, _) => fd != 0
    case WriteFd(fd, _, _) => fd != 1
    case _ => true
  }

  /** With room, every key can be drawn. */
  lemma {:induction false} RoomAllows(m: State, e: Event)
    requires Ok(m) && Room(m)
    ensures Allowed(m, e) <==> Lawful(e)
  {
    assert RoomAt(m, m.shown);
  }

  /** No tick of the run overdraws a line. */
  ghost predicate Orderly(m: State, es: seq<Event>)
    requires Ok(m)
    decreases |es|
  {
    es == [] || (Allowed(m, es[0]) ==> !Overdraws(m, es[0]) && Orderly(After1(m, es[0]), es[1..]))
  }

  /** Main result: while no tick overdraws a line, no event is excluded. */
  lemma {:induction false} RunsAllowed(m: State, es: seq<Event>)
    requires Ok(m) && Room(m) && Orderly(m, es) && forall i :: 0 <= i < |es| ==> Lawful(es[i])
    ensures Admissible(m, es) && Room(After(m, es))
    decreases |es|
  {
    if es != [] {
      RoomAllows(m, es[0]);
      StepRoom(m, es[0]);
      RunsAllowed(After1(m, es[0]), es[1..]);
    }
  }

  /** A run is admissible if and only if its parts are. */
  lemma {:induction false} RunsJoin(m: State, a: seq<Event>, b: seq<Event>)
    requires Ok(m)
    ensures Admissible(m, a + b) <==> Admissible(m, a) && Admissible(After(m, a), b)
    ensures Admissible(m, a + b) ==> After(m, a + b) == After(After(m, a), b)
    decreases |a|
  {
    hide Ok, Allowed, After1;
    if a == [] {
      assert a + b == b;
    } else {
      assert (a + b)[0] == a[0] && (a + b)[1..] == a[1..] + b;
      if Allowed(m, a[0]) {
        RunsJoin(After1(m, a[0]), a[1..], b);
      }
    }
  }

  // ----- what happens without room -----

  function Backspaces(n: nat, at: Context): seq<Event> {
    seq(n, _ => Key(BACKSPACE, at))
  }

  lemma {:induction false} EraseStep(m: State, at: Context)
    requires Ok(m) && m.lines[m.shown].pos > 0 && Place(m.screens[m.shown]) > 0
    ensures Allowed(m, Key(BACKSPACE, at))
    ensures var m', t := After1(m, Key(BACKSPACE, at)), m.shown;
      m'.shown == t && m'.lines[t].pos == m.lines[t].pos - 1 && Place(m'.screens[t]) == Place(m.screens[t]) - 1
  {
    var e := Key(BACKSPACE, at);
    StepLines(m, e, m.shown);
    StepScreens(m, e, m.shown);
    BackspacedPlace(m.screens[m.shown], ATTRIBUTES[m.shown]);
  }

  lemma {:induction false} EraseRun(m: State, n: nat, at: Context)
    requires Ok(m) && n <= m.lines[m.shown].pos && n <= Place(m.screens[m.shown])
    ensures Admissible(m, Backspaces(n, at))
    ensures var m', t := After(m, Backspaces(n, at)), m.shown;
      m'.shown == t && m'.lines[t].pos == m.lines[t].pos - n && Place(m'.screens[t]) == Place(m.screens[t]) - n
    decreases n
  {
    hide Ok, Allowed, After1;
    if n > 0 {
      EraseStep(m, at);
      var es := Backspaces(n, at);
      assert es[0] == Key(BACKSPACE, at) && es[1..] == Backspaces(n - 1, at);
      EraseRun(After1(m, Key(BACKSPACE, at)), n - 1, at);
    }
  }

  /** The shown line can be erased to its start if and only if it has room. */
  lemma {:induction false} ErasableIffRoom(m: State, at: Context)
    requires Ok(m)
    ensures Admissible(m, Backspaces(m.lines[m.shown].pos, at)) <==> RoomAt(m, m.shown)
  {
    var n, p := m.lines[m.shown].pos, Place(m.screens[m.shown]);
    if n <= p {
      EraseRun(m, n, at);
    } else {
      var a, b := Backspaces(p, at), Backspaces(n - p, at);
      EraseRun(m, p, at);
      assert Backspaces(n, at) == a + b && b[0] == Key(BACKSPACE, at);
      RunsJoin(m, a, b);
    }
  }
}
