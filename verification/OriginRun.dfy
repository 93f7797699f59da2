/** What boot gives, and that the room of a line can be lost: a run from boot after which a backspace would
    move the cursor off the screen.

    A process is marked by Ctrl-C while another terminal has the turn.  What is typed before the mark is seen
    stays in the line when the prompt is drawn over it.
 */
module OriginRun {
  import opened Bytes
  import opened Console
  import opened ConsoleWindow
  import opened Kernel
  import opened Keyboard
  import opened Machine
  import opened MachineCursor
  import opened MachineDrawing
  import opened MachineLines
  import opened MachineMoves
  import opened MachineRuns
  import opened MachineWindow
  import StrayRun
  import opened Wrappers

  const A_KEY := 0x1E

  /** The lines and screens that boot leaves. */
  predicate AtBoot(lines: seq<Line>, screens: seq<Screen>) {
    && |lines| == NUM_TERMINALS && |screens| == NUM_TERMINALS
    && (forall t :: 0 <= t < NUM_TERMINALS ==> ValidLine(lines[t]) && lines[t].pos == 0 && OnScreen(screens[t]))
    && screens[0] == Screen(Blanks(CELLS, ATTRIBUTES[0]), 0, 0)
    && forall t :: 1 <= t < NUM_TERMINALS ==> screens[t].x == 0 && screens[t].y == 0
  }

  /** After boot every line has room, and the screen of terminal 0 shows nothing. */
  lemma {:induction false} BootHolds(lines: seq<Line>, screens: seq<Screen>, names: seq<seq<byte>>)
    requires AtBoot(lines, screens)
    ensures var m := BootState(lines, screens, names);
      Ok(m) && Room(m) && Tidy(m) && Shows(m.screens[0], BLANK, ATTRIBUTES[0])
  {
    BootOk(lines, screens, names);
    hide Rows, Pane, Shows;
    BlankShows(ATTRIBUTES[0]);
  }

  // ----- keys -----

  /** A key without an action only changes the modifiers. */
  lemma {:induction false} IdleKey(m: State, scancode: nat, at: Context)
    requires Ok(m) && scancode != BACKSPACE && Decode(Update(m.mods, scancode), scancode).Nothing?
    ensures Allowed(m, Key(scancode, at))
    ensures After1(m, Key(scancode, at)) == m.(mods := Update(m.mods, scancode), target := m.turn)
  {
    assert m.lines[m.shown := m.lines[m.shown]] == m.lines;
    assert m.screens[m.shown := m.screens[m.shown]] == m.screens;
  }

  lemma {:induction false} ModifierIdles(mods: Modifiers)
    ensures Decode(Update(mods, ALT), ALT).Nothing? && Decode(Update(mods, CTRL), CTRL).Nothing?
    ensures Decode(Update(mods, ALT + KEYBOARD_MASK), ALT + KEYBOARD_MASK).Nothing?
    ensures Decode(Update(mods, CTRL + KEYBOARD_MASK), CTRL + KEYBOARD_MASK).Nothing?
  {
    SpecialKeysInsertNothing(Update(mods, ALT), ALT);
    SpecialKeysInsertNothing(Update(mods, CTRL), CTRL);
  }

  const RELEASED := Modifiers(false, false, false, false)

  lemma {:induction false} LetterKey()
    ensures Decode(Update(RELEASED, A_KEY), A_KEY) == Insert('a')
  {
    assert SELF_CHARS[A_KEY] == 'a';
  }

  // ----- up to the mark -----

  function Opening(at: Context): seq<Event> {
    [Execute(Some(Plain), true, at), Key(ALT, at), Key(F2, at), Key(F1, at)]
  }

  function Marking(at: Context): seq<Event> {
    [Key(ALT + KEYBOARD_MASK, at), Key(CTRL, at), Key(C_KEY, at), Key(CTRL + KEYBOARD_MASK, at)]
  }

  /** Terminal 1 has the turn and terminal 0, with a program on its shell, is shown. */
  ghost predicate Apart(m: State) {
    && Ok(m) && |m.stacks[0]| == 2 && m.stacks[1] != [] && m.stacks[2] == []
    && m.turn == 1 && m.shown == 0 && m.target == 1
  }

  lemma {:induction false} Launched2(m: State, at: Context)
    requires Ok(m) && m.stacks == [[NewTask(1)], [], []] && m.turn == 0
    ensures Allowed(m, Execute(Some(Plain), true, at))
    ensures var stacks := [[NewTask(1).(status := Waiting(at)), NewTask(2)], [], []];
      After1(m, Execute(Some(Plain), true, at)) == m.(stacks := stacks)
  {
    StrayRun.SecondSlot();
    hide Ok, Fresh;
    assert FirstClosed(FRESH_FILES, 0) != -1;
    var parent := NewTask(1).(status := Waiting(at));
    assert WithTop(m.stacks[0], parent) + [NewTask(2)] == [parent, NewTask(2)];
  }

  lemma {:induction false} OtherStarted(m: State, at: Context)
    requires Ok(m) && m.mods.alt && m.shown == 0 && m.turn == 0 && Fresh(m.stacks) != 0
    requires |m.stacks[0]| == 2 && m.stacks[1] == [] && m.stacks[2] == []
    ensures Allowed(m, Key(F2, at))
    ensures var m' := After1(m, Key(F2, at));
      && |m'.stacks[0]| == 2 && m'.stacks[1] != [] && m'.stacks[2] == []
      && m'.turn == 1 && m'.shown == 1 && m'.mods == m.mods && m'.kill == m.kill
  {
    KeyStarts(m, F2, at);
  }

  lemma {:induction false} ShownAgain(m: State, at: Context)
    requires Ok(m) && m.mods.alt && m.shown == 1 && m.turn == 1 && m.stacks[0] != []
    ensures Allowed(m, Key(F1, at)) && After1(m, Key(F1, at)) == m.(shown := 0, target := 1)
  {
  }

  lemma {:induction false} SlotLeft(at: Context)
    ensures Fresh([[NewTask(1).(status := Waiting(at)), NewTask(2)], [], []]) != 0
  {
    var stacks: Stacks := [[NewTask(1).(status := Waiting(at)), NewTask(2)], [], []];
    assert Free(stacks, 3);
  }

  /** One step of a run. */
  lemma {:induction false} Steps(m: State, e: Event, es: seq<Event>)
    requires Ok(m) && Allowed(m, e) && Admissible(After1(m, e), es)
    ensures Admissible(m, [e] + es) && After(m, [e] + es) == After(After1(m, e), es)
  {
    hide Ok, Allowed, After1;
    assert ([e] + es)[0] == e && ([e] + es)[1..] == es;
  }

  lemma {:induction false} Opened4(m: State, at: Context)
    requires Ok(m) && m.stacks == [[NewTask(1)], [], []] && m.turn == 0 && m.shown == 0
    requires m.mods == RELEASED && m.kill == [false, false, false]
    ensures Admissible(m, Opening(at)) && Apart(After(m, Opening(at)))
    ensures var m' := After(m, Opening(at)); m'.mods == RELEASED.(alt := true) && m'.kill == m.kill
  {
    hide Ok, Allowed, After1, Fresh, Decode;
    Launched2(m, at);
    SlotLeft(at);
    var e1, e2, e3, e4 := Execute(Some(Plain), true, at), Key(ALT, at), Key(F2, at), Key(F1, at);
    var m1 := After1(m, e1);
    ModifierIdles(m1.mods);
    IdleKey(m1, ALT, at);
    var m2 := After1(m1, e2);
    OtherStarted(m2, at);
    var m3 := After1(m2, e3);
    ShownAgain(m3, at);
    var m4 := After1(m3, e4);
    assert Admissible(m4, []) && After(m4, []) == m4;
    Steps(m3, e4, []);
    Steps(m2, e3, [e4]);
    Steps(m1, e2, [e3] + [e4]);
    Steps(m, e1, [e2] + ([e3] + [e4]));
    assert [e1] + ([e2] + ([e3] + [e4])) == Opening(at);
  }

  /** Ctrl-C on the shown terminal during the other's turn. */
  lemma {:induction false} Interrupted(m: State, at: Context)
    requires Apart(m) && m.mods.ctrl && !m.mods.alt
    ensures Allowed(m, Key(C_KEY, at))
    ensures var m' := After1(m, Key(C_KEY, at));
      && Apart(m') && m'.mods == m.mods && m'.kill == m.kill[0 := true]
      && m'.lines[0].pos == 0 && m'.screens[0].x == 7 && m'.screens[0].y == 0
  {
    PromptedPlace(m.screens[0], ATTRIBUTES[0]);
    hide Prompted;
    KeyStays(m, C_KEY, at);
  }

  /** Terminal 0 is marked, its cursor is after a prompt, and `n` characters are typed. */
  ghost predicate Marked(m: State, n: nat) {
    && Apart(m) && m.mods == RELEASED && |m.kill| == NUM_TERMINALS && m.kill[0] && !m.kill[1]
    && m.lines[0].pos == n && m.screens[0].x == 7 + n && m.screens[0].y == 0
  }

  lemma {:induction false} MarkReleased(m: State, m': State)
    requires Apart(m) && m.mods == RELEASED.(ctrl := true) && m.kill == [true, false, false]
    requires m.lines[0].pos == 0 && m.screens[0].x == 7 && m.screens[0].y == 0
    requires Ok(m') && m' == m.(mods := Update(m.mods, CTRL + KEYBOARD_MASK), target := m.turn)
    ensures Marked(m', 0)
  {
    hide Ok;
  }

  lemma {:induction false} Marked4(m: State, at: Context)
    requires Apart(m) && m.mods == RELEASED.(alt := true) && m.kill == [false, false, false]
    ensures Admissible(m, Marking(at)) && Marked(After(m, Marking(at)), 0)
  {
    var e1, e2 := Key(ALT + KEYBOARD_MASK, at), Key(CTRL, at);
    var e3, e4 := Key(C_KEY, at), Key(CTRL + KEYBOARD_MASK, at);
    hide Ok, Allowed, After1, Decode;
    ModifierIdles(m.mods);
    IdleKey(m, ALT + KEYBOARD_MASK, at);
    var m1 := After1(m, e1);
    ModifierIdles(m1.mods);
    IdleKey(m1, CTRL, at);
    var m2 := After1(m1, e2);
    Interrupted(m2, at);
    var m3 := After1(m2, e3);
    ModifierIdles(m3.mods);
    IdleKey(m3, CTRL + KEYBOARD_MASK, at);
    var m4 := After1(m3, e4);
    MarkReleased(m3, m4);
    hide Marked;
    assert Admissible(m4, []) && After(m4, []) == m4;
    Steps(m3, e4, []);
    Steps(m2, e3, [e4]);
    Steps(m1, e2, [e3] + [e4]);
    Steps(m, e1, [e2] + ([e3] + [e4]));
    assert [e1] + ([e2] + ([e3] + [e4])) == Marking(at);
  }

  // ----- typing and the two ticks -----

  function Letters(n: nat, at: Context): seq<Event> {
    seq(n, _ => Key(A_KEY, at))
  }

  lemma {:induction false} MarkedOk(m: State, n: nat)
    requires Marked(m, n)
    ensures Ok(m)
  {
  }

  lemma {:induction false} TypeOne(m: State, n: nat, at: Context)
    requires Marked(m, n) && n < 60
    ensures Allowed(m, Key(A_KEY, at)) && Marked(After1(m, Key(A_KEY, at)), n + 1)
  {
    LetterKey();
    KeyStays(m, A_KEY, at);
    StepLines(m, Key(A_KEY, at), 0);
    StepScreens(m, Key(A_KEY, at), 0);
  }

  lemma {:induction false} TypeRun(m: State, n: nat, k: nat, at: Context)
    requires Marked(m, n) && n + k <= 60
    ensures Admissible(m, Letters(k, at)) && Marked(After(m, Letters(k, at)), n + k)
    decreases k
  {
    hide Ok, Marked, Allowed, After1;
    MarkedOk(m, n);
    if k > 0 {
      TypeOne(m, n, at);
      var m1 := After1(m, Key(A_KEY, at));
      TypeRun(m1, n + 1, k - 1, at);
      Steps(m, Key(A_KEY, at), Letters(k - 1, at));
      assert [Key(A_KEY, at)] + Letters(k - 1, at) == Letters(k, at);
    }
  }

  /** The turn goes to the marked process, and the next tick ends it and draws the prompt over the line. */
  lemma {:induction false} TwoTicks(m: State, n: nat, at: Context)
    requires Marked(m, n)
    ensures var es := [Tick(at), Tick(at)];
      && Admissible(m, es)
      && var m' := After(m, es);
      && m'.shown == 0 && m'.lines[0].pos == n && m'.screens[0].x == 7 && m'.screens[0].y == 0
  {
    hide Ok, Allowed, After1, Marked;
    MarkedOk(m, n);
    TurnComes(m, n, at);
    var m1 := After1(m, Tick(at));
    MarkSeen(m1, n, at);
    var m2 := After1(m1, Tick(at));
    assert Admissible(m2, []) && After(m2, []) == m2;
    Steps(m1, Tick(at), []);
    Steps(m, Tick(at), [Tick(at)]);
    assert [Tick(at)] + [Tick(at)] == [Tick(at), Tick(at)];
  }

  lemma {:induction false} TurnComes(m: State, n: nat, at: Context)
    requires Marked(m, n)
    ensures Allowed(m, Tick(at))
    ensures var m' := After1(m, Tick(at));
      && |m'.stacks[0]| == 2 && m'.turn == 0 && m'.target == 0 && m'.shown == 0 && m'.kill[0]
      && m'.lines[0].pos == n
  {
  }

  lemma {:induction false} MarkSeen(m: State, n: nat, at: Context)
    requires Ok(m) && |m.stacks[0]| == 2 && m.turn == 0 && m.target == 0 && m.shown == 0 && m.kill[0]
    requires m.lines[0].pos == n
    ensures Allowed(m, Tick(at))
    ensures var m' := After1(m, Tick(at));
      m'.shown == 0 && m'.lines[0].pos == n && m'.screens[0].x == 7 && m'.screens[0].y == 0
  {
    StepLines(m, Tick(at), 0);
    StepScreens(m, Tick(at), 0);
    PromptedPlace(m.screens[0], ATTRIBUTES[0]);
    NoText(Prompted(m.screens[0], ATTRIBUTES[0]), ATTRIBUTES[0]);
    hide Prompted, PutText;
  }

  function LosingRun(at: Context): seq<Event> {
    (Opening(at) + Marking(at)) + (Letters(8, at) + ([Tick(at), Tick(at)] + Backspaces(7, at)))
  }

  /** The state after the two ticks. */
  lemma {:induction false} UpToTicks(m: State, at: Context)
    requires Ok(m) && m.stacks == [[NewTask(1)], [], []] && m.turn == 0 && m.shown == 0
    requires m.mods == RELEASED && m.kill == [false, false, false]
    ensures Admissible(m, Opening(at)) && Admissible(After(m, Opening(at)), Marking(at))
    ensures var m2 := After(After(m, Opening(at)), Marking(at));
      && Admissible(m2, Letters(8, at)) && Admissible(After(m2, Letters(8, at)), [Tick(at), Tick(at)])
      && var m' := After(After(m2, Letters(8, at)), [Tick(at), Tick(at)]);
      && m'.shown == 0 && m'.lines[0].pos == 8 && Place(m'.screens[0]) == 7
  {
    hide Ok, After, Admissible, Apart, Marked, Opening, Marking, Letters;
    Opened4(m, at);
    Marked4(After(m, Opening(at)), at);
    var m2 := After(After(m, Opening(at)), Marking(at));
    TypeRun(m2, 0, 8, at);
    TwoTicks(After(m2, Letters(8, at)), 8, at);
  }

  lemma {:induction false} RoomLost(m: State, at: Context)
    requires Ok(m) && m.stacks == [[NewTask(1)], [], []] && m.turn == 0 && m.shown == 0
    requires m.mods == RELEASED && m.kill == [false, false, false]
    ensures Admissible(m, LosingRun(at))
    ensures var m' := After(m, LosingRun(at));
      m'.shown == 0 && m'.lines[0].pos == 1 && Place(m'.screens[0]) == 0 && !Allowed(m', Key(BACKSPACE, at))
  {
    hide Ok, Allowed, After, Admissible, Opening, Marking, Letters, Backspaces, LosingRun;
    UpToTicks(m, at);
    EraseRun(After(After(After(After(m, Opening(at)), Marking(at)), Letters(8, at)), [Tick(at), Tick(at)]), 7, at);
    JoinAll(m, at);
    NoBackspace(After(m, LosingRun(at)), at);
  }

  /** From boot, that run is possible, and the backspace that follows it is not. */
  lemma {:induction false} OriginIsReachable(lines: seq<Line>, screens: seq<Screen>, names: seq<seq<byte>>, at: Context)
    requires AtBoot(lines, screens)
    ensures var m := BootState(lines, screens, names);
      && Ok(m) && Room(m) && Admissible(m, LosingRun(at))
      && var m' := After(m, LosingRun(at));
      m'.shown == 0 && m'.lines[0].pos == 1 && Place(m'.screens[0]) == 0 && !Allowed(m', Key(BACKSPACE, at))
  {
    BootHolds(lines, screens, names);
    hide Ok, Allowed, After, Admissible, Room, LosingRun;
    RoomLost(BootState(lines, screens, names), at);
  }

  lemma {:induction false} NoBackspace(m: State, at: Context)
    requires Ok(m)
    ensures Allowed(m, Key(BACKSPACE, at)) <==> m.lines[m.shown].pos == 0 || Place(m.screens[m.shown]) > 0
  {
  }

  lemma {:induction false} JoinAll(m: State, at: Context)
    requires Ok(m) && Admissible(m, Opening(at))
    requires var m1 := After(m, Opening(at)); Admissible(m1, Marking(at))
    requires var m2 := After(After(m, Opening(at)), Marking(at)); Admissible(m2, Letters(8, at))
    requires var m3 := After(After(After(m, Opening(at)), Marking(at)), Letters(8, at));
      && Admissible(m3, [Tick(at), Tick(at)])
      && Admissible(After(m3, [Tick(at), Tick(at)]), Backspaces(7, at))
    ensures Admissible(m, LosingRun(at))
    ensures var m3 := After(After(After(m, Opening(at)), Marking(at)), Letters(8, at));
      After(m, LosingRun(at)) == After(After(m3, [Tick(at), Tick(at)]), Backspaces(7, at))
  {
    hide Ok, Admissible, After;
    var a, b, c, d, f := Opening(at), Marking(at), Letters(8, at), [Tick(at), Tick(at)], Backspaces(7, at);
    RunsJoin(m, a, b);
    var m2 := After(m, a + b);
    RunsJoin(After(m2, c), d, f);
    RunsJoin(m2, c, d + f);
    RunsJoin(m, a + b, c + (d + f));
  }
}
