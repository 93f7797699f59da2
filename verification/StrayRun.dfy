/** The exception to screen isolation is real: four events after boot the shell of terminal 0 writes on the
    screen of terminal 1.
 */
module StrayRun {
  import opened Bytes
  import opened Console
  import opened Kernel
  import opened Keyboard
  import opened Machine
  import opened MachineMoves
  import opened MachineRuns
  import opened MachineScreens
  import opened Wrappers

  /** Alt, F2 and a timer tick. */
  function Prelude(at: Context): seq<Event> {
    [Key(ALT, at), Key(F2, at), Tick(at)]
  }

  lemma {:induction false} AltPressed(m: State, at: Context)
    requires Ok(m) && m.target == m.turn
    ensures Allowed(m, Key(ALT, at)) && After1(m, Key(ALT, at)) == m.(mods := m.mods.(alt := true))
  {
    NoCharacter(Table(m.mods.(alt := true)));
    assert m.lines[m.shown := m.lines[m.shown]] == m.lines;
    assert m.screens[m.shown := m.screens[m.shown]] == m.screens;
  }

  lemma {:induction false} SecondSlot()
    ensures Fresh([[NewTask(1)], [], []]) == 2
  {
    var stacks: Stacks := [[NewTask(1)], [], []];
    assert stacks[0][0].pid == 1 && !Free(stacks, 1) && Free(stacks, 2);
  }

  lemma {:induction false} SecondShell(m: State, at: Context)
    requires Ok(m) && m.mods.alt && m.shown == 0 && m.turn == 0 && m.stacks == [[NewTask(1)], [], []]
    ensures Allowed(m, Key(F2, at))
    ensures var m' := After1(m, Key(F2, at));
      && m'.stacks == [[NewTask(1).(status := Preempted(at))], [NewTask(2)], []]
      && m'.turn == 1 && m'.shown == 1 && m'.mods == m.mods && m'.kill == m.kill
  {
    SecondSlot();
    hide Fresh;
    KeyStarts(m, F2, at);
    var m', stopped := After1(m, Key(F2, at)), NewTask(1).(status := Preempted(at));
    assert WithTop(m.stacks[0], stopped) == [stopped];
    assert m'.stacks[0] == [stopped] && m'.stacks[1] == [NewTask(2)] && m'.stacks[2] == [];
  }

  lemma {:induction false} BackToFirst(m: State, at: Context, c: Context)
    requires Ok(m) && m.stacks == [[NewTask(1).(status := Preempted(c))], [NewTask(2)], []]
    requires m.turn == 1 && m.shown == 1 && !m.kill[1]
    ensures var m' := After1(m, Tick(at)); m'.turn == 0 && m'.shown == 1 && m'.mods == m.mods
  {
  }

  /** From boot, after Alt, F2 and a tick, F2 again makes the shell of terminal 0 write on terminal 1. */
  lemma {:induction false} StrayIsReachable(lines: seq<Line>, screens: seq<Screen>, names: seq<seq<byte>>,
                                            at: Context, text: string)
    requires |lines| == NUM_TERMINALS && |screens| == NUM_TERMINALS
    requires forall t :: 0 <= t < NUM_TERMINALS ==> ValidLine(lines[t]) && OnScreen(screens[t])
    ensures Ok(BootState(lines, screens, names)) && Admissible(BootState(lines, screens, names), Prelude(at))
    ensures var m := After(BootState(lines, screens, names), Prelude(at));
      && m.turn == 0 && m.shown == 1 && Strays(m, Key(F2, at)) && Allowed(m, Key(F2, at))
      && var m' := After1(After1(m, Key(F2, at)), Write(Some(text)));
      && m'.screens[1] == PutText(m.screens[1], text, ATTRIBUTES[1]) && m'.screens[0] == m.screens[0]
  {
    BootOk(lines, screens, names);
    var m0 := BootState(lines, screens, names);
    hide Ok, Allowed, Step, After1;
    AltPressed(m0, at);
    var m1 := After1(m0, Key(ALT, at));
    SecondShell(m1, at);
    var m2 := After1(m1, Key(F2, at));
    BackToFirst(m2, at, at);
    var m3 := After1(m2, Tick(at));
    RunOfThree(m0, at, m1, m2, m3);
    F2Strays(m3, at);
    StrayOutput(m3, Key(F2, at), text);
  }

  lemma {:induction false} RunOfThree(m0: State, at: Context, m1: State, m2: State, m3: State)
    requires Ok(m0) && Allowed(m0, Key(ALT, at)) && m1 == After1(m0, Key(ALT, at))
    requires Allowed(m1, Key(F2, at)) && m2 == After1(m1, Key(F2, at)) && m3 == After1(m2, Tick(at))
    ensures Admissible(m0, Prelude(at)) && After(m0, Prelude(at)) == m3
  {
    hide Ok, Step, After1;
    var es := Prelude(at);
    assert es[1..] == [Key(F2, at), Tick(at)] && es[1..][1..] == [Tick(at)] && [Tick(at)][1..] == [];
    assert Admissible(m2, [Tick(at)]) && After(m2, [Tick(at)]) == m3;
    assert Admissible(m1, es[1..]) && After(m1, es[1..]) == m3;
  }

  lemma {:induction false} F2Strays(m: State, at: Context)
    requires Ok(m) && m.mods.alt && m.turn == 0 && m.shown == 1
    ensures Strays(m, Key(F2, at)) && Allowed(m, Key(F2, at))
  {
  }
}
