/** Screens do not interfere: a terminal's logical screen changes only by its own process, by keys
    typed while it is shown, or when it is started.  The one exception is exact: Alt with the function
    key of the terminal already shown leaves the output of a hidden process aimed at that terminal.
 */
module MachineScreens {
  import opened Console
  import opened Keyboard
  import opened Machine
  import opened MachineMoves
  import opened MachineRuns
  import opened Wrappers

  function KeyAction(m: State, e: Event): Action
    requires e.Key?
  {
    Decode(Update(m.mods, e.scancode), e.scancode)
  }

  /** Alt-F of the terminal already shown, while a process of another terminal runs. */
  predicate Strays(m: State, e: Event) {
    e.Key? && KeyAction(m, e) == SwitchTo(m.shown) && m.turn != m.shown
  }

  /** The steps that may draw on the screen of terminal `t`, wherever output is aimed. */
  ghost predicate Draws(m: State, e: Event, t: nat)
    requires Ok(m)
  {
    match e
    case Write(_) => t == m.target
    case Fault(_) => t == m.target
    case Halt(_) => t == m.target
    case Tick(_) => t == m.target && m.kill[m.turn]
    case Key(_, _) =>
      if KeyAction(m, e).SwitchTo? then Starts(m, e) && t == KeyAction(m, e).terminal else t == m.shown
    case _ => false
  }

  /** The steps of the process of terminal `t`, keys typed while it is shown, and its start. */
  ghost predicate Concerns(m: State, e: Event, t: nat)
    requires Ok(m)
  {
    match e
    case Write(_) => t == m.turn
    case Fault(_) => t == m.turn
    case Halt(_) => t == m.turn
    case Tick(_) => t == m.turn && m.kill[m.turn]
    case Key(_, _) =>
      if KeyAction(m, e).SwitchTo? then Starts(m, e) && t == KeyAction(m, e).terminal else t == m.shown
    case _ => false
  }

  lemma {:induction false} SwitchTarget(m: State, t: nat, at: Context)
    requires Ok(m) && t < NUM_TERMINALS
    ensures var m' := Switch(m, t, at).0; m'.target == m'.turn <==> t != m.shown || m.turn == m.shown
  {
  }

  lemma {:induction false} KeyTarget(m: State, scancode: nat, at: Context)
    requires Ok(m) && Allowed(m, Key(scancode, at))
    ensures var m' := Keyed(m, scancode, at).0; m'.target == m'.turn <==> !Strays(m, Key(scancode, at))
  {
    var m1 := m.(mods := Update(m.mods, scancode));
    var a := Decode(m1.mods, scancode);
    if a.SwitchTo? {
      SwitchTarget(m1, a.terminal, at);
    }
  }

  /** What the end of a process leaves alone. */
  lemma {:induction false} TerminateFrame(m: State, value: int)
    requires Ok(m)
    ensures var m' := Terminate(m, value).0;
      && m'.turn == m.turn && m'.target == m.target && |m'.screens| == NUM_TERMINALS
      && forall t :: 0 <= t < NUM_TERMINALS && t != m.target ==> m'.screens[t] == m.screens[t]
  {
  }

  /** What a system call other than output and halt leaves alone. */
  lemma {:induction false} CallFrame(m: State, e: Event)
    requires Ok(m) && Allowed(m, e)
    requires !(e.Halt? || e.Fault? || e.Tick? || e.Key? || e.Write?)
    ensures var m' := After1(m, e); m'.turn == m.turn && m'.target == m.target && m'.screens == m.screens
  {
    match e
    case Execute(file, magic, at) => ExecFrame(m, file, magic, at);
    case Close(fd) => CloseFrame(m, fd);
    case _ =>
  }

  lemma {:induction false} ExecFrame(m: State, file: Option<FileKind>, magic: bool, at: Context)
    requires Ok(m)
    ensures var m' := Exec(m, file, magic, at).0;
      m'.turn == m.turn && m'.target == m.target && m'.screens == m.screens
  {
  }

  lemma {:induction false} CloseFrame(m: State, fd: int)
    requires Ok(m)
    ensures var m' := CloseFd(m, fd).0; m'.turn == m.turn && m'.target == m.target && m'.screens == m.screens
  {
  }

  /** Steps that are not keys only draw where output is aimed, and keep it aimed at home. */
  lemma {:induction false} StepFrame(m: State, e: Event, t: nat)
    requires Ok(m) && Allowed(m, e) && !e.Key? && t < NUM_TERMINALS
    ensures m.target == m.turn ==> After1(m, e).target == After1(m, e).turn
    ensures !Draws(m, e, t) ==> After1(m, e).screens[t] == m.screens[t]
  {
    hide Exec, Terminate, Keyed, PutText, Prompted, Decode, Update, Fresh, FirstClosed;
    match e
    case Halt(status) => TerminateFrame(m, status);
    case Fault(message) => TerminateFrame(Print(m, message), 256);
    case Tick(at) =>
      if m.kill[m.turn] {
        TerminateFrame(Reprompt(m.(kill := m.kill[m.turn := false])), 256);
      }
    case Write(_) =>
    case _ => CallFrame(m, e);
  }

  /** Output goes to the running process's own terminal after a step if and only if the step is not
      that key. */
  lemma {:induction false} OutputStaysAtHome(m: State, e: Event)
    requires Ok(m) && Allowed(m, e) && m.target == m.turn
    ensures After1(m, e).target == After1(m, e).turn <==> !Strays(m, e)
  {
    if e.Key? {
      KeyTarget(m, e.scancode, e.at);
    } else {
      StepFrame(m, e, 0);
    }
  }

  /** A key other than that one, and a switch to another terminal, bring stray output home again. */
  lemma {:induction false} OutputComesHome(m: State, e: Event)
    requires Ok(m) && Allowed(m, e)
    requires (e.Key? && !Strays(m, e)) || (e.Tick? && !m.kill[m.turn] && Next(m.stacks, m.turn) != m.turn)
    ensures After1(m, e).target == After1(m, e).turn
  {
    if e.Key? {
      KeyTarget(m, e.scancode, e.at);
    }
  }

  /** After that key, the hidden process writes on the shown screen instead of its own. */
  lemma {:induction false} StrayOutput(m: State, e: Event, text: string)
    requires Ok(m) && Allowed(m, e) && Strays(m, e)
    ensures var m' := After1(After1(m, e), Write(Some(text)));
      && m'.screens[m.shown] == PutText(m.screens[m.shown], text, ATTRIBUTES[m.shown])
      && m'.screens[m.turn] == m.screens[m.turn]
  {
  }

  lemma {:induction false} KeyDraws(m: State, e: Event, t: nat)
    requires Ok(m) && Allowed(m, e) && e.Key? && t < NUM_TERMINALS && !Draws(m, e, t)
    ensures After1(m, e).screens[t] == m.screens[t]
  {
    hide Terminate, PutText, Prompted, Decode, Update, Echo, Fresh;
    if Ends(m, e) {
      KeyEnds(m, e.scancode, e.at);
      TerminateFrame(Edited(m.(mods := Update(m.mods, e.scancode)), Interrupt).(target := m.turn), 256);
    } else if Starts(m, e) {
      KeyStarts(m, e.scancode, e.at);
    }
  }

  lemma {:induction false} StepDraws(m: State, e: Event, t: nat)
    requires Ok(m) && Allowed(m, e) && t < NUM_TERMINALS && !Draws(m, e, t)
    ensures After1(m, e).screens[t] == m.screens[t]
  {
    if e.Key? {
      KeyDraws(m, e, t);
    } else {
      StepFrame(m, e, t);
    }
  }

  /** No step of the run may draw on terminal `t`. */
  ghost predicate NeverDrawn(m: State, es: seq<Event>, t: nat)
    requires Ok(m) && Admissible(m, es)
    decreases |es|
  {
    es == [] || (!Draws(m, es[0], t) && NeverDrawn(After1(m, es[0]), es[1..], t))
  }

  /** Main result: over every run from every well-formed state, with any number of switches away from `t`
      and back, of switches of the turn, and of output and keys on the other terminals, the screen of `t`
      and its cursor change only by a step that draws on `t`. */
  lemma {:induction false} ScreensKept(m: State, es: seq<Event>, t: nat)
    requires Ok(m) && Admissible(m, es) && t < NUM_TERMINALS && NeverDrawn(m, es, t)
    ensures After(m, es).screens[t] == m.screens[t]
    decreases |es|
  {
    if es != [] {
      StepDraws(m, es[0], t);
      ScreensKept(After1(m, es[0]), es[1..], t);
    }
  }

  /** The run has no stray key and no step that concerns terminal `t`. */
  ghost predicate LeavesAlone(m: State, es: seq<Event>, t: nat)
    requires Ok(m) && Admissible(m, es)
    decreases |es|
  {
    es == [] || (!Strays(m, es[0]) && !Concerns(m, es[0], t) && LeavesAlone(After1(m, es[0]), es[1..], t))
  }

  lemma {:induction false} AloneIsUndrawn(m: State, es: seq<Event>, t: nat)
    requires Ok(m) && Admissible(m, es) && m.target == m.turn && t < NUM_TERMINALS && LeavesAlone(m, es, t)
    ensures NeverDrawn(m, es, t)
    decreases |es|
  {
    if es != [] {
      OutputStaysAtHome(m, es[0]);
      AloneIsUndrawn(After1(m, es[0]), es[1..], t);
    }
  }

  /** Without the stray key, the screen of `t` changes only by the process of `t`, by keys typed while `t` is
      shown, or when `t` is started. */
  lemma {:induction false} ScreensDoNotInterfere(m: State, es: seq<Event>, t: nat)
    requires Ok(m) && Admissible(m, es) && m.target == m.turn && t < NUM_TERMINALS && LeavesAlone(m, es, t)
    ensures After(m, es).screens[t] == m.screens[t]
  {
    AloneIsUndrawn(m, es, t);
    ScreensKept(m, es, t);
  }
}
