/** What each step draws on the screen of each terminal. */
module MachineDrawing {
  import opened Console
  import opened Keyboard
  import opened Machine
  import opened MachineMoves
  import opened MachineScreens

  /** What the end of the running process prints: a message if it was a base shell. */
  function Farewell(m: State): string
    requires m.turn < |m.stacks|
  {
    if |m.stacks[m.turn]| == 1 then RESTARTING else ""
  }

  /** The screen of terminal `t` after a key that is typed while it is shown and does not switch terminals. */
  ghost function KeyScreen(m: State, e: Event, t: nat): (r: Screen)
    requires Ok(m) && Allowed(m, e) && e.Key? && t == m.shown
    ensures OnScreen(r)
  {
    var s := Echo(m.screens[t], m.lines[t], KeyAction(m, e), ATTRIBUTES[t]);
    if Ends(m, e) then PutText(s, Farewell(m), ATTRIBUTES[t]) else s
  }

  /** The screen of terminal `t` after a step. */
  ghost function ScreenStep(m: State, e: Event, t: nat): (r: Screen)
    requires Ok(m) && Allowed(m, e) && t < NUM_TERMINALS
    ensures OnScreen(r)
  {
    var s, attr := m.screens[t], ATTRIBUTES[t];
    if !Draws(m, e, t) then s
    else
      match e
      case Write(buf) => if buf.None? then s else PutText(s, buf.value, attr)
      case Fault(message) => PutText(PutText(s, message, attr), Farewell(m), attr)
      case Halt(_) => PutText(s, Farewell(m), attr)
      case Tick(_) => PutText(Prompted(s, attr), Farewell(m), attr)
      case Key(_, _) => if KeyAction(m, e).SwitchTo? then Cleared(s, attr) else KeyScreen(m, e, t)
      case _ => s
  }

  lemma {:induction false} NoText(s: Screen, attr: nat)
    requires OnScreen(s)
    ensures PutText(s, "", attr) == s
  {
  }

  lemma {:induction false} TerminateScreens(m: State, value: int)
    requires Ok(m)
    ensures Terminate(m, value).0.screens ==
      m.screens[m.target := PutText(m.screens[m.target], Farewell(m), ATTRIBUTES[m.target])]
  {
    if |m.stacks[m.turn]| != 1 {
      assert m.screens[m.target := m.screens[m.target]] == m.screens;
    }
  }

  lemma {:induction false} KeyDrawn(m: State, e: Event, t: nat)
    requires Ok(m) && Allowed(m, e) && e.Key? && t < NUM_TERMINALS && Draws(m, e, t)
    ensures After1(m, e).screens[t] == ScreenStep(m, e, t)
  {
    hide Decode, Update, Echo, Terminate, Fresh, PutText, Prompted;
    if Ends(m, e) {
      var m1 := m.(mods := Update(m.mods, e.scancode));
      KeyEnds(m, e.scancode, e.at);
      TerminateScreens(Edited(m1, Interrupt).(target := m.turn), 256);
    } else if Starts(m, e) {
      KeyStarts(m, e.scancode, e.at);
    }
  }

  lemma {:induction false} EndDrawn(m: State, e: Event, t: nat)
    requires Ok(m) && Allowed(m, e) && (e.Halt? || e.Fault? || e.Tick?) && t < NUM_TERMINALS && Draws(m, e, t)
    ensures After1(m, e).screens[t] == ScreenStep(m, e, t)
  {
    hide Terminate, PutText, Prompted;
    match e
    case Halt(status) => TerminateScreens(m, status);
    case Fault(message) => TerminateScreens(Print(m, message), 256);
    case Tick(_) => TerminateScreens(Reprompt(m.(kill := m.kill[m.turn := false])), 256);
  }

  lemma {:induction false} StepScreens(m: State, e: Event, t: nat)
    requires Ok(m) && Allowed(m, e) && t < NUM_TERMINALS
    ensures After1(m, e).screens[t] == ScreenStep(m, e, t)
  {
    if !Draws(m, e, t) {
      StepDraws(m, e, t);
    } else if e.Key? {
      KeyDrawn(m, e, t);
    } else if e.Halt? || e.Fault? || e.Tick? {
      EndDrawn(m, e, t);
    } else {
      hide PutText;
    }
  }
}
