/** The line editors of the three terminals over whole runs: the line of a terminal is what was typed while
    the terminal was shown since it was last read or its shell was started.
 */
module MachineLines {
  import opened Console
  import opened Keyboard
  import opened Machine
  import opened MachineMoves
  import opened MachineRuns
  import opened MachineScreens
  import opened Wrappers

  /** A line without buffer and position: its text, and whether Enter was pressed. */
  datatype Typing = Typing(text: string, ready: bool)

  const NOTHING_TYPED := Typing("", false)

  function View(l: Line): Typing
    requires ValidLine(l)
  {
    Typing(Text(l), l.ready)
  }

  /** The step starts a base shell on terminal `t`. */
  ghost predicate Launches(m: State, e: Event, t: nat)
    requires Ok(m) && t < NUM_TERMINALS
  {
    (Ends(m, e) && m.turn == t && |m.stacks[t]| == 1) || (Starts(m, e) && KeyAction(m, e).terminal == t)
  }

  /** What one step does to what is typed on terminal `t`. */
  ghost function TypingStep(y: Typing, m: State, e: Event, t: nat): Typing
    requires Ok(m) && t < NUM_TERMINALS
  {
    if Launches(m, e, t) then NOTHING_TYPED
    else if e.Key? && m.shown == t then
      Typing(EditText(y.text, KeyAction(m, e)), y.ready || KeyAction(m, e).Submit?)
    else if e.Read? && m.turn == t && y.ready then NOTHING_TYPED
    else y
  }

  /** The fold of a run. */
  ghost function Typed(y: Typing, m: State, es: seq<Event>, t: nat): Typing
    requires Ok(m) && Admissible(m, es) && t < NUM_TERMINALS
    decreases |es|
  {
    if es == [] then y else Typed(TypingStep(y, m, es[0], t), After1(m, es[0]), es[1..], t)
  }

  /** The line of terminal `t` after a step. */
  ghost function LineStep(m: State, e: Event, t: nat): (l: Line)
    requires Ok(m) && t < NUM_TERMINALS
    ensures ValidLine(l)
  {
    if Launches(m, e, t) then
      if e.Key? && m.shown == t then Emptied(Edit(m.lines[t], KeyAction(m, e))) else Emptied(m.lines[t])
    else if e.Key? && m.shown == t then Edit(m.lines[t], KeyAction(m, e))
    else if e.Read? && m.turn == t && m.lines[t].ready then Emptied(m.lines[t])
    else m.lines[t]
  }

  lemma {:induction false} TerminateLines(m: State, value: int)
    requires Ok(m)
    ensures Terminate(m, value).0.lines ==
      if |m.stacks[m.turn]| == 1 then m.lines[m.turn := Emptied(m.lines[m.turn])] else m.lines
  {
  }

  lemma {:induction false} ExecLines(m: State, file: Option<FileKind>, magic: bool, at: Context)
    requires Ok(m)
    ensures Exec(m, file, magic, at).0.lines == m.lines
  {
  }

  lemma {:induction false} InterruptLines(m: State, e: Event, t: nat)
    requires Ok(m) && Allowed(m, e) && e.Key? && Ends(m, e) && t < NUM_TERMINALS
    ensures After1(m, e).lines[t] == LineStep(m, e, t)
  {
    hide Decode, Update, Echo, Terminate;
    var m1 := m.(mods := Update(m.mods, e.scancode));
    KeyEnds(m, e.scancode, e.at);
    TerminateLines(Edited(m1, Interrupt).(target := m.turn), 256);
  }

  lemma {:induction false} PlainLines(m: State, e: Event, t: nat)
    requires Ok(m) && Allowed(m, e) && e.Key? && !Ends(m, e) && !Starts(m, e) && t < NUM_TERMINALS
    ensures After1(m, e).lines[t] == LineStep(m, e, t)
  {
    hide Decode, Update, Echo, Terminate, Started;
  }

  lemma {:induction false} KeyLines(m: State, e: Event, t: nat)
    requires Ok(m) && Allowed(m, e) && e.Key? && t < NUM_TERMINALS
    ensures After1(m, e).lines[t] == LineStep(m, e, t)
  {
    hide Decode, Update, Echo, Terminate, Fresh;
    if Ends(m, e) {
      InterruptLines(m, e, t);
    } else if Starts(m, e) {
      KeyStarts(m, e.scancode, e.at);
    } else {
      PlainLines(m, e, t);
    }
  }

  /** The steps that can end a process without a key. */
  lemma {:induction false} EndLines(m: State, e: Event, t: nat)
    requires Ok(m) && Allowed(m, e) && (e.Halt? || e.Fault? || e.Tick?) && t < NUM_TERMINALS
    ensures After1(m, e).lines[t] == LineStep(m, e, t)
  {
    hide Terminate;
    match e
    case Halt(status) => TerminateLines(m, status);
    case Fault(message) => TerminateLines(Print(m, message), 256);
    case Tick(_) =>
      if m.kill[m.turn] {
        TerminateLines(Reprompt(m.(kill := m.kill[m.turn := false])), 256);
      }
  }

  /** The system calls that return to their caller or start a process. */
  lemma {:induction false} CallLines(m: State, e: Event, t: nat)
    requires Ok(m) && Allowed(m, e) && !(e.Halt? || e.Fault? || e.Tick? || e.Key?) && t < NUM_TERMINALS
    ensures After1(m, e).lines[t] == LineStep(m, e, t)
  {
    hide Exec, Terminate, Timer, Keyed, PutText, FirstClosed, Decode, Update;
    if e.Execute? {
      ExecLines(m, e.file, e.magic, e.at);
    }
  }

  lemma {:induction false} StepLines(m: State, e: Event, t: nat)
    requires Ok(m) && Allowed(m, e) && t < NUM_TERMINALS
    ensures After1(m, e).lines[t] == LineStep(m, e, t)
  {
    if e.Key? {
      KeyLines(m, e, t);
    } else if e.Halt? || e.Fault? || e.Tick? {
      EndLines(m, e, t);
    } else {
      CallLines(m, e, t);
    }
  }

  lemma {:induction false} NothingLeft(l: Line)
    requires ValidLine(l)
    ensures ValidLine(Emptied(l)) && View(Emptied(l)) == NOTHING_TYPED
  {
  }

  lemma {:induction false} EditReady(l: Line, a: Action)
    requires ValidLine(l)
    ensures Edit(l, a).ready == (l.ready || a.Submit?)
  {
  }

  lemma {:induction false} StepTypes(m: State, e: Event, t: nat)
    requires Ok(m) && Allowed(m, e) && t < NUM_TERMINALS
    ensures View(After1(m, e).lines[t]) == TypingStep(View(m.lines[t]), m, e, t)
  {
    hide Decode, Update, EditText, Edit;
    StepLines(m, e, t);
    NothingLeft(m.lines[t]);
    if e.Key? && m.shown == t {
      EditReady(m.lines[t], KeyAction(m, e));
      NothingLeft(Edit(m.lines[t], KeyAction(m, e)));
      EditKeepsText(m.lines[t], KeyAction(m, e));
    }
  }

  /** Main result: over every run, with switches of terminal, launches, reads and output in between, the line
      of each terminal is the fold of what was typed on it. */
  lemma {:induction false} LineIsTyped(m: State, es: seq<Event>, t: nat)
    requires Ok(m) && Admissible(m, es) && t < NUM_TERMINALS
    ensures View(After(m, es).lines[t]) == Typed(View(m.lines[t]), m, es, t)
    decreases |es|
  {
    if es != [] {
      StepTypes(m, es[0], t);
      LineIsTyped(After1(m, es[0]), es[1..], t);
    }
  }

  // ----- what a read returns -----

  /** No key is typed on terminal `t`, no line is read there, and no shell is started there. */
  ghost predicate LineAlone(m: State, es: seq<Event>, t: nat)
    requires Ok(m) && Admissible(m, es) && t < NUM_TERMINALS
    decreases |es|
  {
    es == [] ||
    (!Launches(m, es[0], t) && !(es[0].Key? && m.shown == t) && !(es[0].Read? && m.turn == t)
     && LineAlone(After1(m, es[0]), es[1..], t))
  }

  lemma {:induction false} LineKept(m: State, es: seq<Event>, t: nat)
    requires Ok(m) && Admissible(m, es) && t < NUM_TERMINALS && LineAlone(m, es, t)
    ensures After(m, es).lines[t] == m.lines[t]
    decreases |es|
  {
    if es != [] {
      StepLines(m, es[0], t);
      LineKept(After1(m, es[0]), es[1..], t);
    }
  }

  /** After any run, Enter on terminal `t`, and any run that leaves its line alone, a read by its process
      returns the typed line and a newline, cut to `nbytes`. */
  lemma {:induction false} ReadAfterEnter(m: State, es: seq<Event>, at: Context, more: seq<Event>, t: nat, nbytes: int)
    requires Ok(m) && Admissible(m, es) && After(m, es).shown == t < NUM_TERMINALS
    requires var m1 := After1(After(m, es), Key(ENTER, at));
      Admissible(m1, more) && LineAlone(m1, more, t) && After(m1, more).turn == t
    ensures var m2 := After(After1(After(m, es), Key(ENTER, at)), more);
      var line := Cut(Typed(View(m.lines[t]), m, es, t).text + "\n", nbytes);
      ReadOut(m2.lines[t], nbytes) == line && Step(m2, Read(nbytes)) == (LineTaken(m2), Return(|line|))
  {
    var m0 := After(m, es);
    var m1 := After1(m0, Key(ENTER, at));
    LineIsTyped(m, es, t);
    EnterSubmits(m0, at);
    LineKept(m1, more, t);
    SubmittedLine(m0.lines[t], nbytes);
  }

  lemma {:induction false} EnterSubmits(m: State, at: Context)
    requires Ok(m)
    ensures Allowed(m, Key(ENTER, at)) && After1(m, Key(ENTER, at)).lines[m.shown] == Edit(m.lines[m.shown], Submit)
  {
    StepLines(m, Key(ENTER, at), m.shown);
  }
}
