/** What each step does to the parts of the machine that no process owns: the modifiers, the halt marks, the
    terminal on show, the turn, the aim of the output and the directory cursor.  The laws speak of scancodes and of
    the state before the step, and are folded over whole runs.
 */
module MachineLaws {
  import opened Console
  import opened Keyboard
  import opened KeyboardLaws
  import opened Machine
  import opened MachineMoves
  import opened MachineRuns
  import opened Wrappers

  // ----- modifiers -----

  lemma {:induction false} TerminateKeeps(m: State, value: int)
    requires Ok(m)
    ensures var m' := Terminate(m, value).0;
      m'.mods == m.mods && m'.kill == m.kill && m'.shown == m.shown && m'.target == m.target && m'.names == m.names
  {
  }

  lemma {:induction false} CallKeeps(m: State, e: Event)
    requires Ok(m) && Allowed(m, e) && !(e.Halt? || e.Fault? || e.Tick? || e.Key?)
    ensures var m' := After1(m, e);
      m'.mods == m.mods && m'.kill == m.kill && m'.shown == m.shown && m'.target == m.target && m'.names == m.names
  {
    hide Terminate, Timer, Keyed, PutText, FirstClosed, Fresh, Ok;
  }

  lemma {:induction false} EndKeeps(m: State, e: Event)
    requires Ok(m) && Allowed(m, e) && (e.Halt? || e.Fault?)
    ensures var m' := After1(m, e);
      m'.mods == m.mods && m'.kill == m.kill && m'.shown == m.shown && m'.target == m.target && m'.names == m.names
  {
    hide Terminate, PutText;
    match e
    case Halt(status) => TerminateKeeps(m, status);
    case Fault(message) => TerminateKeeps(Print(m, message), 256);
  }

  lemma {:induction false} TickKeeps(m: State, e: Event)
    requires Ok(m) && Allowed(m, e) && e.Tick?
    ensures var m' := After1(m, e); m'.mods == m.mods && m'.shown == m.shown && m'.names == m.names
    ensures After1(m, e).kill == m.kill[m.turn := false]
  {
    hide Terminate, PutText;
    TimerUnmarks(m, e.at);
    if m.kill[m.turn] {
      TerminateKeeps(Reprompt(m.(kill := m.kill[m.turn := false])), 256);
    }
  }

  lemma {:induction false} TimerUnmarks(m: State, at: Context)
    requires Ok(m)
    ensures Timer(m, at).0.kill == m.kill[m.turn := false]
  {
    hide Terminate, PutText;
    if m.kill[m.turn] {
      TerminateKeeps(Reprompt(m.(kill := m.kill[m.turn := false])), 256);
    } else {
      assert m.kill[m.turn := false] == m.kill;
    }
  }

  /** A Ctrl-C that cannot end the process it is meant for at once. */
  predicate Marks(m: State, e: Event, t: nat) {
    e.Key? && e.scancode == C_KEY && m.mods.ctrl && t == m.shown && t != m.turn
  }

  /** Alt with a function key. */
  predicate Asks(m: State, e: Event, t: nat) {
    e.Key? && m.mods.alt && t < NUM_TERMINALS && e.scancode == F1 + t
  }

  lemma {:induction false} KeyMeans(m: State, e: Event)
    requires e.Key?
    ensures var a := Decode(Update(m.mods, e.scancode), e.scancode);
      && (a.Interrupt? <==> m.mods.ctrl && e.scancode == C_KEY)
      && (forall t :: a == SwitchTo(t) <==> Asks(m, e, t))
  {
  }

  lemma {:induction false} InterruptKeeps(m: State, e: Event)
    requires Ok(m) && Allowed(m, e) && e.Key? && Ends(m, e)
    ensures var m' := After1(m, e);
      && m'.mods == Update(m.mods, e.scancode) && m'.shown == m.shown && m'.names == m.names
      && m'.kill == m.kill && m'.target == m.turn
  {
    hide Decode, Update, Echo, Terminate;
    var m1 := m.(mods := Update(m.mods, e.scancode));
    KeyEnds(m, e.scancode, e.at);
    TerminateKeeps(Edited(m1, Interrupt).(target := m.turn), 256);
  }

  lemma {:induction false} EditKeeps(m: State, e: Event)
    requires Ok(m) && Allowed(m, e) && e.Key? && !Ends(m, e)
    requires forall t :: !Asks(m, e, t)
    ensures var m' := After1(m, e);
      && m'.mods == Update(m.mods, e.scancode) && m'.shown == m.shown && m'.names == m.names && m'.target == m.turn
      && m'.kill == if Marks(m, e, m.shown) then m.kill[m.shown := true] else m.kill
  {
    KeyMeans(m, e);
    hide Decode, Update, Echo, Terminate;
    var a := Decode(Update(m.mods, e.scancode), e.scancode);
    assert !a.SwitchTo? by {
      assert a.SwitchTo? ==> Asks(m, e, a.terminal);
    }
  }

  lemma {:induction false} SwitchKeeps(m: State, e: Event, t: nat)
    requires Ok(m) && Allowed(m, e) && Asks(m, e, t)
    ensures var m' := After1(m, e);
      && m'.mods == Update(m.mods, e.scancode) && m'.names == m.names && m'.kill == m.kill
      && m'.shown == (if m.stacks[t] != [] || Fresh(m.stacks) != 0 then t else m.shown)
      && m'.target == if t == m.shown then t else m'.turn
  {
    KeyMeans(m, e);
    hide Decode, Update, Echo, Terminate, Fresh;
  }

  lemma {:induction false} SomeSlot(stacks: Stacks)
    ensures Fresh(stacks) != 0 <==> exists p :: 1 <= p <= MAX_PROCESSES && Free(stacks, p)
  {
    hide Free;
  }

  /** There is a slot for one more process. */
  ghost predicate HasSlot(stacks: Stacks) {
    exists p :: 1 <= p <= MAX_PROCESSES && Free(stacks, p)
  }

  /** The step is a key that asks for a terminal. */
  predicate AsksAny(m: State, e: Event) {
    Asks(m, e, 0) || Asks(m, e, 1) || Asks(m, e, 2)
  }

  function Asked(m: State, e: Event): nat
    requires AsksAny(m, e)
  {
    e.scancode - F1
  }

  lemma {:induction false} NotBoth(m: State, e: Event)
    requires Ok(m) && AsksAny(m, e)
    ensures !Ends(m, e) && forall t :: !Marks(m, e, t)
  {
  }

  // ----- the laws of one step -----

  /** Keys change the modifiers and nothing else does, and the directory never changes. */
  lemma {:induction false} ModifierStep(m: State, e: Event)
    requires Ok(m) && Allowed(m, e)
    ensures After1(m, e).mods == if e.Key? then Held(m.mods, [e.scancode]) else m.mods
    ensures After1(m, e).names == m.names
  {
    hide After1, Update, Decode;
    if e.Key? {
      assert Held(m.mods, [e.scancode]) == Update(m.mods, e.scancode);
      if AsksAny(m, e) {
        SwitchKeeps(m, e, Asked(m, e));
      } else if Ends(m, e) {
        InterruptKeeps(m, e);
      } else {
        EditKeeps(m, e);
      }
    } else if e.Tick? {
      TickKeeps(m, e);
    } else if e.Halt? || e.Fault? {
      EndKeeps(m, e);
    } else {
      CallKeeps(m, e);
    }
  }

  /** A halt mark is set by a Ctrl-C for a terminal that is shown and not in turn, is cleared by a tick that finds
      its terminal in turn, and otherwise stays as it is. */
  lemma {:induction false} MarkStep(m: State, e: Event, t: nat)
    requires Ok(m) && Allowed(m, e) && t < NUM_TERMINALS
    ensures After1(m, e).kill[t] ==
      if Marks(m, e, t) then true else if e.Tick? && t == m.turn then false else m.kill[t]
  {
    hide After1, Update, Decode;
    if e.Key? {
      if AsksAny(m, e) {
        NotBoth(m, e);
        SwitchKeeps(m, e, Asked(m, e));
      } else if Ends(m, e) {
        InterruptKeeps(m, e);
        KeyMeans(m, e);
      } else {
        EditKeeps(m, e);
      }
    } else if e.Tick? {
      TickKeeps(m, e);
    } else if e.Halt? || e.Fault? {
      EndKeeps(m, e);
    } else {
      CallKeeps(m, e);
    }
  }

  /** Alt with a function key shows that terminal if it has a process or can get one, and nothing else changes the
      terminal on show. */
  lemma {:induction false} ShownStep(m: State, e: Event)
    requires Ok(m) && Allowed(m, e)
    ensures After1(m, e).shown ==
      if AsksAny(m, e) && (m.stacks[Asked(m, e)] != [] || HasSlot(m.stacks)) then Asked(m, e) else m.shown
  {
    hide After1, Update, Decode, Fresh;
    SomeSlot(m.stacks);
    if e.Key? {
      if AsksAny(m, e) {
        SwitchKeeps(m, e, Asked(m, e));
      } else if Ends(m, e) {
        InterruptKeeps(m, e);
      } else {
        EditKeeps(m, e);
      }
    } else if e.Tick? {
      TickKeeps(m, e);
    } else if e.Halt? || e.Fault? {
      EndKeeps(m, e);
    } else {
      CallKeeps(m, e);
    }
  }

  /** How far one goes round from `t` to get to `u`, a whole round for `t` itself. */
  function Round(t: nat, u: nat): int {
    if u > t then u - t else u + NUM_TERMINALS - t
  }

  /** Terminal `n` is the first with a process when one goes round from `t`. */
  ghost predicate FirstAfter(stacks: Stacks, t: nat, n: nat)
    requires |stacks| == NUM_TERMINALS
  {
    && n < NUM_TERMINALS && stacks[n] != []
    && forall u :: 0 <= u < NUM_TERMINALS && Round(t, u) < Round(t, n) ==> stacks[u] == []
  }

  lemma {:induction false} NextIsFirst(stacks: Stacks, t: nat)
    requires |stacks| == NUM_TERMINALS && t < NUM_TERMINALS && stacks[t] != []
    ensures FirstAfter(stacks, t, Next(stacks, t))
  {
  }

  lemma {:induction false} StartsAsked(m: State, e: Event)
    requires Ok(m)
    ensures Starts(m, e) <==> AsksAny(m, e) && m.stacks[Asked(m, e)] == [] && HasSlot(m.stacks)
    ensures Starts(m, e) ==> Decode(Update(m.mods, e.scancode), e.scancode).terminal == Asked(m, e)
  {
    assert m.stacks[m.shown] != [] && |m.stacks| == NUM_TERMINALS;
    hide Decode, Update, Fresh, Ok, Free;
    SomeSlot(m.stacks);
    if e.Key? {
      KeyMeans(m, e);
    }
    if Starts(m, e) {
      assert Asks(m, e, Decode(Update(m.mods, e.scancode), e.scancode).terminal);
    }
  }

  /** The turn goes to a terminal that is started, and on a tick that halts nothing to the next terminal with a
      process. */
  lemma {:induction false} TurnStep(m: State, e: Event)
    requires Ok(m) && Allowed(m, e)
    ensures var n := After1(m, e).turn;
      if AsksAny(m, e) && m.stacks[Asked(m, e)] == [] && HasSlot(m.stacks) then n == Asked(m, e)
      else if e.Tick? && !m.kill[m.turn] then FirstAfter(m.stacks, m.turn, n)
      else n == m.turn
  {
    hide Decode, Update, Fresh, HasSlot;
    StartsAsked(m, e);
    if Starts(m, e) {
      KeyStarts(m, e.scancode, e.at);
    } else {
      QuietStep(m, e);
      NextIsFirst(m.stacks, m.turn);
    }
  }

  /** Output is aimed at the terminal in turn by every key and by every change of the turn, except that Alt with
      the function key of the terminal on show aims it there.  Other steps leave it as it is. */
  lemma {:induction false} TargetStep(m: State, e: Event)
    requires Ok(m) && Allowed(m, e)
    ensures var m' := After1(m, e);
      m'.target == if Asks(m, e, m.shown) then m.shown
                   else if e.Key? || m'.turn != m.turn then m'.turn
                   else m.target
  {
    hide After1, Update, Decode, Fresh;
    if e.Key? {
      if AsksAny(m, e) {
        SwitchKeeps(m, e, Asked(m, e));
      } else if Ends(m, e) {
        InterruptKeeps(m, e);
        SameTurn(m, e);
      } else {
        EditKeeps(m, e);
        SameTurn(m, e);
      }
    } else if e.Tick? {
      TickTarget(m, e);
    } else if e.Halt? || e.Fault? {
      EndKeeps(m, e);
      SameTurn(m, e);
    } else {
      CallKeeps(m, e);
      SameTurn(m, e);
    }
  }

  lemma {:induction false} SameTurn(m: State, e: Event)
    requires Ok(m) && Allowed(m, e) && !e.Tick? && !AsksAny(m, e)
    ensures After1(m, e).turn == m.turn
  {
    hide After1, Update, Decode, Fresh;
    TurnStep(m, e);
  }

  lemma {:induction false} TickTarget(m: State, e: Event)
    requires Ok(m) && Allowed(m, e) && e.Tick?
    ensures var m' := After1(m, e); m'.target == if m'.turn != m.turn then m'.turn else m.target
  {
    hide Terminate, PutText;
    if m.kill[m.turn] {
      var m1 := Reprompt(m.(kill := m.kill[m.turn := false]));
      TerminateKeeps(m1, 256);
      TerminateTurn(m1, 256);
    }
  }

  lemma {:induction false} TerminateTurn(m: State, value: int)
    requires Ok(m)
    ensures Terminate(m, value).0.turn == m.turn
  {
  }

  // ----- the directory cursor -----

  /** The running process has a directory under this descriptor. */
  predicate Lists(m: State, fd: int)
    requires Ok(m)
  {
    0 <= fd < MAX_FD && Current(m).files[fd] == Opened(Dir)
  }

  /** The step closes a directory: by a call, with the process, or after the look at a command file. */
  ghost predicate ClosesDir(m: State, e: Event)
    requires Ok(m)
  {
    match e
    case Close(fd) => Lists(m, fd)
    case Execute(file, _, _) => file == Some(Dir) && Closed in Current(m).files
    case _ => Ends(m, e) && Opened(Dir) in Current(m).files
  }

  lemma {:induction false} SomeClosed(files: seq<Handle>, f: nat)
    requires f <= |files|
    ensures FirstClosed(files, f) == -1 <==> Closed !in files[f..]
    decreases |files| - f
  {
    if f < |files| && files[f] != Closed {
      SomeClosed(files, f + 1);
      assert files[f..] == [files[f]] + files[f + 1..];
    }
  }

  lemma {:induction false} TerminateCursor(m: State, value: int)
    requires Ok(m)
    ensures Terminate(m, value).0.cursor == if Opened(Dir) in Current(m).files then 0 else m.cursor
  {
  }

  lemma {:induction false} PushedCursor(m: State, at: Context)
    requires m.turn < |m.stacks| && m.stacks[m.turn] != []
    ensures forall pid :: Pushed(m, pid, at).cursor == m.cursor
    ensures forall task :: WithCurrent(m, task).cursor == m.cursor
  {
  }

  lemma {:induction false} ExecCursor(m: State, e: Event)
    requires Ok(m) && e.Execute?
    ensures After1(m, e).cursor == if ClosesDir(m, e) then 0 else m.cursor
  {
    SomeClosed(Current(m).files, 0);
    assert Current(m).files[0..] == Current(m).files;
    assert !Ends(m, e);
    hide FirstClosed, Fresh, Ok, Ends, NewTask, Pushed, WithCurrent;
    PushedCursor(Probed(m, if e.file.Some? then e.file.value else Plain), e.at);
  }

  lemma {:induction false} EndCursor(m: State, e: Event)
    requires Ok(m) && Allowed(m, e) && Ends(m, e)
    ensures After1(m, e).cursor == if ClosesDir(m, e) then 0 else m.cursor
  {
    hide Terminate, PutText, Decode, Update, Echo;
    match e
    case Halt(status) => TerminateCursor(m, status);
    case Fault(message) => TerminateCursor(Print(m, message), 256);
    case Tick(_) => TerminateCursor(Reprompt(m.(kill := m.kill[m.turn := false])), 256);
    case Key(_, _) =>
      var m1 := m.(mods := Update(m.mods, e.scancode));
      KeyEnds(m, e.scancode, e.at);
      TerminateCursor(Edited(m1, Interrupt).(target := m.turn), 256);
  }

  lemma {:induction false} KeyCursor(m: State, e: Event)
    requires Ok(m) && Allowed(m, e) && e.Key? && !Ends(m, e)
    ensures After1(m, e).cursor == m.cursor
  {
    hide Terminate, PutText, Decode, Update, Echo, Fresh;
  }

  lemma {:induction false} CloseCursor(m: State, fd: int)
    requires Ok(m)
    ensures CloseFd(m, fd).0.cursor == if Lists(m, fd) then 0 else m.cursor
  {
  }

  lemma {:induction false} CallCursor(m: State, e: Event)
    requires Ok(m) && Allowed(m, e) && !Ends(m, e) && !e.Execute? && !e.Key?
    ensures After1(m, e).cursor ==
      if ClosesDir(m, e) then 0
      else if e.ReadFd? && Lists(m, e.fd) && m.cursor < |m.names| then m.cursor + 1
      else m.cursor
  {
    if e.Close? {
      CloseCursor(m, e.fd);
    }
    hide Terminate, PutText, Exec, Keyed, FirstClosed, Fresh, Decode, Update, CloseFd, Handover;
    if e.Tick? {
      HandoverCursor(m, e.at);
    }
  }

  lemma {:induction false} HandoverCursor(m: State, at: Context)
    requires Ok(m)
    ensures var n := Next(m.stacks, m.turn); n != m.turn ==> Handover(m, n, at).cursor == m.cursor
  {
  }

  /** A read of a directory that has entries left moves the cursor on, and it goes back to the start whenever a
      directory is closed, whoever read it. */
  lemma {:induction false} CursorStep(m: State, e: Event)
    requires Ok(m) && Allowed(m, e)
    ensures After1(m, e).cursor ==
      if ClosesDir(m, e) then 0
      else if e.ReadFd? && Lists(m, e.fd) && m.cursor < |m.names| then m.cursor + 1
      else m.cursor
  {
    if Ends(m, e) {
      hide After1, ClosesDir;
      EndCursor(m, e);
    } else if e.Execute? {
      hide After1, ClosesDir;
      ExecCursor(m, e);
    } else if e.Key? {
      hide After1;
      KeyCursor(m, e);
    } else {
      hide After1, ClosesDir;
      CallCursor(m, e);
    }
  }

  // ----- over whole runs -----

  /** The scancodes of a run. */
  function Codes(es: seq<Event>): seq<nat> {
    if es == [] then [] else (if es[0].Key? then [es[0].scancode] else []) + Codes(es[1..])
  }

  lemma {:induction false} HeldJoin(m: Modifiers, a: seq<nat>, b: seq<nat>)
    requires |a| <= 1
    ensures Held(m, a + b) == Held(Held(m, a), b)
  {
    if a == [] {
      assert a + b == b;
    } else {
      assert (a + b)[0] == a[0] && (a + b)[1..] == b && a[1..] == [];
    }
  }

  /** Whatever processes do in between, the modifiers are those of the scancodes alone. */
  lemma {:induction false} ModifiersOfRun(m: State, es: seq<Event>)
    requires Ok(m) && Admissible(m, es)
    ensures After(m, es).mods == Held(m.mods, Codes(es)) && After(m, es).names == m.names
    decreases |es|
  {
    hide After1, Update;
    if es != [] {
      ModifierStep(m, es[0]);
      ModifiersOfRun(After1(m, es[0]), es[1..]);
      HeldJoin(m.mods, if es[0].Key? then [es[0].scancode] else [], Codes(es[1..]));
    }
  }

  function Count(b: bool): nat {
    if b then 1 else 0
  }

  /** How many steps of a run mark terminal `t` anew. */
  ghost function NewMarks(m: State, es: seq<Event>, t: nat): nat
    requires Ok(m) && Admissible(m, es) && t < NUM_TERMINALS
    decreases |es|
  {
    if es == [] then 0
    else Count(Marks(m, es[0], t) && !m.kill[t]) + NewMarks(After1(m, es[0]), es[1..], t)
  }

  /** How many ticks of a run end the process of terminal `t`. */
  ghost function TimerEnds(m: State, es: seq<Event>, t: nat): nat
    requires Ok(m) && Admissible(m, es) && t < NUM_TERMINALS
    decreases |es|
  {
    if es == [] then 0
    else Count(es[0].Tick? && m.turn == t && Ends(m, es[0])) + TimerEnds(After1(m, es[0]), es[1..], t)
  }

  /** Main result: over every run, the timer ends as many processes of a terminal as Ctrl-C marked it, up to marks
      that were there before or are still pending. */
  lemma {:induction false} MarksAreSpent(m: State, es: seq<Event>, t: nat)
    requires Ok(m) && Admissible(m, es) && t < NUM_TERMINALS
    ensures Count(m.kill[t]) + NewMarks(m, es, t) == TimerEnds(m, es, t) + Count(After(m, es).kill[t])
    decreases |es|
  {
    hide After1, Update, Decode, Ok;
    if es != [] {
      MarkStep(m, es[0], t);
      MarksAreSpent(After1(m, es[0]), es[1..], t);
    }
  }

  /** A tick of the run finds terminal `t` in turn. */
  ghost predicate Reached(m: State, es: seq<Event>, t: nat)
    requires Ok(m) && Admissible(m, es)
    decreases |es|
  {
    es != [] && ((es[0].Tick? && m.turn == t) || Reached(After1(m, es[0]), es[1..], t))
  }

  /** No step of the run marks terminal `t`. */
  ghost predicate Unmarked(m: State, es: seq<Event>, t: nat)
    requires Ok(m) && Admissible(m, es)
    decreases |es|
  {
    es == [] || (!Marks(m, es[0], t) && Unmarked(After1(m, es[0]), es[1..], t))
  }

  lemma {:induction false} StaysUntilReached(m: State, es: seq<Event>, t: nat)
    requires Ok(m) && Admissible(m, es) && t < NUM_TERMINALS && Unmarked(m, es, t)
    ensures After(m, es).kill[t] == (m.kill[t] && !Reached(m, es, t)) && NewMarks(m, es, t) == 0
    decreases |es|
  {
    hide After1, Update, Decode, Ok;
    if es != [] {
      MarkStep(m, es[0], t);
      StaysUntilReached(After1(m, es[0]), es[1..], t);
    }
  }

  /** One Ctrl-C for a hidden process ends exactly one process: the first tick that finds its terminal in turn
      does it, and no later one. */
  lemma {:induction false} OneMarkOneEnd(m: State, mark: Event, es: seq<Event>, t: nat)
    requires Ok(m) && Allowed(m, mark) && t < NUM_TERMINALS && Marks(m, mark, t)
    requires Admissible(After1(m, mark), es) && Unmarked(After1(m, mark), es, t)
    ensures TimerEnds(After1(m, mark), es, t) == Count(Reached(After1(m, mark), es, t))
  {
    hide After1, Update, Decode, Ok;
    MarkStep(m, mark, t);
    StaysUntilReached(After1(m, mark), es, t);
    MarksAreSpent(After1(m, mark), es, t);
  }
}
