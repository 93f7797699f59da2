/** Every step of the machine moves the stacks in one of six ways.  The properties of whole runs only
    need to look at these.
 */
module MachineMoves {
  import opened Console
  import opened Keyboard
  import opened Machine
  import opened MachineInvariant
  import opened Wrappers

  ghost function After1(m: State, e: Event): (r: State)
    requires Ok(m) && Allowed(m, e)
    ensures Ok(r)
  {
    StepOk(m, e);
    Step(m, e).0
  }

  datatype Move =
    | Same(top: Task)                      // the running process stays, possibly with other descriptors
    | Push(top: Task, pid: nat)            // it waits for a new process
    | Pop                                  // it is gone, its parent runs
    | Relaunch(pid: nat)                   // it was a base shell and is replaced by a new one
    | Pass(n: nat, at: Context)            // the top of terminal n runs instead
    | Start(t: nat, pid: nat, at: Context) // a base shell on the empty terminal t runs instead

  ghost predicate Enabled(stacks: Stacks, turn: nat, v: Move) {
    && |stacks| == NUM_TERMINALS && turn < NUM_TERMINALS && stacks[turn] != []
    && match v
       case Same(top) => top.pid == Top(stacks[turn]).pid
       case Push(top, _) => top.pid == Top(stacks[turn]).pid
       case Pop => |stacks[turn]| >= 2
       case Relaunch(_) => |stacks[turn]| == 1
       case Pass(n, _) => n < NUM_TERMINALS && n != turn && stacks[n] != []
       case Start(t, _, _) => t < NUM_TERMINALS && stacks[t] == []
  }

  ghost function Moves(stacks: Stacks, turn: nat, v: Move): (Stacks, nat)
    requires Enabled(stacks, turn, v)
  {
    var st := stacks[turn];
    match v
    case Same(top) => (stacks[turn := WithTop(st, top)], turn)
    case Push(top, pid) => (stacks[turn := WithTop(st, top) + [NewTask(pid)]], turn)
    case Pop => (stacks[turn := st[..|st| - 2] + [st[|st| - 2].(status := Running)]], turn)
    case Relaunch(pid) => (stacks[turn := [NewTask(pid)]], turn)
    case Pass(n, at) =>
      var s1 := stacks[turn := WithTop(st, Top(st).(status := Preempted(at)))];
      (s1[n := WithTop(stacks[n], Top(stacks[n]).(status := Running))], n)
    case Start(t, pid, at) =>
      (stacks[turn := WithTop(st, Top(st).(status := Preempted(at)))][t := [NewTask(pid)]], t)
  }

  ghost function EndMove(m: State): Move
    requires Ok(m)
  {
    if |m.stacks[m.turn]| == 1 then Relaunch(Fresh(m.stacks[m.turn := []])) else Pop
  }

  ghost predicate Starts(m: State, e: Event)
    requires Ok(m)
  {
    && e.Key?
    && var a := Decode(Update(m.mods, e.scancode), e.scancode);
    && a.SwitchTo? && a.terminal != m.shown && m.stacks[a.terminal] == [] && Fresh(m.stacks) != 0
  }

  /** The step ends the running process. */
  ghost predicate Ends(m: State, e: Event)
    requires Ok(m)
  {
    match e
    case Halt(_) => true
    case Fault(_) => true
    case Tick(_) => m.kill[m.turn]
    case Key(scancode, _) => Decode(Update(m.mods, scancode), scancode).Interrupt? && m.turn == m.shown
    case _ => false
  }

  ghost function ExecMove(m: State, file: Option<FileKind>, magic: bool, at: Context): Move
    requires Ok(m)
  {
    if file.None? || FirstClosed(Current(m).files, 0) == -1 then Same(Current(m))
    else
      var m1 := Probed(m, file.value);
      if !magic || Fresh(m1.stacks) == 0 then Same(Current(m1))
      else Push(Current(m1).(status := Waiting(at)), Fresh(m1.stacks))
  }

  /** The running process after a system call on its files. */
  ghost function Served(m: State, e: Event): Task
    requires Ok(m)
  {
    var task := Current(m);
    match e
    case Open(file) =>
      var fd := FirstClosed(task.files, 0);
      if file.None? || fd == -1 then task else task.(files := task.files[fd := Opened(file.value)])
    case Close(fd) =>
      if fd < 2 || fd >= MAX_FD || task.files[fd] == Closed then task
      else
        task.(files := task.files[fd := Closed], rate := if task.files[fd] == Opened(Rtc) then 0 else task.rate)
    case WriteFd(fd, rate, _) => if SetsRate(m, fd, rate) then task.(rate := rate.value) else task
    case Vidmap(address) => if InImage(address) then task.(vidmap := true) else task
    case _ => task
  }

  ghost function MoveOf(m: State, e: Event): Move
    requires Ok(m) && Allowed(m, e)
  {
    if Ends(m, e) then EndMove(m)
    else if Starts(m, e) then Start(Decode(Update(m.mods, e.scancode), e.scancode).terminal, Fresh(m.stacks), e.at)
    else match e
      case Execute(file, magic, at) => ExecMove(m, file, magic, at)
      case Tick(at) => if Next(m.stacks, m.turn) == m.turn then Same(Current(m)) else Pass(Next(m.stacks, m.turn), at)
      case _ => Same(Served(m, e))
  }

  lemma {:induction false} SameTop(stacks: Stacks, turn: nat)
    requires turn < |stacks| && stacks[turn] != []
    ensures stacks[turn := WithTop(stacks[turn], Top(stacks[turn]))] == stacks
  {
    assert WithTop(stacks[turn], Top(stacks[turn])) == stacks[turn];
  }

  lemma {:induction false} Replaced(stacks: Stacks, turn: nat, task: Task)
    requires turn < |stacks| && stacks[turn] != []
    ensures Top(WithTop(stacks[turn], task)) == task
    ensures forall other {:trigger WithTop(WithTop(stacks[turn], task), other)} ::
              WithTop(WithTop(stacks[turn], task), other) == WithTop(stacks[turn], other)
  {
  }

  lemma {:induction false} TerminateMoves(m: State, value: int)
    requires Ok(m)
    ensures Enabled(m.stacks, m.turn, EndMove(m))
    ensures var m' := Terminate(m, value).0; (m'.stacks, m'.turn) == Moves(m.stacks, m.turn, EndMove(m))
  {
  }

  /** The probe of the command file leaves all but the running process alone. */
  lemma {:induction false} ProbedTop(m: State, kind: FileKind)
    requires m.turn < |m.stacks| && m.stacks[m.turn] != []
    ensures var m1 := Probed(m, kind);
      && m1.turn == m.turn && |m1.stacks| == |m.stacks| && m1.stacks[m.turn] != []
      && Current(m1).pid == Current(m).pid
      && m1.stacks == m.stacks[m.turn := WithTop(m.stacks[m.turn], Current(m1))]
  {
    SameTop(m.stacks, m.turn);
    Replaced(m.stacks, m.turn, Current(m).(rate := 0));
  }

  lemma {:induction false} PushedOver(stacks: Stacks, m1: State, pid: nat, at: Context)
    requires m1.turn < |m1.stacks| == |stacks| && stacks[m1.turn] != [] && m1.stacks[m1.turn] != []
    requires m1.stacks == stacks[m1.turn := WithTop(stacks[m1.turn], Current(m1))]
    ensures var top := Current(m1).(status := Waiting(at));
      Pushed(m1, pid, at) ==
        m1.(stacks := stacks[m1.turn := WithTop(stacks[m1.turn], top) + [NewTask(pid)]])
  {
    var st, top := stacks[m1.turn], Current(m1).(status := Waiting(at));
    Replaced(stacks, m1.turn, Current(m1));
    assert m1.stacks[m1.turn] == WithTop(st, Current(m1));
    var pushed := WithTop(st, top) + [NewTask(pid)];
    assert m1.stacks[m1.turn := pushed] == stacks[m1.turn := pushed];
  }

  lemma {:induction false} ExecMoves(m: State, file: Option<FileKind>, magic: bool, at: Context)
    requires Ok(m)
    ensures Enabled(m.stacks, m.turn, ExecMove(m, file, magic, at))
    ensures var m' := Exec(m, file, magic, at).0;
      (m'.stacks, m'.turn) == Moves(m.stacks, m.turn, ExecMove(m, file, magic, at))
  {
    assert |m.stacks| == NUM_TERMINALS && m.turn < NUM_TERMINALS && m.stacks[m.turn] != [];
    hide Ok, Probed, Pushed, Fresh, FirstClosed, NewTask;
    SameTop(m.stacks, m.turn);
    if file.Some? {
      var m1 := Probed(m, file.value);
      ProbedTop(m, file.value);
      PushedOver(m.stacks, m1, Fresh(m1.stacks), at);
    }
  }

  lemma {:induction false} KeyStays(m: State, scancode: nat, at: Context)
    requires Ok(m) && Allowed(m, Key(scancode, at)) && !Ends(m, Key(scancode, at)) && !Starts(m, Key(scancode, at))
    ensures Keyed(m, scancode, at).0.stacks == m.stacks && Keyed(m, scancode, at).0.turn == m.turn
  {
  }

  lemma {:induction false} KeyStarts(m: State, scancode: nat, at: Context)
    requires Ok(m) && Allowed(m, Key(scancode, at)) && Starts(m, Key(scancode, at))
    ensures var a := Decode(Update(m.mods, scancode), scancode);
      Keyed(m, scancode, at).0 == Started(m.(mods := Update(m.mods, scancode)), a.terminal, Fresh(m.stacks), at)
  {
  }

  lemma {:induction false} KeyEnds(m: State, scancode: nat, at: Context)
    requires Ok(m) && Allowed(m, Key(scancode, at)) && Ends(m, Key(scancode, at))
    ensures var m1 := m.(mods := Update(m.mods, scancode));
      Ok(m1) && Keyed(m, scancode, at) == Terminate(Edited(m1, Interrupt).(target := m.turn), 256)
  {
  }

  lemma {:induction false} KeyMoves(m: State, scancode: nat, at: Context)
    requires Ok(m) && Allowed(m, Key(scancode, at))
    ensures Enabled(m.stacks, m.turn, MoveOf(m, Key(scancode, at)))
    ensures var m' := Keyed(m, scancode, at).0;
      (m'.stacks, m'.turn) == Moves(m.stacks, m.turn, MoveOf(m, Key(scancode, at)))
  {
    var e := Key(scancode, at);
    if Ends(m, e) {
      KeyEnds(m, scancode, at);
      TerminateMoves(Edited(m.(mods := Update(m.mods, scancode)), Interrupt).(target := m.turn), 256);
    } else if Starts(m, e) {
      KeyStarts(m, scancode, at);
    } else {
      KeyStays(m, scancode, at);
      SameTop(m.stacks, m.turn);
      SameMove(m, Keyed(m, scancode, at).0, Current(m));
    }
  }

  lemma {:induction false} TimerMoves(m: State, at: Context)
    requires Ok(m)
    ensures Enabled(m.stacks, m.turn, MoveOf(m, Tick(at)))
    ensures var m' := Timer(m, at).0; (m'.stacks, m'.turn) == Moves(m.stacks, m.turn, MoveOf(m, Tick(at)))
  {
    hide Terminate, Decode, Update;
    if m.kill[m.turn] {
      TerminateMoves(Reprompt(m.(kill := m.kill[m.turn := false])), 256);
    } else {
      SameTop(m.stacks, m.turn);
    }
  }

  /** A step that leaves the turn and all but the top of its stack alone. */
  lemma {:induction false} SameMove(m: State, m': State, task: Task)
    requires Ok(m) && m'.turn == m.turn && task.pid == Current(m).pid
    requires m'.stacks == m.stacks[m.turn := WithTop(m.stacks[m.turn], task)]
    ensures m'.stacks[m.turn] != [] && Current(m') == task && Enabled(m.stacks, m.turn, Same(task))
    ensures (m'.stacks, m'.turn) == Moves(m.stacks, m.turn, Same(task))
  {
    Replaced(m.stacks, m.turn, task);
  }

  lemma {:induction false} FileMoves(m: State, e: Event)
    requires Ok(m) && Allowed(m, e)
    requires e.Write? || e.Read? || e.Open? || e.Close? || e.ReadFd? || e.WriteFd? || e.Vidmap?
    ensures Enabled(m.stacks, m.turn, MoveOf(m, e))
    ensures (After1(m, e).stacks, After1(m, e).turn) == Moves(m.stacks, m.turn, MoveOf(m, e))
  {
    hide Exec, Terminate, Timer, Keyed, PutText, FirstClosed, Decode, Update, Fresh;
    SameTop(m.stacks, m.turn);
    SameMove(m, Step(m, e).0, Served(m, e));
  }

  /** Every step is one of the six moves. */
  lemma {:induction false} StepMoves(m: State, e: Event)
    requires Ok(m) && Allowed(m, e)
    ensures Enabled(m.stacks, m.turn, MoveOf(m, e))
    ensures (After1(m, e).stacks, After1(m, e).turn) == Moves(m.stacks, m.turn, MoveOf(m, e))
  {
    match e
    case Execute(file, magic, at) => ExecMoves(m, file, magic, at);
    case Halt(status) => TerminateMoves(m, status);
    case Fault(message) => TerminateMoves(Print(m, message), 256);
    case Tick(at) => TimerMoves(m, at);
    case Key(scancode, at) => KeyMoves(m, scancode, at);
    case _ => FileMoves(m, e);
  }
}
