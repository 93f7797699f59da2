/** Every step keeps the machine well formed: slots stay distinct, parents wait, exactly one process
    runs, no launch runs out of slots, and descriptors never outlive their process.
 */
module MachineInvariant {
  import opened Console
  import opened Keyboard
  import opened Machine
  import opened Wrappers

  /** Replacing the top of a stack by a process in the same slot. */
  lemma {:induction false} TopOk(stacks: Stacks, turn: nat, turn': nat, t: nat, task: Task)
    requires StacksOk(stacks, turn) && t < NUM_TERMINALS && stacks[t] != []
    requires TaskOk(task) && task.pid == Top(stacks[t]).pid
    requires forall u :: 0 <= u < NUM_TERMINALS && u != t && stacks[u] != [] ==> (u == turn <==> u == turn')
    requires if t == turn' then task.status.Running? else task.status.Preempted?
    ensures StacksOk(stacks[t := WithTop(stacks[t], task)], turn')
  {
    var r: Stacks := stacks[t := WithTop(stacks[t], task)];
    assert forall u, i :: 0 <= u < |r| && 0 <= i < |r[u]| ==> r[u][i].pid == stacks[u][i].pid;
  }

  /** The running process waits for a new one in a free slot. */
  lemma {:induction false} PushOk(stacks: Stacks, turn: nat, pid: nat, at: Context)
    requires StacksOk(stacks, turn) && turn < NUM_TERMINALS && stacks[turn] != []
    requires 1 <= pid <= MAX_PROCESSES && Free(stacks, pid)
    ensures var parent := Top(stacks[turn]).(status := Waiting(at));
      StacksOk(stacks[turn := WithTop(stacks[turn], parent) + [NewTask(pid)]], turn)
  {
    var r: Stacks := stacks[turn := WithTop(stacks[turn], Top(stacks[turn]).(status := Waiting(at))) + [NewTask(pid)]];
    var k := |stacks[turn]|;
    assert r[turn][k] == NewTask(pid);
    assert forall u, i :: 0 <= u < |r| && 0 <= i < |r[u]| && !(u == turn && i == k) ==>
      i < |stacks[u]| && r[u][i].pid == stacks[u][i].pid;
  }

  lemma {:induction false} PopOk(stacks: Stacks, turn: nat)
    requires StacksOk(stacks, turn) && turn < NUM_TERMINALS && |stacks[turn]| >= 2
    ensures var st := stacks[turn];
            StacksOk(stacks[turn := st[..|st| - 2] + [st[|st| - 2].(status := Running)]], turn)
  {
    var st := stacks[turn];
    var r: Stacks := stacks[turn := st[..|st| - 2] + [st[|st| - 2].(status := Running)]];
    assert forall u, i :: 0 <= u < |r| && 0 <= i < |r[u]| ==> i < |stacks[u]| && r[u][i].pid == stacks[u][i].pid;
  }

  lemma {:induction false} EmptyOk(stacks: Stacks, turn: nat)
    requires StacksOk(stacks, turn) && turn < NUM_TERMINALS
    ensures StacksOk(stacks[turn := []], turn)
  {
    var r: Stacks := stacks[turn := []];
    assert forall u, i :: 0 <= u < |r| && 0 <= i < |r[u]| ==> r[u][i] == stacks[u][i];
  }

  /** A new base shell on an empty terminal. */
  lemma {:induction false} LaunchOk(stacks: Stacks, t: nat, pid: nat)
    requires StacksOk(stacks, t) && t < NUM_TERMINALS && stacks[t] == []
    requires 1 <= pid <= MAX_PROCESSES && Free(stacks, pid)
    ensures StacksOk(stacks[t := [NewTask(pid)]], t)
  {
  }

  /** A halted base shell frees a slot, so its successor always finds one. */
  lemma {:induction false} RelaunchFindsSlot(stacks: Stacks, turn: nat)
    requires StacksOk(stacks, turn) && turn < NUM_TERMINALS && |stacks[turn]| == 1
    ensures 1 <= Fresh(stacks[turn := []]) <= MAX_PROCESSES
  {
    assert Free(stacks[turn := []], stacks[turn][0].pid);
  }

  // ----- open directories -----

  lemma {:induction false} DirOpenAt(stacks: Stacks, t: nat, i: nat)
    requires t < |stacks| && i < |stacks[t]| && Opened(Dir) in stacks[t][i].files
    ensures DirOpen(stacks)
  {
  }

  /** `r` has all descriptors of `stacks` except those of the process at (t, i). */
  ghost predicate KeepsFiles(stacks: Stacks, r: Stacks, t: nat, i: nat) {
    |r| == |stacks| && forall u, j :: 0 <= u < |stacks| && 0 <= j < |stacks[u]| && !(u == t && j == i) ==>
      j < |r[u]| && r[u][j].files == stacks[u][j].files
  }

  lemma {:induction false} DirOpenKept(stacks: Stacks, r: Stacks, t: nat, i: nat)
    requires DirOpen(stacks) && t < |stacks| && i < |stacks[t]| && KeepsFiles(stacks, r, t, i)
    requires Opened(Dir) !in stacks[t][i].files
    ensures DirOpen(r)
  {
    var u, j :| 0 <= u < |stacks| && 0 <= j < |stacks[u]| && Opened(Dir) in stacks[u][j].files;
    DirOpenAt(r, u, j);
  }

  // ----- steps -----

  lemma {:induction false} WithCurrentOk(m: State, task: Task, cursor: nat)
    requires Ok(m) && TaskOk(task) && task.pid == Current(m).pid && task.status.Running?
    requires Opened(Dir) in Current(m).files && Opened(Dir) !in task.files ==> cursor == 0
    requires cursor != 0 ==> m.cursor != 0 || Opened(Dir) in task.files
    ensures Ok(WithCurrent(m, task).(cursor := cursor))
  {
    var r, k := WithCurrent(m, task).stacks, |m.stacks[m.turn]| - 1;
    TopOk(m.stacks, m.turn, m.turn, m.turn, task);
    if Opened(Dir) in task.files {
      DirOpenAt(r, m.turn, k);
    } else if cursor != 0 {
      DirOpenKept(m.stacks, r, m.turn, k);
    }
  }

  lemma {:induction false} TerminateOk(m: State, value: int)
    requires Ok(m)
    ensures var (m', r) := Terminate(m, value);
      && Ok(m')
      && (|m.stacks[m.turn]| == 1 ==> r.Enter? && 1 <= r.pid <= MAX_PROCESSES)
  {
    hide Fresh;
    if |m.stacks[m.turn]| == 1 {
      RelaunchOk(m);
    } else {
      PopOk(m.stacks, m.turn);
      CursorKept(m, Terminate(m, value).0.stacks, |m.stacks[m.turn]| - 1);
    }
  }

  /** The cursor stays at 0 or backed by a directory when the running process is gone. */
  lemma {:induction false} CursorKept(m: State, r: Stacks, k: nat)
    requires Ok(m) && k == |m.stacks[m.turn]| - 1 && KeepsFiles(m.stacks, r, m.turn, k)
    ensures CursorAfter(m.cursor, Current(m).files) != 0 ==> DirOpen(r)
  {
    if CursorAfter(m.cursor, Current(m).files) != 0 {
      DirOpenKept(m.stacks, r, m.turn, k);
    }
  }

  lemma {:induction false} RelaunchOk(m: State)
    requires Ok(m) && |m.stacks[m.turn]| == 1
    ensures var pid := Fresh(m.stacks[m.turn := []]);
      && 1 <= pid <= MAX_PROCESSES
      && var m1 := m.(cursor := CursorAfter(m.cursor, Current(m).files));
      && Ok(Launched(Print(m1, RESTARTING), m.turn, pid))
  {
    hide Fresh, PutText;
    var empty: Stacks := m.stacks[m.turn := []];
    var pid := Fresh(empty);
    RelaunchFindsSlot(m.stacks, m.turn);
    EmptyOk(m.stacks, m.turn);
    FreshFree(empty);
    LaunchOk(empty, m.turn, pid);
    var r: Stacks := m.stacks[m.turn := [NewTask(pid)]];
    assert empty[m.turn := [NewTask(pid)]] == r;
    CursorKept(m, r, 0);
  }

  lemma {:induction false} FreshFree(stacks: Stacks)
    ensures Fresh(stacks) == 0 || Free(stacks, Fresh(stacks))
  {
  }

  lemma {:induction false} ProbedOk(m: State, kind: FileKind)
    requires Ok(m)
    ensures Ok(Probed(m, kind))
  {
    if kind.Rtc? {
      WithCurrentOk(m, Current(m).(rate := 0), m.cursor);
    }
  }

  lemma {:induction false} PushedOk(m: State, pid: nat, at: Context)
    requires Ok(m) && 1 <= pid <= MAX_PROCESSES && Free(m.stacks, pid)
    ensures Ok(Pushed(m, pid, at))
  {
    PushOk(m.stacks, m.turn, pid, at);
    if m.cursor != 0 {
      DirOpenGrown(m.stacks, Pushed(m, pid, at).stacks);
    }
  }

  lemma {:induction false} ExecOk(m: State, file: Option<FileKind>, magic: bool, at: Context)
    requires Ok(m)
    ensures Ok(Exec(m, file, magic, at).0)
  {
    if file.Some? {
      var m1 := Probed(m, file.value);
      ProbedOk(m, file.value);
      if Fresh(m1.stacks) != 0 {
        PushedOk(m1, Fresh(m1.stacks), at);
      }
    }
  }

  /** `r` has every process of `stacks` in its place, with the same descriptors. */
  ghost predicate Grown(stacks: Stacks, r: Stacks) {
    && |r| == |stacks|
    && forall u, j :: 0 <= u < |stacks| && 0 <= j < |stacks[u]| ==>
         j < |r[u]| && r[u][j].files == stacks[u][j].files
  }

  lemma {:induction false} DirOpenGrown(stacks: Stacks, r: Stacks)
    requires DirOpen(stacks) && Grown(stacks, r)
    ensures DirOpen(r)
  {
    var u, j :| 0 <= u < |stacks| && 0 <= j < |stacks[u]| && Opened(Dir) in stacks[u][j].files;
    DirOpenAt(r, u, j);
  }

  lemma {:induction false} PassOk(stacks: Stacks, turn: nat, n: nat, at: Context)
    requires StacksOk(stacks, turn) && turn < NUM_TERMINALS && stacks[turn] != []
    requires n < NUM_TERMINALS && stacks[n] != [] && n != turn
    ensures var s1 := stacks[turn := WithTop(stacks[turn], Top(stacks[turn]).(status := Preempted(at)))];
            var s2 := s1[n := WithTop(stacks[n], Top(stacks[n]).(status := Running))];
            StacksOk(s2, n) && Grown(stacks, s2)
  {
    var s1 := stacks[turn := WithTop(stacks[turn], Top(stacks[turn]).(status := Preempted(at)))];
    NoTurnOk(stacks, turn, at);
    TopOk(s1, NUM_TERMINALS, n, n, Top(s1[n]).(status := Running));
  }

  lemma {:induction false} HandoverOk(m: State, n: nat, at: Context)
    requires Ok(m) && n < NUM_TERMINALS && m.stacks[n] != [] && n != m.turn
    ensures Ok(Handover(m, n, at))
  {
    PassOk(m.stacks, m.turn, n, at);
    if m.cursor != 0 {
      DirOpenGrown(m.stacks, Handover(m, n, at).stacks);
    }
  }

  /** With the running process preempted, no terminal has the turn. */
  lemma {:induction false} NoTurnOk(stacks: Stacks, turn: nat, at: Context)
    requires StacksOk(stacks, turn) && turn < NUM_TERMINALS && stacks[turn] != []
    ensures StacksOk(stacks[turn := WithTop(stacks[turn], Top(stacks[turn]).(status := Preempted(at)))], NUM_TERMINALS)
  {
    TopOk(stacks, turn, NUM_TERMINALS, turn, Top(stacks[turn]).(status := Preempted(at)));
  }

  lemma {:induction false} TimerOk(m: State, at: Context)
    requires Ok(m)
    ensures Ok(Timer(m, at).0)
  {
    if m.kill[m.turn] {
      TerminateOk(Reprompt(m.(kill := m.kill[m.turn := false])), 256);
    } else if Next(m.stacks, m.turn) != m.turn {
      HandoverOk(m, Next(m.stacks, m.turn), at);
    }
  }

  lemma {:induction false} StartOk(stacks: Stacks, turn: nat, t: nat, pid: nat, at: Context)
    requires StacksOk(stacks, turn) && turn < NUM_TERMINALS && stacks[turn] != []
    requires t < NUM_TERMINALS && t != turn && stacks[t] == []
    requires 1 <= pid <= MAX_PROCESSES && Free(stacks, pid)
    ensures var s1 := stacks[turn := WithTop(stacks[turn], Top(stacks[turn]).(status := Preempted(at)))];
            StacksOk(s1[t := [NewTask(pid)]], t) && Grown(stacks, s1[t := [NewTask(pid)]])
  {
    var s1: Stacks := stacks[turn := WithTop(stacks[turn], Top(stacks[turn]).(status := Preempted(at)))];
    TopOk(stacks, turn, t, turn, Top(stacks[turn]).(status := Preempted(at)));
    assert forall u, i :: 0 <= u < |s1| && 0 <= i < |s1[u]| ==> s1[u][i].pid == stacks[u][i].pid;
    LaunchOk(s1, t, pid);
  }

  lemma {:induction false} StartedOk(m: State, t: nat, at: Context)
    requires Ok(m) && t < NUM_TERMINALS && t != m.turn && m.stacks[t] == [] && Fresh(m.stacks) != 0
    ensures Ok(Started(m, t, Fresh(m.stacks), at))
  {
    StartOk(m.stacks, m.turn, t, Fresh(m.stacks), at);
    if m.cursor != 0 {
      DirOpenGrown(m.stacks, Started(m, t, Fresh(m.stacks), at).stacks);
    }
  }

  lemma {:induction false} SwitchOk(m: State, t: nat, at: Context)
    requires Ok(m) && t < NUM_TERMINALS
    ensures Ok(Switch(m, t, at).0)
  {
    if t != m.shown && m.stacks[t] == [] && Fresh(m.stacks) != 0 {
      StartedOk(m, t, at);
    }
  }

  lemma {:induction false} KeyedOk(m: State, scancode: nat, at: Context)
    requires Ok(m) && Allowed(m, Key(scancode, at))
    ensures Ok(Keyed(m, scancode, at).0)
  {
    var m1 := m.(mods := Update(m.mods, scancode));
    var a := Decode(m1.mods, scancode);
    if a.SwitchTo? {
      SwitchOk(m1, a.terminal, at);
    } else {
      var m2 := Edited(m1, a).(target := m.turn);
      assert Ok(m2);
      if a.Interrupt? && m.turn == m.shown {
        TerminateOk(m2, 256);
      }
    }
  }

  lemma {:induction false} CloseOk(m: State, fd: int)
    requires Ok(m)
    ensures Ok(CloseFd(m, fd).0)
  {
    var task := Current(m);
    if 2 <= fd < MAX_FD && task.files[fd] != Closed {
      var closed := task.(files := task.files[fd := Closed]);
      DirStays(task.files, fd);
      if task.files[fd] == Opened(Rtc) {
        WithCurrentOk(m, closed.(rate := 0), m.cursor);
      } else {
        RtcStays(task, fd);
        WithCurrentOk(m, closed, if task.files[fd] == Opened(Dir) then 0 else m.cursor);
      }
    }
  }

  lemma {:induction false} DirStays(files: seq<Handle>, fd: nat)
    requires fd < |files|
    ensures files[fd] != Opened(Dir) && Opened(Dir) in files ==> Opened(Dir) in files[fd := Closed]
  {
    if files[fd] != Opened(Dir) && Opened(Dir) in files {
      var f :| 0 <= f < |files| && files[f] == Opened(Dir);
      assert files[fd := Closed][f] == Opened(Dir);
    }
  }

  lemma {:induction false} RtcStays(task: Task, fd: nat)
    requires TaskOk(task) && 2 <= fd < MAX_FD && task.files[fd] != Opened(Rtc)
    ensures TaskOk(task.(files := task.files[fd := Closed]))
  {
    if task.rate != 0 {
      var f :| 0 <= f < |task.files| && task.files[f] == Opened(Rtc);
      assert task.files[fd := Closed][f] == Opened(Rtc);
    }
  }

  lemma {:induction false} OpenOk(m: State, file: Option<FileKind>)
    requires Ok(m)
    ensures Ok(OpenFile(m, file).0)
  {
    var task := Current(m);
    var fd := FirstClosed(task.files, 0);
    if file.Some? && fd != -1 {
      var files := task.files[fd := Opened(file.value)];
      if task.rate != 0 {
        var f :| 0 <= f < |task.files| && task.files[f] == Opened(Rtc);
        assert files[f] == Opened(Rtc);
      }
      if Opened(Dir) in task.files {
        var f :| 0 <= f < |task.files| && task.files[f] == Opened(Dir);
        assert files[f] == Opened(Dir);
      }
      WithCurrentOk(m, task.(files := files), m.cursor);
    }
  }

  lemma {:induction false} CursorOk(m: State, fd: int)
    requires Ok(m)
    ensures Ok(MoveCursor(m, fd))
  {
    if Holds(m, fd, Opened(Dir)) {
      DirOpenAt(m.stacks, m.turn, |m.stacks[m.turn]| - 1);
    }
  }

  /** Every step from a well-formed state leads to a well-formed state. */
  lemma {:induction false} StepOk(m: State, e: Event)
    requires Ok(m) && Allowed(m, e)
    ensures Ok(Step(m, e).0)
  {
    hide Exec, Terminate, Timer, Keyed, PutText, FirstClosed;
    match e
    case Execute(file, magic, at) => ExecOk(m, file, magic, at);
    case Halt(status) => TerminateOk(m, status);
    case Fault(message) => TerminateOk(Print(m, message), 256);
    case Tick(at) => TimerOk(m, at);
    case Key(scancode, at) => KeyedOk(m, scancode, at);
    case Write(_) =>
    case Read(_) =>
    case Open(file) => OpenOk(m, file);
    case Close(fd) => CloseOk(m, fd);
    case ReadFd(fd, _) => CursorOk(m, fd);
    case WriteFd(fd, rate, _) =>
      if SetsRate(m, fd, rate) {
        WithCurrentOk(m, Current(m).(rate := rate.value), m.cursor);
      }
    case Vidmap(_) => WithCurrentOk(m, Current(m).(vidmap := true), m.cursor);
  }
}
