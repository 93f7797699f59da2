/** The kernel of syscalls.c and terminal.c over its tables: every entry point is one step of
    `Machine`, whatever the tables held before.

    Each entry point is one step: the handlers, execute, halt and the shell launch run with interrupts
    off, and the other calls are treated alike.  Where the C code leaves by loading a saved stack
    pointer, the method returns the context it would load.
 */
module Kernel {
  import opened Bytes
  import opened Console
  import Directory
  import FileSystem
  import opened Keyboard
  import KeyboardLaws
  import opened Machine
  import MachineCalls
  import opened MachineInvariant
  import MachineLaws
  import opened ProcessTable
  import opened TableSteps
  import MachineRuns
  import Paging
  import opened Wrappers

  const PROCESS_KERNEL_STACK_ADDR := 0x7ffffc
  const STACK_SIZE := 0x2000

  /** The kernel stack that the processor loads when user code of slot `pid` is interrupted. */
  function KernelStack(pid: nat): int {
    PROCESS_KERNEL_STACK_ADDR - STACK_SIZE * (pid - 1)
  }

  /** The kernel stacks of two processes do not overlap and stay in the kernel's page. */
  lemma {:induction false} StacksDisjoint(p: nat, q: nat)
    requires 1 <= p < q <= MAX_PROCESSES
    ensures KernelStack(q) <= KernelStack(p) - STACK_SIZE
    ensures 0x400000 <= KernelStack(q) - STACK_SIZE && KernelStack(p) < 0x800000
  {
  }

  const NO_STACKS: Stacks := [[], [], []]

  /** The machine after boot: one shell, on terminal 0. */
  function BootState(lines: seq<Line>, screens: seq<Screen>, names: seq<seq<byte>>): State {
    var released := Modifiers(false, false, false, false);
    State([[NewTask(1)], [], []], 0, 0, 0, [false, false, false], 0, released, lines, screens, names)
  }

  lemma {:induction false} BootOk(lines: seq<Line>, screens: seq<Screen>, names: seq<seq<byte>>)
    requires |lines| == NUM_TERMINALS && |screens| == NUM_TERMINALS
    requires forall t :: 0 <= t < NUM_TERMINALS ==> ValidLine(lines[t]) && OnScreen(screens[t])
    ensures Ok(BootState(lines, screens, names))
  {
  }

  lemma {:induction false} OriginOfCleared(s: Screen, attr: nat)
    ensures Moved(Cleared(s, attr), 0, 0) == Screen(Blanks(CELLS, attr), 0, 0)
  {
  }

  lemma {:induction false} Basics(m: State)
    requires Ok(m)
    ensures m.turn < NUM_TERMINALS && m.shown < NUM_TERMINALS && m.target < NUM_TERMINALS
    ensures |m.stacks| == |m.kill| == |m.lines| == |m.screens| == NUM_TERMINALS
    ensures m.stacks[m.turn] != [] && m.stacks[m.shown] != [] && m.stacks[0] != []
    ensures forall t :: 0 <= t < NUM_TERMINALS ==> ValidLine(m.lines[t]) && OnScreen(m.screens[t])
  {
  }

  /** Screens are not part of what makes a state well formed, beyond their size. */
  lemma {:induction false} OnTargetOk(m: State, s: Screen)
    requires Ok(m) && OnScreen(s)
    ensures Ok(OnTarget(m, s))
  {
  }

  lemma {:induction false} WithSame(m: State)
    requires m.turn < |m.stacks| && m.stacks[m.turn] != []
    ensures WithCurrent(m, Current(m)) == m
  {
    assert WithTop(m.stacks[m.turn], Current(m)) == m.stacks[m.turn];
  }

  /** From `start`, the running process has closed the descriptors below `i`. */
  ghost predicate Closing(start: State, m: State, i: nat) {
    && start.turn < |start.stacks| && start.stacks[start.turn] != [] && |Current(start).files| == MAX_FD
    && m.turn < |m.stacks| && m.stacks[m.turn] != [] && |Current(m).files| == MAX_FD && i <= MAX_FD
    && m == WithCurrent(start, Current(m)).(cursor := CursorAfter(start.cursor, Current(start).files[..i]))
    && (forall f :: 0 <= f < i && f >= 2 ==> Current(m).files[f] == Closed)
    && (forall f :: i <= f < MAX_FD ==> Current(m).files[f] == Current(start).files[f])
    && Current(start).files[0] == Stdin && Current(start).files[1] == Stdout
    && Current(m).pid == Current(start).pid && Current(m).status == Current(start).status
    && Current(m).vidmap == Current(start).vidmap
  }

  lemma {:induction false} ClosingStarts(m: State)
    requires Ok(m)
    ensures Closing(m, m, 0)
  {
    WithSame(m);
    assert TaskOk(Current(m));
  }

  /** What one close leaves of the running process and of the rest. */
  lemma {:induction false} CloseOne(m: State, fd: nat)
    requires Ok(m) && fd < MAX_FD
    ensures var task, m' := Current(m), CloseFd(m, fd).0;
      && m'.turn < |m'.stacks| && m'.stacks[m'.turn] != []
      && m' == WithCurrent(m, Current(m')).(cursor := if task.files[fd] == Opened(Dir) then 0 else m.cursor)
      && Current(m').pid == task.pid && Current(m').status == task.status && Current(m').vidmap == task.vidmap
      && |Current(m').files| == |task.files| && (fd >= 2 ==> Current(m').files[fd] == Closed)
      && (forall f :: 0 <= f < MAX_FD && f != fd ==> Current(m').files[f] == task.files[f])
  {
    assert TaskOk(Current(m));
    Basics(m);
    WithSame(m);
    WithReads(m);
    hide Ok, WithCurrent;
  }

  lemma {:induction false} WithReads(m: State)
    requires m.turn < |m.stacks| && m.stacks[m.turn] != []
    ensures forall task :: var m' := WithCurrent(m, task);
      m'.turn == m.turn < |m'.stacks| && m'.stacks[m'.turn] != [] && Current(m') == task && m'.cursor == m.cursor
  {
  }

  /** Replacing the running process twice is replacing it once. */
  lemma {:induction false} WithBoth(m: State, first: Task, second: Task, cursor: nat)
    requires m.turn < |m.stacks| && m.stacks[m.turn] != []
    ensures var m1 := WithCurrent(m, first).(cursor := cursor);
      m1.turn < |m1.stacks| && m1.stacks[m1.turn] != [] && forall c: nat ::
        WithCurrent(m1, second).(cursor := c) == WithCurrent(m, second).(cursor := c)
  {
    var m1 := WithCurrent(m, first).(cursor := cursor);
    assert WithTop(m1.stacks[m.turn], second) == WithTop(m.stacks[m.turn], second);
    assert WithCurrent(m1, second).stacks == WithCurrent(m, second).stacks;
  }

  lemma {:induction false} ClosingStep(start: State, m: State, i: nat)
    requires Ok(m) && Closing(start, m, i) && i < MAX_FD
    ensures Closing(start, CloseFd(m, i).0, i + 1)
  {
    var was, m' := Current(start), CloseFd(m, i).0;
    assert TaskOk(Current(m));
    CloseOne(m, i);
    hide Ok, CloseFd, WithCurrent;
    WithBoth(start, Current(m), Current(m'), m.cursor);
    assert was.files[..i + 1] == was.files[..i] + [was.files[i]];
  }

  lemma {:induction false} ClosingDone(start: State, m: State)
    requires Ok(m) && Closing(start, m, MAX_FD)
    ensures AllClosed(Current(m)) && Current(m).pid == Current(start).pid && Current(m).vidmap == Current(start).vidmap
    ensures m == WithCurrent(start, Current(m)).(cursor := CursorAfter(start.cursor, Current(start).files))
  {
    assert TaskOk(Current(m));
    assert Opened(Rtc) !in Current(m).files;
    assert Current(start).files[..MAX_FD] == Current(start).files;
  }

  /** Closing the descriptors first does not change how a process ends. */
  lemma {:induction false} TerminateClosed(start: State, m: State, value: int)
    requires Ok(start) && Ok(m) && Closing(start, m, MAX_FD)
    ensures Terminate(m, value) == Terminate(start, value)
  {
    ClosingDone(start, m);
    var st, st' := start.stacks[start.turn], m.stacks[m.turn];
    assert st' == WithTop(st, Current(m)) && |st'| == |st|;
    assert start.stacks[start.turn := []] == m.stacks[m.turn := []];
    assert Opened(Dir) !in Current(m).files;
    if |st| == 1 {
      var pid := Fresh(start.stacks[start.turn := []]);
      assert start.stacks[start.turn := [NewTask(pid)]] == m.stacks[m.turn := [NewTask(pid)]];
    } else {
      assert st'[..|st| - 2] == st[..|st| - 2] && st'[|st| - 2] == st[|st| - 2];
      assert start.stacks[start.turn := Popped(st)] == m.stacks[m.turn := Popped(st)];
    }
  }

  /** The end of a process, seen from a state in which it has closed its descriptors. */
  lemma {:induction false} TerminateIs(m: State, value: int)
    requires Ok(m) && AllClosed(Current(m))
    ensures Ok(Terminate(m, value).0)
    ensures |m.stacks[m.turn]| == 1 ==>
      && var pid := Fresh(m.stacks[m.turn := []]);
      && 1 <= pid <= MAX_PROCESSES
      && Terminate(m, value) == (Launched(Print(m, RESTARTING), m.turn, pid), Enter(pid))
    ensures |m.stacks[m.turn]| >= 2 ==>
      && var par := m.stacks[m.turn][|m.stacks[m.turn]| - 2];
      && par.status.Waiting?
      && Terminate(m, value) ==
           (m.(stacks := m.stacks[m.turn := Popped(m.stacks[m.turn])]), Resume(par.pid, par.status.at, value))
  {
    TerminateOk(m, value);
    assert TaskOk(Current(m));
    assert Opened(Dir) !in Current(m).files;
    if |m.stacks[m.turn]| >= 2 {
      assert StatusOk(m.stacks, m.turn, m.turn, |m.stacks[m.turn]| - 2);
    }
  }

  /** A restarted shell does not see the exit value. */
  lemma {:induction false} RestartValue(m: State, value: int)
    requires Ok(m) && |m.stacks[m.turn]| == 1
    ensures Terminate(m, value) == Terminate(m, 0)
  {
  }

  /** Every process of `b` is one of `a`, on the same terminal and with the same use of vidmap. */
  ghost predicate FromStacks(a: Stacks, b: Stacks) {
    |b| == |a| && forall t, i :: 0 <= t < |b| && 0 <= i < |b[t]| ==>
      i < |a[t]| && b[t][i].pid == a[t][i].pid && b[t][i].vidmap == a[t][i].vidmap
  }

  lemma {:induction false} ClosingFrom(start: State, m: State)
    requires Closing(start, m, MAX_FD)
    ensures FromStacks(start.stacks, m.stacks)
  {
    assert m.stacks == start.stacks[start.turn := WithTop(start.stacks[start.turn], Current(m))];
  }

  lemma {:induction false} PoppedFrom(stacks: Stacks, turn: nat)
    requires turn < |stacks| && |stacks[turn]| >= 2
    ensures FromStacks(stacks, stacks[turn := Popped(stacks[turn])])
  {
  }

  lemma {:induction false} EmptiedFrom(stacks: Stacks, turn: nat)
    requires turn < |stacks|
    ensures FromStacks(stacks, stacks[turn := []])
  {
  }

  /** Opening, reading and closing the command file leaves the descriptors as they were. */
  lemma {:induction false} ProbeRoundTrip(m: State, kind: FileKind, m1: State, m2: State)
    requires Ok(m) && Ok(m1) && Ok(m2) && FirstClosed(Current(m).files, 0) != -1
    requires m1 == OpenFile(m, Some(kind)).0
    requires m2 == MoveCursor(m1, FirstClosed(Current(m).files, 0))
    ensures CloseFd(m2, FirstClosed(Current(m).files, 0)) == (Probed(m, kind), 0)
  {
    var fd, task := FirstClosed(Current(m).files, 0), Current(m);
    assert TaskOk(task);
    Basics(m);
    hide Ok;
    ReplacedTop(m, task.(files := task.files[fd := Opened(kind)]));
    CloseAgain(m, m2, fd, kind);
  }

  lemma {:induction false} NotStandard(m: State)
    requires Ok(m)
    ensures FirstClosed(Current(m).files, 0) == -1 || FirstClosed(Current(m).files, 0) >= 2
  {
    assert TaskOk(Current(m));
  }

  lemma {:induction false} CloseAgain(m: State, m2: State, fd: nat, kind: FileKind)
    requires m.turn < |m.stacks| && m.stacks[m.turn] != []
    requires |Current(m).files| == MAX_FD && 2 <= fd < MAX_FD && Current(m).files[fd] == Closed
    requires Ok(m2)
    requires m2 == WithCurrent(m, Current(m).(files := Current(m).files[fd := Opened(kind)])).(cursor := m2.cursor)
    requires m2.cursor == m.cursor || kind.Dir?
    ensures CloseFd(m2, fd) == (Probed(m, kind), 0)
  {
    hide Ok;
    var task := Current(m);
    var grown := task.(files := task.files[fd := Opened(kind)]);
    ReplacedTop(m, grown);
    WithSame(m);
    var m1 := WithCurrent(m, grown);
    assert grown.files[fd := Closed] == task.files;
    assert WithCurrent(m1, task) == m && WithCurrent(m1, task.(rate := 0)) == WithCurrent(m, task.(rate := 0));
    assert WithCurrent(m2, task) == WithCurrent(m1, task).(cursor := m2.cursor);
    assert WithCurrent(m2, task.(rate := 0)) == WithCurrent(m1, task.(rate := 0)).(cursor := m2.cursor);
    assert grown.(files := grown.files[fd := Closed]) == task;
    assert Current(m2) == grown;
  }

  lemma {:induction false} ReplacedTop(m: State, task: Task)
    requires m.turn < |m.stacks| && m.stacks[m.turn] != []
    ensures var m' := WithCurrent(m, task);
      && m'.turn < |m'.stacks| && m'.stacks[m'.turn] != [] && Current(m') == task
      && forall other {:trigger WithCurrent(m', other)} :: WithCurrent(m', other) == WithCurrent(m, other)
  {
    var m', st := WithCurrent(m, task), m.stacks[m.turn];
    forall other {:trigger WithCurrent(m', other)}
      ensures WithCurrent(m', other) == WithCurrent(m, other)
    {
      assert WithTop(WithTop(st, task), other) == WithTop(st, other);
      assert m'.stacks[m.turn := WithTop(st, other)] == m.stacks[m.turn := WithTop(st, other)];
    }
  }

  lemma {:induction false} ProbedFrom(m: State, kind: FileKind)
    requires Ok(m)
    ensures var m' := Probed(m, kind);
      && FromStacks(m.stacks, m'.stacks) && Current(m').pid == Current(m).pid
      && m' == m.(stacks := m'.stacks, cursor := m'.cursor)
  {
  }

  lemma {:induction false} FreshIsFree(stacks: Stacks)
    ensures Fresh(stacks) == 0 || (1 <= Fresh(stacks) <= MAX_PROCESSES && Free(stacks, Fresh(stacks)))
  {
  }

  lemma {:induction false} UnkillOk(m: State)
    requires Ok(m)
    ensures Ok(m.(kill := m.kill[m.turn := false]))
  {
  }

  /** The search loop of task_switch stops at the next terminal with a process. */
  lemma {:induction false} SearchIsNext(stacks: Stacks, turn: nat, i: nat)
    requires |stacks| == NUM_TERMINALS && turn < NUM_TERMINALS && stacks[turn] != [] && turn < i <= turn + 3
    requires forall j :: turn < j < i ==> stacks[j % 3] == []
    requires stacks[i % 3] != []
    ensures i % 3 == Next(stacks, turn)
  {
    assert (turn + 3) % 3 == turn;
  }

  lemma {:induction false} HandoverFrom(m: State, n: nat, at: Context)
    requires Ok(m) && n < NUM_TERMINALS && m.stacks[n] != [] && n != m.turn
    ensures var m' := Handover(m, n, at);
      && FromStacks(m.stacks, m'.stacks)
      && m' == m.(stacks := m'.stacks, turn := n, target := n) && n < |m'.stacks| && m'.stacks[n] != []
      && Current(m') == Top(m.stacks[n]).(status := Running) && Ok(m')
  {
    HandoverOk(m, n, at);
    Basics(m);
    hide Ok;
  }

  lemma {:induction false} EditedOk(m: State, a: Action)
    requires Ok(m) && (a.Erase? && m.lines[m.shown].pos > 0 ==> m.screens[m.shown].x > 0 || m.screens[m.shown].y > 0)
    ensures Ok(Edited(m, a)) && Edited(m, a).stacks == m.stacks && Edited(m, a).turn == m.turn
    ensures Edited(m, a) == m.(lines := Edited(m, a).lines, screens := Edited(m, a).screens)
  {
  }

  lemma {:induction false} AimOk(m: State, t: nat)
    requires Ok(m) && t < NUM_TERMINALS
    ensures Ok(m.(target := t))
  {
  }

  lemma {:induction false} ShownOk(m: State, t: nat)
    requires Ok(m) && t < NUM_TERMINALS && m.stacks[t] != []
    ensures Ok(m.(shown := t, target := t))
  {
  }

  lemma {:induction false} ModsOk(m: State, mods: Modifiers)
    requires Ok(m)
    ensures Ok(m.(mods := mods))
  {
  }

  /** The state when the first switch of keyboardHandler is done. */
  function EarlyKeyed(m: State, scancode: nat): State
    requires Ok(m)
    requires scancode == BACKSPACE && m.lines[m.shown].pos > 0 ==>
      m.screens[m.shown].x > 0 || m.screens[m.shown].y > 0
  {
    if scancode == BACKSPACE then Edited(m, Erase)
    else if scancode == ENTER then Edited(m, Submit)
    else m.(mods := Update(m.mods, scancode))
  }

  lemma {:induction false} EarlyKeyedOk(m: State, scancode: nat)
    requires Ok(m)
    requires scancode == BACKSPACE && m.lines[m.shown].pos > 0 ==>
      m.screens[m.shown].x > 0 || m.screens[m.shown].y > 0
    ensures Ok(EarlyKeyed(m, scancode))
    ensures EarlyKeyed(m, scancode).mods == Update(m.mods, scancode)
  {
  }

  /** The running process is stopped for the shell that starts on terminal `t`. */
  function Stopped(m: State, t: nat, at: Context): State
    requires m.turn < |m.stacks| && m.stacks[m.turn] != [] && t < NUM_TERMINALS && t < |m.screens|
  {
    WithCurrent(m, Current(m).(status := Preempted(at)))
      .(screens := m.screens[t := Cleared(m.screens[t], ATTRIBUTES[t])], shown := t, target := t)
  }

  lemma {:induction false} StoppedStacks(m: State, t: nat, at: Context)
    requires m.turn < |m.stacks| == NUM_TERMINALS && m.stacks[m.turn] != []
    requires t < NUM_TERMINALS == |m.screens| && t < |m.lines| && m.stacks[t] == []
    ensures var m1 := Stopped(m, t, at);
      && FromStacks(m.stacks, m1.stacks) && |m1.stacks| == NUM_TERMINALS && m1.stacks[t] == []
      && (forall u :: 0 <= u < NUM_TERMINALS ==> |m1.stacks[u]| == |m.stacks[u]|) && |m1.screens| == NUM_TERMINALS
      && m1 == m.(stacks := m1.stacks, screens := m1.screens, shown := t, target := t)
      && forall pid :: Started(m, t, pid, at) == Launched(m1, t, pid)
  {
  }

  lemma {:induction false} StoppedIs(m: State, t: nat, at: Context)
    requires Ok(m) && t < NUM_TERMINALS && m.stacks[t] == [] && Fresh(m.stacks) != 0
    ensures var m1 := Stopped(m, t, at);
      && FromStacks(m.stacks, m1.stacks) && |m1.stacks| == NUM_TERMINALS && m1.stacks[t] == []
      && Fresh(m1.stacks) == Fresh(m.stacks)
      && m1 == m.(stacks := m1.stacks, screens := m1.screens, shown := t, target := t)
      && |m1.screens| == NUM_TERMINALS
      && Started(m, t, Fresh(m.stacks), at) == Launched(m1, t, Fresh(m.stacks))
      && Ok(Started(m, t, Fresh(m.stacks), at))
  {
    StartedOk(m, t, at);
    Basics(m);
    hide Ok, Stopped, Started, Launched, Fresh;
    StoppedStacks(m, t, at);
    FreshSame(m.stacks, Stopped(m, t, at).stacks);
  }

  /** An edit does not depend on where output goes. */
  lemma {:induction false} EditedElsewhere(m: State, t: nat, a: Action)
    requires Ok(m) && Ok(m.(target := t))
    requires a.Erase? && m.lines[m.shown].pos > 0 ==> m.screens[m.shown].x > 0 || m.screens[m.shown].y > 0
    ensures Edited(m.(target := t), a) == Edited(m, a).(target := t)
  {
    hide Ok;
  }

  /** Neither does terminal_switch. */
  lemma {:induction false} SwitchElsewhere(m: State, u: nat, t: nat, at: Context)
    requires Ok(m) && Ok(m.(target := u)) && t < NUM_TERMINALS
    ensures Switch(m.(target := u), t, at) == Switch(m, t, at)
  {
  }

  lemma {:induction false} EarlyKeyedStacks(m: State, scancode: nat, e: State)
    requires Ok(m) && Ok(m.(target := m.shown))
    requires scancode == BACKSPACE && m.lines[m.shown].pos > 0 ==> m.screens[m.shown].x > 0 || m.screens[m.shown].y > 0
    requires e == EarlyKeyed(m.(target := m.shown), scancode)
    ensures e.stacks == m.stacks && e.turn == m.turn && e.shown == m.shown && e.target == m.shown && e.kill == m.kill
    ensures FromStacks(m.stacks, e.stacks)
  {
    hide Ok;
  }

  /** keyboardHandler when the key is a terminal switch. */
  lemma {:induction false} KeyedSwitch(m: State, scancode: nat, at: Context, e: State, t: nat)
    requires Ok(m) && Allowed(m, Key(scancode, at)) && Ok(m.(target := m.shown)) && Ok(e)
    requires e == EarlyKeyed(m.(target := m.shown), scancode)
    requires e.mods.alt && F1 <= scancode <= F3 && t == scancode - F1
    ensures Keyed(m, scancode, at) == Switch(e, t, at)
    ensures t != e.shown && e.stacks[t] == [] && Fresh(e.stacks) == 0 ==>
              Keyed(m, scancode, at) == (e.(target := m.turn), Return(0))
  {
    hide Edited, Started;
    var m1 := m.(mods := Update(m.mods, scancode));
    assert e == m1.(target := m.shown);
    ModsOk(m, Update(m.mods, scancode));
    SwitchElsewhere(m1, m.shown, t, at);
  }

  /** The edit that is left to do after the first switch of keyboardHandler. */
  function LateAction(mods: Modifiers, scancode: nat): Action {
    var a := Decode(mods, scancode);
    if a.Erase? || a.Submit? || a.SwitchTo? then Nothing else a
  }

  lemma {:induction false} NothingEdited(m: State)
    requires Ok(m)
    ensures Edited(m, Nothing) == m
  {
    assert m.lines[m.shown := m.lines[m.shown]] == m.lines && m.screens[m.shown := m.screens[m.shown]] == m.screens;
  }

  /** A full line takes no more characters. */
  lemma {:induction false} FullLine(m: State, c: char)
    requires Ok(m) && m.lines[m.shown].pos == BUFFER_SIZE - 1
    ensures Edited(m, Insert(c)) == m
  {
    assert m.lines[m.shown := m.lines[m.shown]] == m.lines && m.screens[m.shown := m.screens[m.shown]] == m.screens;
  }

  lemma {:induction false} KillOk(m: State, t: nat)
    requires Ok(m) && t < NUM_TERMINALS
    ensures Ok(m.(kill := m.kill[t := true]))
  {
  }

  /** keyboardHandler when the key is not a terminal switch. */
  lemma {:induction false} KeyedEdit(m: State, scancode: nat, at: Context, e: State)
    requires Ok(m) && Allowed(m, Key(scancode, at)) && Ok(m.(target := m.shown)) && Ok(e)
    requires e == EarlyKeyed(m.(target := m.shown), scancode)
    requires !Decode(e.mods, scancode).SwitchTo?
    ensures var m2 := Edited(e, LateAction(e.mods, scancode)).(target := m.turn);
      Ok(m2) ==>
        (Keyed(m, scancode, at) ==
         if !Decode(e.mods, scancode).Interrupt? then (m2, Return(0))
         else if m.turn == m.shown then Terminate(m2, 256)
         else (m2.(kill := m.kill[m.shown := true]), Return(0)))
  {
    hide Terminate;
    KeyedEdits(m, scancode, e);
    ModsOk(m, Update(m.mods, scancode));
  }

  lemma {:induction false} KeyedEdits(m: State, scancode: nat, e: State)
    requires Ok(m) && Allowed(m, Key(scancode, Context(0, 0))) && Ok(m.(target := m.shown)) && Ok(e)
    requires e == EarlyKeyed(m.(target := m.shown), scancode)
    requires !Decode(e.mods, scancode).SwitchTo?
    ensures e.mods == Update(m.mods, scancode) && Ok(m.(mods := e.mods))
    ensures Edited(e, LateAction(e.mods, scancode)).(target := m.turn)
         == Edited(m.(mods := e.mods), Decode(e.mods, scancode)).(target := m.turn)
  {
    EarlyKeyedOk(m.(target := m.shown), scancode);
    ModsOk(m, Update(m.mods, scancode));
    EditedElsewhere(m, m.shown, if scancode == BACKSPACE then Erase else Submit);
    var m1 := m.(mods := Update(m.mods, scancode));
    AimOk(m1, m.shown);
    if scancode != BACKSPACE && scancode != ENTER {
      assert e == m1.(target := m.shown);
      EditedElsewhere(m1, m.shown, Decode(e.mods, scancode));
    } else {
      hide Ok;
      assert e.lines[e.shown := e.lines[e.shown]] == e.lines;
      assert e.screens[e.shown := e.screens[e.shown]] == e.screens;
    }
  }

  lemma {:induction false} VidmapOk(m: State)
    requires Ok(m)
    ensures Ok(Machine.VideoMapped(m)) && Current(Machine.VideoMapped(m)).pid == Current(m).pid
    ensures Machine.VideoMapped(m) == m.(stacks := Machine.VideoMapped(m).stacks)
  {
    WithCurrentOk(m, Current(m).(vidmap := true), m.cursor);
  }

  lemma {:induction false} MappedTop(m: State)
    requires m.turn < |m.stacks| && m.stacks[m.turn] != []
    ensures var t, st := m.turn, m.stacks[m.turn];
      WithCurrent(m, Current(m).(vidmap := true)).stacks ==
        m.stacks[t := st[|st| - 1 := st[|st| - 1].(vidmap := true)]]
  {
    var st, task := m.stacks[m.turn], Current(m).(vidmap := true);
    assert WithTop(st, task) == st[|st| - 1 := task];
  }

  lemma {:induction false} LineTakenOk(m: State)
    requires Ok(m)
    ensures Ok(LineTaken(m))
  {
  }

  lemma {:induction false} OpenFrom(m: State, file: Option<FileKind>)
    requires Ok(m)
    ensures var m' := OpenFile(m, file).0; FromStacks(m.stacks, m'.stacks) && m' == m.(stacks := m'.stacks)
  {
  }

  lemma {:induction false} CurrentFrom(m: State, task: Task)
    requires m.turn < |m.stacks| && m.stacks[m.turn] != []
    requires task.pid == Current(m).pid && task.vidmap == Current(m).vidmap
    ensures FromStacks(m.stacks, WithCurrent(m, task).stacks)
  {
  }

  lemma {:induction false} CloseFrom(m: State, fd: int)
    requires Ok(m)
    ensures var m' := CloseFd(m, fd).0;
      FromStacks(m.stacks, m'.stacks) && m' == m.(stacks := m'.stacks, cursor := m'.cursor)
  {
    Basics(m);
    assert TaskOk(Current(m));
    hide Ok, FromStacks;
    WithSame(m);
    CurrentFrom(m, Current(m));
    if 2 <= fd < MAX_FD {
      var closed := Current(m).(files := Current(m).files[fd := Closed]);
      CurrentFrom(m, closed);
      CurrentFrom(m, closed.(rate := 0));
    }
  }

  lemma {:induction false} CursorFrom(m: State, fd: int)
    requires Ok(m)
    ensures MoveCursor(m, fd) == m.(cursor := MoveCursor(m, fd).cursor)
  {
  }

  lemma {:induction false} RatedFrom(m: State, fd: int, rate: Option<int>)
    requires Ok(m)
    ensures var m' := Rated(m, fd, rate); FromStacks(m.stacks, m'.stacks) && m' == m.(stacks := m'.stacks)
  {
  }

  class Kernel {
    const display: Display
    const tables: Paging.Tables
    const listing: seq<seq<byte>>  // what reads of the directory of the file system image return

    var cpid: nat
    var processes: seq<Pcb>
    var activeProcesses: seq<nat>
    var needsToBeHalted: seq<bool>
    var activeFreq: seq<nat>
    var dirsRead: nat
    var esp0: int                  // tss.esp0
    var capsActive: bool
    var ctrlActive: bool
    var shiftActive: bool
    var altActive: bool
    var terminal: seq<Line>

    /** The machine that the tables represent. */
    ghost var m: State

    // ----- representation -----

    /** The flags and lines that the table does not hold. */
    ghost predicate FlagsOk()
      reads this
    {
      && needsToBeHalted == m.kill && dirsRead == m.cursor && terminal == m.lines && listing == m.names
      && Modifiers(capsActive, ctrlActive, shiftActive, altActive) == m.mods
    }

    ghost predicate CoreOk()
      reads this
    {
      Ok(m) && Represents(processes, activeFreq, activeProcesses, cpid, m) && FlagsOk()
    }

    ghost predicate ShowOk(screens: seq<Screen>, shown: nat, target: nat)
      reads display, display.vram
    {
      && display.Valid() && display.attributes == ATTRIBUTES
      && display.Screens() == screens && display.curTerminal == shown && display.Target() == target
    }

    /** The page tables of a process that is on the stack of terminal `t`. */
    ghost predicate PageRep(task: Task, t: nat)
      reads tables.pageDir, tables.first4MB, tables.videoTables
    {
      && tables.Shape() && task.pid <= MAX_PROCESSES && tables.Built(task.pid)
      && (task.vidmap ==>
            tables.VideoMapped(task.pid, Paging.VIDEO) || tables.VideoMapped(task.pid, Paging.HiddenPage(t)))
      && (!task.vidmap ==> tables.pageDir[task.pid, Paging.VIDEO_DIR] == 0x2)
    }

    ghost predicate PagesOk(stacks: Stacks)
      reads tables.pageDir, tables.first4MB, tables.videoTables
    {
      tables.Valid() && forall t, i :: 0 <= t < |stacks| && 0 <= i < |stacks[t]| ==> PageRep(stacks[t][i], t)
    }

    /** The processor is set up for user code of the running process. */
    ghost predicate ProcessorOk()
      reads this, tables
    {
      tables.cr3 == cpid && esp0 == KernelStack(cpid)
    }

    ghost predicate Valid()
      reads this, display, display.vram, tables, tables.pageDir, tables.first4MB, tables.videoTables
    {
      CoreOk() && ShowOk(m.screens, m.shown, m.target) && PagesOk(m.stacks) && ProcessorOk()
    }

    /** The tables before the first process starts. */
    ghost predicate Reset()
      reads this, display, display.vram, tables, tables.pageDir, tables.first4MB, tables.videoTables
    {
      && TableRep(processes, activeFreq, activeProcesses, NO_STACKS) && PagesOk(NO_STACKS)
      && needsToBeHalted == [false, false, false] && dirsRead == 0
      && |terminal| == NUM_TERMINALS
      && (forall t :: 0 <= t < NUM_TERMINALS ==> ValidLine(terminal[t]) && terminal[t].pos == 0)
      && !capsActive && !ctrlActive && !shiftActive && !altActive
      && display.Valid() && display.curTerminal == 0 && display.Target() == 0
      && display.attributes[0] == ATTRIBUTES[0]
      && forall t :: 1 <= t < NUM_TERMINALS ==> display.screenX[t] == 0 && display.screenY[t] == 0
    }

    /** Zeroed tables and syscalls_init: slot 0 is the kernel. */
    constructor (firstBase: nat, videoBase: nat, img: FileSystem.Image)
      requires FileSystem.WellFormed(img)
      requires firstBase % Paging.FOUR_KB == 0 && videoBase % Paging.FOUR_KB == 0
      requires firstBase + Paging.FOUR_KB * (MAX_PROCESSES + 1) <= videoBase
      ensures Reset() && listing == Directory.Listing(img)
      ensures fresh(display) && fresh(display.vram) && fresh(tables.Repr())
    {
      display := new Display();
      tables := new Paging.Tables(firstBase, videoBase);
      listing := Directory.Listing(img);
      cpid := 0;
      var closed := seq(MAX_FD, _ => File(StdinOps, 0, false));
      var free := Pcb(closed, 0, Context(0, 0), Context(0, 0), false, false, 0, false);
      processes := [free.(running := true), free, free, free, free, free, free];
      activeProcesses := [0, 0, 0];
      needsToBeHalted := [false, false, false];
      activeFreq := [0, 0, 0, 0, 0, 0, 0];
      dirsRead := 0;
      esp0 := 0x800000;
      capsActive, ctrlActive, shiftActive, altActive := false, false, false, false;
      var line := Line(seq(BUFFER_SIZE, _ => '\0'), 0, false);
      terminal := [line, line, line];
      new;
      EmptyTable(processes, activeFreq, activeProcesses);
    }

    /** The end of the boot sequence: a cleared screen and the first shell on it. */
    method Boot()
      requires Reset()
      modifies this, display, display.vram, tables, tables.pageDir, tables.first4MB
      ensures Valid() && m == BootState(terminal, display.Screens(), listing)
      ensures m.screens[0] == Screen(Blanks(CELLS, ATTRIBUTES[0]), 0, 0)
      ensures forall t :: 1 <= t < NUM_TERMINALS ==> m.screens[t].x == 0 && m.screens[t].y == 0
      ensures forall t :: 0 <= t < NUM_TERMINALS ==> ValidLine(m.lines[t]) && m.lines[t].pos == 0
    {
      hide Ok, Represents, TableRep, PagesOk, Cleared, Moved, Fresh;
      OriginOfCleared(display.Logical(0), ATTRIBUTES[0]);
      display.Clear();
      display.SetPos(0, 0);
      EmptyFresh();
      var r := ExecuteBaseShell(0, NO_STACKS);
      m := BootState(terminal, display.Screens(), listing);
      BootValid();
    }

    lemma {:induction false} BootValid()
      requires display.Valid() && display.attributes == ATTRIBUTES && display.curTerminal == 0 && display.Target() == 0
      requires |terminal| == NUM_TERMINALS && (forall t :: 0 <= t < NUM_TERMINALS ==> ValidLine(terminal[t]))
      requires m == BootState(terminal, display.Screens(), listing)
      requires TableRep(processes, activeFreq, activeProcesses, NO_STACKS[0 := [NewTask(1)]])
      requires PagesOk(NO_STACKS[0 := [NewTask(1)]])
      requires cpid == 1 && !processes[0].active && ProcessorOk()
      requires needsToBeHalted == [false, false, false] && dirsRead == 0
      requires !capsActive && !ctrlActive && !shiftActive && !altActive
      ensures Valid()
    {
      assert NO_STACKS[0 := [NewTask(1)]] == [[NewTask(1)], [], []];
      BootOk(terminal, display.Screens(), listing);
    }

    // ----- slots -----

    /** The slot search of execute and execute_base_shell, which steps through CPID itself. */
    method FindSlot(fallback: nat) returns (found: bool)
      requires |processes| == NUM_SLOTS && processes[0].running
      modifies `cpid
      ensures found ==> 1 <= cpid < NUM_SLOTS && !processes[cpid].running
      ensures found ==> forall q :: 0 <= q < cpid ==> processes[q].running
      ensures !found ==> cpid == fallback && forall q :: 0 <= q < NUM_SLOTS ==> processes[q].running
    {
      cpid := 0;
      while processes[cpid].running
        invariant 0 <= cpid < NUM_SLOTS
        invariant forall q :: 0 <= q < cpid ==> processes[q].running
        decreases NUM_SLOTS - cpid
      {
        cpid := cpid + 1;
        if cpid > MAX_PROCESSES {
          cpid := fallback;
          return false;
        }
      }
      return true;
    }

    /** The descriptor loop of a new process: only stdin and stdout are in use. */
    method OpenStandard()
      requires cpid < |processes| && |processes[cpid].fds| == MAX_FD
      modifies `processes
      ensures |processes| == old(|processes|)
      ensures processes == old(processes)[cpid := old(processes[cpid]).(fds := processes[cpid].fds)]
      ensures FilesRep(processes[cpid].fds, FRESH_FILES)
    {
      var i := 0;
      while i < MAX_FD
        invariant 0 <= i <= MAX_FD && |processes| == old(|processes|) && |processes[cpid].fds| == MAX_FD
        invariant processes == old(processes)[cpid := old(processes[cpid]).(fds := processes[cpid].fds)]
        invariant forall f :: 0 <= f < i ==> processes[cpid].fds[f].inUse == (f < 2)
      {
        var file := processes[cpid].fds[i].(inUse := i == 0 || i == 1);
        processes := processes[cpid := processes[cpid].(fds := processes[cpid].fds[i := file])];
        i := i + 1;
      }
      var fds := processes[cpid].fds;
      fds := fds[0 := fds[0].(jumptable := StdinOps)][1 := fds[1].(jumptable := StdoutOps)];
      processes := processes[cpid := processes[cpid].(fds := fds)];
    }

    method TerminalInit(num: nat)
      requires num < NUM_TERMINALS && |terminal| == NUM_TERMINALS && display.Valid()
      modifies `terminal, display`attributes
      ensures terminal == old(terminal)[num := Emptied(old(terminal[num]))] && display.attributes == ATTRIBUTES
      ensures display.Valid() && display.Screens() == old(display.Screens())
    {
      terminal := terminal[num := terminal[num].(ready := false, pos := 0)];
      display.SetAttribute(0x05, 0);
      display.SetAttribute(0x0C, 1);
      display.SetAttribute(0x0A, 2);
    }

    /** Fills the slot found for a base shell on terminal `t`. */
    method InstallShell(t: nat, ghost stacks: Stacks)
      requires TableRep(processes, activeFreq, activeProcesses, stacks)
      requires t < NUM_TERMINALS && stacks[t] == [] && 1 <= cpid <= MAX_PROCESSES && Free(stacks, cpid)
      modifies `processes, `activeProcesses
      ensures TableRep(processes, activeFreq, activeProcesses, stacks[t := [NewTask(cpid)]])
      ensures !processes[0].active
    {
      ghost var procs := processes;
      assert FreeSlot(processes[cpid], activeFreq[cpid]);
      OpenStandard();
      processes := processes[cpid := processes[cpid].(ppid := 0, running := true, active := true)];
      processes := processes[0 := processes[0].(active := false)];
      processes := processes[cpid := processes[cpid].(terminal := t, usingVideoMem := false)];
      activeProcesses := activeProcesses[processes[cpid].terminal := cpid];
      KernelSlot(procs, activeFreq, old(activeProcesses), stacks, processes[0]);
      LaunchRep(procs[0 := processes[0]], activeFreq, old(activeProcesses), stacks, t, cpid, processes[cpid]);
      assert processes == procs[0 := processes[0]][cpid := processes[cpid]];
    }

    /** Rebuilding the directory of an unused slot does not disturb the processes. */
    method BuildDirectory(ghost stacks: Stacks)
      requires PagesOk(stacks) && 1 <= cpid <= MAX_PROCESSES && Free(stacks, cpid)
      modifies `esp0, tables`cr3, tables.pageDir, tables.first4MB
      ensures PagesOk(stacks) && ProcessorOk() && forall t :: PageRep(NewTask(cpid), t)
    {
      tables.NewPageDirectory(cpid);
      esp0 := PROCESS_KERNEL_STACK_ADDR - STACK_SIZE * (cpid - 1);
    }

    /** A base shell on the empty terminal `t` of the machine with stacks `stacks`. */
    method ExecuteBaseShell(t: nat, ghost stacks: Stacks) returns (r: int)
      requires TableRep(processes, activeFreq, activeProcesses, stacks)
      requires t < NUM_TERMINALS && stacks[t] == []
      requires |terminal| == NUM_TERMINALS && display.Valid() && PagesOk(stacks)
      modifies this`cpid, `processes, `activeProcesses, `terminal, `esp0, display`attributes
      modifies tables`cr3, tables.pageDir, tables.first4MB
      ensures terminal == old(terminal)[t := Emptied(old(terminal[t]))]
      ensures display.Valid() && display.attributes == ATTRIBUTES && display.Screens() == old(display.Screens())
      ensures r == if Fresh(stacks) == 0 then -2 else 0
      ensures r == 0 ==>
        && cpid == Fresh(stacks) && ProcessorOk()
        && TableRep(processes, activeFreq, activeProcesses, stacks[t := [NewTask(cpid)]]) && !processes[0].active
        && PagesOk(stacks[t := [NewTask(cpid)]])
    {
      hide TableRep, PagesOk, Fresh;
      TerminalInit(t);
      r := LoadShell(t, stacks);
    }

    /** The slot, the tables and the address space of a base shell. */
    method LoadShell(t: nat, ghost stacks: Stacks) returns (r: int)
      requires TableRep(processes, activeFreq, activeProcesses, stacks) && PagesOk(stacks)
      requires t < NUM_TERMINALS && stacks[t] == []
      modifies this`cpid, `processes, `activeProcesses, `esp0
      modifies tables`cr3, tables.pageDir, tables.first4MB
      ensures r == if Fresh(stacks) == 0 then -2 else 0
      ensures r == 0 ==>
        && cpid == Fresh(stacks) && ProcessorOk()
        && TableRep(processes, activeFreq, activeProcesses, stacks[t := [NewTask(cpid)]]) && !processes[0].active
        && PagesOk(stacks[t := [NewTask(cpid)]])
    {
      KernelRuns(processes, activeFreq, activeProcesses, stacks);
      hide TableRep, PagesOk, Fresh;
      var found := FindSlot(0);
      LowestIsFresh(processes, activeFreq, activeProcesses, stacks, if found then cpid else NUM_SLOTS);
      if !found {
        return -2;
      }
      FreshIsFree(stacks);
      InstallShell(t, stacks);
      BuildDirectory(stacks);
      ShellPages(stacks, t, cpid);
      return 0;
    }

    lemma {:induction false} ShellPages(stacks: Stacks, t: nat, pid: nat)
      requires PagesOk(stacks) && t < |stacks| && forall u :: PageRep(NewTask(pid), u)
      ensures PagesOk(stacks[t := [NewTask(pid)]])
    {
      var r: Stacks := stacks[t := [NewTask(pid)]];
      forall u, i | 0 <= u < |r| && 0 <= i < |r[u]| ensures PageRep(r[u][i], u) {
        if u != t {
          assert PageRep(stacks[u][i], u);
        }
      }
    }

    // ----- descriptors -----

    method Close(fd: int) returns (r: int)
      requires CoreOk()
      modifies `processes, `activeFreq, `dirsRead, `m
      ensures CoreOk() && (m, r) == CloseFd(old(m), fd)
    {
      hide Ok, Represents;
      CurrentSlot(processes, activeFreq, activeProcesses, cpid, m);
      if fd < 2 || fd >= MAX_FD || !processes[cpid].fds[fd].inUse {
        CloseRefused(processes, activeFreq, activeProcesses, cpid, m, fd);
        return -1;
      }
      CloseRep(processes, activeFreq, activeProcesses, cpid, m, fd);
      var file := processes[cpid].fds[fd];
      processes := processes[cpid := processes[cpid].(fds := processes[cpid].fds[fd := file.(inUse := false)])];
      match file.jumptable {
        case RtcOps =>
          activeFreq := activeFreq[cpid := 0];
        case FsOps =>
          if file.filetype == 1 {
            dirsRead := 0;
          }
        case _ =>
          return -1;
      }
      m := CloseFd(m, fd).0;
      return 0;
    }

    method Open(file: Option<FileKind>) returns (r: int)
      requires CoreOk()
      modifies `processes, `m
      ensures CoreOk() && (m, r) == OpenFile(old(m), file)
    {
      hide Ok, Represents;
      CurrentSlot(processes, activeFreq, activeProcesses, cpid, m);
      if file.None? {
        return -1;
      }
      var i := 0;
      while i < MAX_FD && processes[cpid].fds[i].inUse
        invariant 0 <= i <= MAX_FD
        invariant forall f :: 0 <= f < i ==> processes[cpid].fds[f].inUse
      {
        i := i + 1;
      }
      FirstUnused(processes[cpid], Current(m).files, i);
      if i == MAX_FD {
        return -1;
      }
      OpenRep(processes, activeFreq, activeProcesses, cpid, m, i, file.value);
      var filetype := TypeOf(file.value);
      var opened' := File(if filetype == 0 then RtcOps else FsOps, filetype, true);
      processes := processes[cpid := processes[cpid].(fds := processes[cpid].fds[i := opened'])];
      m := OpenFile(m, file).0;
      return i;
    }

    /** read on a descriptor other than 0.  On a directory it returns the next name and moves the cursor that
        all descriptors share; `got` is what a plain file or the RTC returns. */
    method Read(fd: int, got: int) returns (r: int, buf: seq<byte>)
      requires CoreOk() && fd != 0
      modifies `dirsRead, `m
      ensures CoreOk() && m == MoveCursor(old(m), fd) && r == ReadValue(old(m), fd, got)
      ensures Holds(old(m), fd, Opened(Dir)) ==>
        r == |buf| && buf == if old(dirsRead) < |listing| then listing[old(dirsRead)] else []
      ensures Holds(old(m), fd, Opened(Dir)) ==> dirsRead == if old(dirsRead) < |listing| then old(dirsRead) + 1
                                                             else old(dirsRead)
    {
      hide Ok, Represents;
      CurrentSlot(processes, activeFreq, activeProcesses, cpid, m);
      CursorOk(m, fd);
      SameStacks(processes, activeFreq, activeProcesses, cpid, m, MoveCursor(m, fd));
      r, buf := got, [];
      if fd < 0 || fd >= MAX_FD || !processes[cpid].fds[fd].inUse {
        r := -1;
      } else {
        var file := processes[cpid].fds[fd];
        match file.jumptable {
          case FsOps =>
            if file.filetype == 1 {
              if dirsRead >= |listing| {
                r := 0;
              } else {
                r, buf := |listing[dirsRead]|, listing[dirsRead];
                dirsRead := dirsRead + 1;
              }
            }
          case StdoutOps =>
            r := -1;
          case _ =>
        }
      }
      m := MoveCursor(m, fd);
    }

    /** Reads in a row on a directory return consecutive names, and nothing after the last one. */
    method ReadNames(fd: int, n: nat) returns (bufs: seq<seq<byte>>)
      requires CoreOk() && fd != 0 && Holds(m, fd, Opened(Dir))
      modifies `dirsRead, `m
      ensures CoreOk() && |bufs| == n
      ensures forall i :: 0 <= i < n ==>
                bufs[i] == if old(dirsRead) + i < |listing| then listing[old(dirsRead) + i] else []
    {
      hide Represents;
      bufs := [];
      var i := 0;
      while i < n
        invariant 0 <= i <= n && CoreOk() && Holds(m, fd, Opened(Dir)) && |bufs| == i
        invariant dirsRead == if old(dirsRead) + i <= |listing| then old(dirsRead) + i
                              else if old(dirsRead) <= |listing| then |listing| else old(dirsRead)
        invariant forall k :: 0 <= k < i ==>
                    bufs[k] == if old(dirsRead) + k < |listing| then listing[old(dirsRead) + k] else []
      {
        var _, buf := Read(fd, 0);
        bufs := bufs + [buf];
        i := i + 1;
      }
    }

    /** write on a descriptor other than 1: only the RTC takes it, as the rate of the process. */
    method WriteRate(fd: int, rate: Option<int>, nbytes: int) returns (r: int)
      requires CoreOk() && fd != 1
      modifies `activeFreq, `m
      ensures CoreOk() && m == Rated(old(m), fd, rate) && r == if SetsRate(old(m), fd, rate) then nbytes else -1
    {
      hide Ok, Represents;
      CurrentSlot(processes, activeFreq, activeProcesses, cpid, m);
      HoldsRep(processes, activeFreq, activeProcesses, cpid, m, fd, Rtc);
      if fd < 0 || fd >= MAX_FD || !processes[cpid].fds[fd].inUse || processes[cpid].fds[fd].jumptable != RtcOps {
        return -1;
      }
      if rate.None? {
        return -1;
      }
      var f := rate.value;
      if f != 0 && f != 2 && f != 4 && f != 8 && f != 16 && f != 32 && f != 64
         && f != 128 && f != 256 && f != 512 && f != 1024 {
        return -1;
      }
      RateRep(processes, activeFreq, activeProcesses, cpid, m, fd, f);
      activeFreq := activeFreq[cpid := f];
      m := Rated(m, fd, rate);
      return nbytes;
    }

    /** The closing loop of halt. */
    method CloseAll()
      requires CoreOk()
      modifies `processes, `activeFreq, `dirsRead, `m
      ensures CoreOk() && Closing(old(m), m, MAX_FD)
    {
      hide Ok, Represents, Closing, CloseFd;
      ClosingStarts(m);
      var i := 0;
      while i < MAX_FD
        invariant 0 <= i <= MAX_FD && CoreOk() && Closing(old(m), m, i)
      {
        ClosingStep(old(m), m, i);
        var _ := Close(i);
        i := i + 1;
      }
    }

    /** execute_base_shell does not touch the screens. */
    method LaunchShell(t: nat, ghost stacks: Stacks) returns (r: int)
      requires TableRep(processes, activeFreq, activeProcesses, stacks)
      requires t < NUM_TERMINALS && stacks[t] == [] && Fresh(stacks) != 0
      requires |terminal| == NUM_TERMINALS && PagesOk(stacks) && ShowOk(m.screens, m.shown, m.target)
      modifies this`cpid, `processes, `activeProcesses, `terminal, `esp0, display`attributes
      modifies tables`cr3, tables.pageDir, tables.first4MB
      ensures terminal == old(terminal)[t := Emptied(old(terminal[t]))]
      ensures ShowOk(m.screens, m.shown, m.target)
      ensures r == 0 && cpid == Fresh(stacks) && ProcessorOk()
      ensures TableRep(processes, activeFreq, activeProcesses, stacks[t := [NewTask(cpid)]]) && !processes[0].active
      ensures PagesOk(stacks[t := [NewTask(cpid)]])
    {
      hide TableRep, Fresh, PagesOk;
      r := ExecuteBaseShell(t, stacks);
    }

    // ----- output -----

    /** puts and printf in the context of the running process. */
    method PrintOut(text: string)
      requires Ok(m) && ShowOk(m.screens, m.shown, m.target)
      modifies `m, display`screenX, display`screenY, display.vram
      ensures Ok(m) && ShowOk(m.screens, m.shown, m.target) && m == Print(old(m), text)
    {
      hide Ok, PutText, Moved, Cleared;
      Basics(m);
      display.Puts(text);
      OnTargetOk(m, PutText(m.screens[m.target], text, ATTRIBUTES[m.target]));
      m := Print(m, text);
    }

    /** clear, set_pos(0, 0) and the shell prompt. */
    method ShowPrompt()
      requires Ok(m) && ShowOk(m.screens, m.shown, m.target)
      modifies `m, display`screenX, display`screenY, display.vram
      ensures Ok(m) && ShowOk(m.screens, m.shown, m.target) && m == Reprompt(old(m))
    {
      hide Ok, PutText, Moved, Cleared;
      Basics(m);
      display.StartOver(PROMPT);
      OnTargetOk(m, Prompted(m.screens[m.target], ATTRIBUTES[m.target]));
      m := Reprompt(m);
    }

    // ----- the end of a process -----

    lemma {:induction false} PagesFrom(a: Stacks, b: Stacks)
      requires PagesOk(a) && FromStacks(a, b)
      ensures PagesOk(b)
    {
      forall t, i | 0 <= t < |b| && 0 <= i < |b[t]|
        ensures PageRep(b[t][i], t)
      {
        assert i < |a[t]| && b[t][i].pid == a[t][i].pid && b[t][i].vidmap == a[t][i].vidmap;
        assert PageRep(a[t][i], t);
      }
    }

    /** The common part of halt and exception_halt: the slot is freed and its parent is the process to
        go on with, or slot 0 if there is none. */
    method Release() returns (t: nat)
      requires CoreOk() && AllClosed(Current(m))
      modifies `cpid, `processes, `activeProcesses
      ensures t == m.turn
      ensures |m.stacks[m.turn]| == 1 ==>
        cpid == 0 && TableRep(processes, activeFreq, activeProcesses, m.stacks[m.turn := []])
      ensures |m.stacks[m.turn]| >= 2 ==>
        var par := m.stacks[m.turn][|m.stacks[m.turn]| - 2];
        && 1 <= cpid == par.pid < NUM_SLOTS == |processes| && par.status == Waiting(processes[cpid].execute)
        && !processes[0].active
        && TableRep(processes, activeFreq, activeProcesses, m.stacks[m.turn := Popped(m.stacks[m.turn])])
    {
      hide Ok, Represents, TableRep;
      CurrentSlot(processes, activeFreq, activeProcesses, cpid, m);
      EndedSlot(processes, activeFreq, activeProcesses, cpid, m);
      ghost var procs, active, me := processes, activeProcesses, cpid;
      if |m.stacks[m.turn]| == 1 {
        EmptyStep(procs, activeFreq, active, me, m);
      } else {
        ParentSlot(procs, activeFreq, active, me, m);
        PopStep(procs, activeFreq, active, me, m, m.stacks[m.turn][|m.stacks[m.turn]| - 2]);
      }
      processes := processes[cpid := processes[cpid].(running := false, active := false)];
      t := processes[cpid].terminal;
      cpid := processes[cpid].ppid;
      if cpid == 0 {
        activeProcesses := activeProcesses[t := cpid];
        KernelSlot(processes, activeFreq, activeProcesses, m.stacks[m.turn := []], processes[0].(active := true));
      } else {
        activeProcesses := activeProcesses[processes[cpid].terminal := cpid];
      }
      processes := processes[cpid := processes[cpid].(active := true)];
    }

    /** The last process of terminal `t` is gone: a new base shell takes its place. */
    method Restart(t: nat) returns (o: Outcome)
      requires Ok(m) && AllClosed(Current(m)) && |m.stacks[m.turn]| == 1 && t == m.turn
      requires TableRep(processes, activeFreq, activeProcesses, m.stacks[m.turn := []])
      requires FlagsOk() && ShowOk(m.screens, m.shown, m.target) && PagesOk(m.stacks)
      modifies this, display, display.vram, tables`cr3, tables.pageDir, tables.first4MB
      ensures Valid() && (m, o) == Terminate(old(m), 0)
    {
      hide Ok, Represents, TableRep, Terminate, AllClosed, Fresh, PutText, ShowOk, PagesOk;
      Basics(m);
      TerminateIs(m, 0);
      PrintOut(RESTARTING);
      EmptiedFrom(m.stacks, m.turn);
      PagesFrom(m.stacks, m.stacks[m.turn := []]);
      var _ := LaunchShell(t, m.stacks[m.turn := []]);
      assert m.stacks[t := []][t := [NewTask(cpid)]] == m.stacks[t := [NewTask(cpid)]];
      m := Launched(m, t, cpid);
      o := Enter(cpid);
      Establish(processes, activeFreq, activeProcesses, cpid, m);
    }

    /** The process that ended has a parent, which goes on where it waits. */
    method ResumeParent(value: int) returns (o: Outcome)
      requires Ok(m) && AllClosed(Current(m)) && |m.stacks[m.turn]| >= 2 && cpid < |processes|
      requires var par := m.stacks[m.turn][|m.stacks[m.turn]| - 2];
        1 <= cpid == par.pid && par.status == Waiting(processes[cpid].execute) && !processes[0].active
      requires TableRep(processes, activeFreq, activeProcesses, m.stacks[m.turn := Popped(m.stacks[m.turn])])
      requires FlagsOk() && ShowOk(m.screens, m.shown, m.target) && PagesOk(m.stacks)
      modifies `esp0, `m, tables`cr3
      ensures Valid() && (m, o) == Terminate(old(m), value)
    {
      hide Ok, Represents, TableRep, Terminate, AllClosed, ShowOk, PagesOk;
      Basics(m);
      TerminateIs(m, value);
      tables.SwapPages(cpid);
      esp0 := PROCESS_KERNEL_STACK_ADDR - STACK_SIZE * (cpid - 1);
      PoppedFrom(m.stacks, m.turn);
      PagesFrom(m.stacks, m.stacks[m.turn := Popped(m.stacks[m.turn])]);
      m := m.(stacks := m.stacks[m.turn := Popped(m.stacks[m.turn])]);
      Establish(processes, activeFreq, activeProcesses, cpid, m);
      return Resume(cpid, processes[cpid].execute, value);
    }

    /** halt (with the exit status) and exception_halt (with 256). */
    method EndProcess(value: int) returns (o: Outcome)
      requires Valid()
      modifies this, display, display.vram, tables`cr3, tables.pageDir, tables.first4MB
      ensures Valid() && (m, o) == Terminate(old(m), value)
    {
      hide Ok, Represents, TableRep, Closing, Terminate, AllClosed, ShowOk, PagesOk;
      CloseAll();
      ghost var closed := m;
      Basics(m);
      TerminateClosed(old(m), closed, value);
      ClosingDone(old(m), closed);
      ClosingFrom(old(m), closed);
      PagesFrom(old(m.stacks), closed.stacks);
      var t := Release();
      if cpid == 0 {
        tables.SwapPages(cpid);
        o := Restart(t);
        RestartValue(closed, value);
      } else {
        o := ResumeParent(value);
      }
    }

    // ----- a new process -----

    /** execute's look at the command file: open, read the first bytes, close. */
    method Probe(file: Option<FileKind>) returns (ok: bool)
      requires CoreOk()
      modifies `processes, `activeFreq, `dirsRead, `m
      ensures CoreOk() && ok == (file.Some? && FirstClosed(old(Current(m)).files, 0) != -1)
      ensures m == if ok then Probed(old(m), file.value) else old(m)
    {
      hide Ok, Represents, CloseFd;
      Basics(m);
      var fd := Open(file);
      if fd == -1 {
        return false;
      }
      ghost var m1 := m;
      NotStandard(old(m));
      var _, _ := Read(fd, 4);
      ProbeRoundTrip(old(m), file.value, m1, m);
      var _ := Close(fd);
      return true;
    }

    /** The slots of a new process and of its parent, up to the page directory. */
    method FillSlot(parent: nat, at: Context)
      requires Ok(m) && Represents(processes, activeFreq, activeProcesses, parent, m)
      requires 1 <= cpid <= MAX_PROCESSES && Free(m.stacks, cpid)
      modifies `processes, `activeProcesses
      ensures TableRep(processes, activeFreq, activeProcesses, Pushed(m, cpid, at).stacks) && !processes[0].active
      ensures Ok(Pushed(m, cpid, at))
    {
      hide Ok, Represents, TableRep, Pushed;
      CurrentSlot(processes, activeFreq, activeProcesses, parent, m);
      FreeSlotOf(processes, activeFreq, activeProcesses, m.stacks, cpid);
      ghost var procs, active := processes, activeProcesses;
      OpenStandard();
      processes := processes[cpid := processes[cpid].(ppid := parent, running := true, active := true)];
      processes := processes[parent := processes[parent].(active := false)];
      processes := processes[cpid := processes[cpid].(terminal := processes[parent].terminal)];
      activeProcesses := activeProcesses[processes[cpid].terminal := cpid];
      processes := processes[cpid := processes[cpid].(usingVideoMem := false)];
      processes := processes[parent := processes[parent].(execute := at)];
      PushStep(procs, activeFreq, active, parent, m, cpid, processes[cpid], at);
      assert processes == procs[cpid := processes[cpid]][parent := procs[parent].(active := false, execute := at)];
    }

    /** execute from the slot search on. */
    method Spawn(at: Context) returns (o: Outcome)
      requires Valid()
      modifies this, tables`cr3, tables.pageDir, tables.first4MB
      ensures Valid()
      ensures (m, o) ==
        if Fresh(old(m.stacks)) == 0 then (old(m), Return(-2))
        else (Pushed(old(m), Fresh(old(m.stacks)), at), Enter(Fresh(old(m.stacks))))
    {
      hide Ok, Represents, TableRep, Fresh, Pushed, ShowOk, PagesOk;
      CurrentSlot(processes, activeFreq, activeProcesses, cpid, m);
      KernelRuns(processes, activeFreq, activeProcesses, m.stacks);
      var parent := cpid;
      var found := FindSlot(parent);
      LowestIsFresh(processes, activeFreq, activeProcesses, m.stacks, if found then cpid else NUM_SLOTS);
      if !found {
        return Return(-2);
      }
      FreshIsFree(m.stacks);
      Occupy(parent, at);
      return Enter(cpid);
    }

    /** The new process in slot cpid: its table entry, its directory and its kernel stack. */
    method Occupy(parent: nat, at: Context)
      requires Ok(m) && Represents(processes, activeFreq, activeProcesses, parent, m) && FlagsOk()
      requires 1 <= cpid <= MAX_PROCESSES && Free(m.stacks, cpid)
      requires ShowOk(m.screens, m.shown, m.target) && PagesOk(m.stacks)
      modifies `processes, `activeProcesses, `esp0, `m, tables`cr3, tables.pageDir, tables.first4MB
      ensures Valid() && m == Pushed(old(m), cpid, at)
    {
      hide Ok, Represents, TableRep, Pushed, ShowOk, PagesOk;
      Basics(m);
      FillSlot(parent, at);
      BuildDirectory(m.stacks);
      PushedPages(m, cpid, at);
      m := Pushed(m, cpid, at);
      Establish(processes, activeFreq, activeProcesses, cpid, m);
    }

    lemma {:induction false} PushedPages(m: State, pid: nat, at: Context)
      requires PagesOk(m.stacks) && (forall t :: PageRep(NewTask(pid), t))
      requires m.turn < |m.stacks| && m.stacks[m.turn] != []
      ensures PagesOk(Pushed(m, pid, at).stacks)
      ensures var m' := Pushed(m, pid, at);
        && m' == m.(stacks := m'.stacks) && m'.turn < |m'.stacks| && m'.stacks[m'.turn] != [] && Current(m').pid == pid
    {
      var b: Stacks := Pushed(m, pid, at).stacks;
      forall t, i | 0 <= t < |b| && 0 <= i < |b[t]|
        ensures PageRep(b[t][i], t)
      {
        if t == m.turn && i == |m.stacks[t]| {
          assert b[t][i] == NewTask(pid);
        } else {
          assert PageRep(m.stacks[t][i], t);
        }
      }
    }

    /** execute. */
    method Execute(file: Option<FileKind>, magic: bool, at: Context) returns (o: Outcome)
      requires Valid()
      modifies this, tables`cr3, tables.pageDir, tables.first4MB
      ensures Valid() && (m, o) == Exec(old(m), file, magic, at)
      ensures var program := file.Some? && magic && Closed in old(Current(m).files);
        if program && old(MachineLaws.HasSlot(m.stacks)) then o.Enter? && old(MachineCalls.LowestFree(m.stacks, o.pid))
        else o == Return(if program then -2 else -1)
    {
      hide Ok, Represents, Fresh, Pushed, ShowOk, PagesOk, MachineLaws.HasSlot, MachineCalls.LowestFree;
      Basics(m);
      MachineCalls.ExecuteReturns(m, file, magic, at);
      var ok := Probe(file);
      if !ok {
        return Return(-1);
      }
      ProbedFrom(old(m), file.value);
      PagesFrom(old(m.stacks), m.stacks);
      if !magic {
        return Return(-1);
      }
      o := Spawn(at);
    }

    // ----- the timer -----

    /** The video page that a process of terminal `t` should see. */
    function VideoPage(t: nat): nat
      reads display
    {
      if t == display.curTerminal then Paging.VIDEO else Paging.HiddenPage(t)
    }

    /** Maps the video page of its terminal into the address space of process `p`. */
    method PointVideo(p: nat)
      requires tables.Valid() && p < |processes| && processes[p].terminal < NUM_TERMINALS
      requires 1 <= p <= MAX_PROCESSES && tables.Built(p)
      modifies tables`cr3, tables.pageDir, tables.videoTables
      ensures tables.Valid() && tables.Built(p) && tables.VideoMapped(p, VideoPage(processes[p].terminal))
      ensures tables.cr3 == p && tables.OnlyRow(p)
    {
      if processes[p].terminal == display.curTerminal {
        tables.MapVideo(p, Paging.VIDEO);
      } else if processes[p].terminal == 0 {
        tables.MapVideo(p, Paging.VIDEO_0);
      } else if processes[p].terminal == 1 {
        tables.MapVideo(p, Paging.VIDEO_1);
      } else {
        tables.MapVideo(p, Paging.VIDEO_2);
      }
    }

    /** Refreshes the vidmap mapping of a process that uses it. */
    method Remap(p: nat, ghost stacks: Stacks, ghost t: nat, ghost i: nat)
      requires PagesOk(stacks) && p < |processes| && processes[p].terminal == t < NUM_TERMINALS
      requires OnlyAt(stacks, p, t, i) && stacks[t][i].vidmap && 1 <= p <= MAX_PROCESSES
      modifies tables`cr3, tables.pageDir, tables.videoTables
      ensures PagesOk(stacks) && tables.Shape() && tables.VideoMapped(p, VideoPage(t)) && tables.cr3 == p
    {
      assert PageRep(stacks[t][i], t);
      PointVideo(p);
    }

    /** The search loop: it ends within three iterations. */
    method FindNext(start: nat, ghost stacks: Stacks) returns (i: nat)
      requires |activeProcesses| == |stacks| == NUM_TERMINALS && start < NUM_TERMINALS && stacks[start] != []
      requires forall t :: 0 <= t < NUM_TERMINALS ==> (activeProcesses[t] == 0 <==> stacks[t] == [])
      ensures start < i <= start + 3 && i % NUM_TERMINALS == Next(stacks, start)
    {
      assert (start + 3) % 3 == start;
      i := start + 1;
      while activeProcesses[i % NUM_TERMINALS] == 0
        invariant start < i <= start + 3
        invariant forall j :: start < j < i ==> stacks[j % 3] == []
        decreases start + 3 - i
      {
        i := i + 1;
      }
      SearchIsNext(stacks, start, i);
    }

    /** Sends output to the screen of terminal `t`, visible or hidden. */
    method Aim(t: nat)
      requires ShowOk(m.screens, m.shown, m.target) && t < NUM_TERMINALS
      modifies display`videoMem
      ensures ShowOk(m.screens, m.shown, t)
    {
      if t == display.curTerminal {
        display.SetVideoContext(-1);
      } else {
        display.SetVideoContext(t);
      }
    }

    /** Refreshes the vidmap mappings of the process that stops and of the top of terminal `n`. */
    method RemapBoth(oldCpid: nat, ghost n: nat)
      requires Ok(m) && PagesOk(m.stacks) && n < NUM_TERMINALS && m.stacks[n] != []
      requires |processes| == NUM_SLOTS && oldCpid == Current(m).pid && cpid == Top(m.stacks[n]).pid
      requires OnlyAt(m.stacks, oldCpid, m.turn, |m.stacks[m.turn]| - 1) && OnlyAt(m.stacks, cpid, n, |m.stacks[n]| - 1)
      requires 1 <= oldCpid <= MAX_PROCESSES && 1 <= cpid <= MAX_PROCESSES
      requires processes[oldCpid].usingVideoMem == Current(m).vidmap && processes[oldCpid].terminal == m.turn
      requires processes[cpid].usingVideoMem == Top(m.stacks[n]).vidmap && processes[cpid].terminal == n
      modifies tables`cr3, tables.pageDir, tables.videoTables
      ensures PagesOk(m.stacks) && tables.Shape()
      ensures Top(m.stacks[n]).vidmap ==> tables.VideoMapped(cpid, VideoPage(n))
    {
      hide Ok, OnlyAt;
      Basics(m);
      if processes[oldCpid].usingVideoMem {
        Remap(oldCpid, m.stacks, m.turn, |m.stacks[m.turn]| - 1);
      }
      if processes[cpid].usingVideoMem {
        Remap(cpid, m.stacks, n, |m.stacks[n]| - 1);
      }
    }

    /** Saves the context of the process that stops and loads that of the top of terminal `n`. */
    method SwapContext(oldCpid: nat, n: nat, at: Context) returns (o: Outcome)
      requires Ok(m) && Represents(processes, activeFreq, activeProcesses, oldCpid, m) && FlagsOk()
      requires n < NUM_TERMINALS && m.stacks[n] != [] && n != m.turn && cpid == Top(m.stacks[n]).pid
      requires ShowOk(m.screens, m.shown, n) && PagesOk(m.stacks)
      modifies `processes, `esp0, `m, tables`cr3
      ensures Valid() && m == Handover(old(m), n, at) && Current(m) == old(Top(m.stacks[n])).(status := Running)
      ensures var next := old(Top(m.stacks[n])); next.status.Preempted? && o == Resume(next.pid, next.status.at, 0)
    {
      hide Ok, Represents, TableRep, ShowOk, PagesOk, Handover, SlotRep, FromStacks;
      CurrentFields(processes, activeFreq, activeProcesses, oldCpid, m);
      HandoverRep(processes, activeFreq, activeProcesses, oldCpid, m, n, at);
      HandoverFrom(m, n, at);
      PagesFrom(m.stacks, Handover(m, n, at).stacks);
      processes := processes[oldCpid := processes[oldCpid].(switch := at)];
      esp0 := PROCESS_KERNEL_STACK_ADDR - STACK_SIZE * (cpid - 1);
      tables.SwapPages(cpid);
      o := Resume(cpid, processes[cpid].switch, 0);
      m := Handover(m, n, at);
    }

    /** The processor goes to the top of terminal `n`. */
    method HandOver(n: nat, at: Context) returns (o: Outcome)
      requires Valid() && n < NUM_TERMINALS && m.stacks[n] != [] && n != m.turn
      modifies this, display`videoMem, tables`cr3, tables.pageDir, tables.videoTables
      ensures Valid() && m == Handover(old(m), n, at)
      ensures var next := old(Top(m.stacks[n])); next.status.Preempted? && o == Resume(next.pid, next.status.at, 0)
      ensures Current(m).vidmap ==> tables.VideoMapped(cpid, VideoPage(m.turn))
    {
      hide Ok, Represents, TableRep, ShowOk, PagesOk, Handover, OnlyAt, SlotRep;
      Basics(m);
      CurrentFields(processes, activeFreq, activeProcesses, cpid, m);
      ActiveOrEmpty(processes, activeFreq, activeProcesses, m.stacks, n);
      HandoverRep(processes, activeFreq, activeProcesses, cpid, m, n, at);
      UniqueIn(m, m.turn, |m.stacks[m.turn]| - 1);
      UniqueIn(m, n, |m.stacks[n]| - 1);
      HandoverFrom(m, n, at);
      var oldCpid := cpid;
      cpid := activeProcesses[n];
      Aim(processes[cpid].terminal);
      RemapBoth(oldCpid, n);
      o := SwapContext(oldCpid, n, at);
    }

    /** The start of task_switch for a process that is to be halted. */
    method HaltMarked(ghost at: Context) returns (o: Outcome)
      requires Valid() && m.kill[m.turn]
      modifies this, display, display.vram, tables`cr3, tables.pageDir, tables.first4MB
      ensures Valid() && (m, o) == Timer(old(m), at)
    {
      hide Ok, Represents, TableRep, ShowOk, PagesOk, Terminate;
      Basics(m);
      CurrentSlot(processes, activeFreq, activeProcesses, cpid, m);
      needsToBeHalted := needsToBeHalted[processes[cpid].terminal := false];
      UnkillOk(m);
      SameStacks(processes, activeFreq, activeProcesses, cpid, m, m.(kill := m.kill[m.turn := false]));
      m := m.(kill := m.kill[m.turn := false]);
      ghost var before := m;
      ShowPrompt();
      SameStacks(processes, activeFreq, activeProcesses, cpid, before, m);
      o := EndProcess(256);
    }

    /** task_switch. */
    method TaskSwitch(at: Context) returns (o: Outcome)
      requires Valid()
      modifies this, display, display.vram, tables`cr3, tables.pageDir, tables.first4MB, tables.videoTables
      ensures Valid() && (m, o) == Timer(old(m), at)
      ensures needsToBeHalted == old(needsToBeHalted[m.turn := false])
    {
      hide Ok, Represents, TableRep, ShowOk, PagesOk, Handover, Terminate;
      Basics(m);
      MachineLaws.TimerUnmarks(m, at);
      CurrentSlot(processes, activeFreq, activeProcesses, cpid, m);
      if needsToBeHalted[processes[cpid].terminal] {
        o := HaltMarked(at);
        return;
      }
      forall t | 0 <= t < NUM_TERMINALS
        ensures activeProcesses[t] == 0 <==> m.stacks[t] == []
      {
        ActiveOrEmpty(processes, activeFreq, activeProcesses, m.stacks, t);
      }
      var i := FindNext(processes[cpid].terminal, m.stacks);
      ActiveOrEmpty(processes, activeFreq, activeProcesses, m.stacks, i % NUM_TERMINALS);
      UniqueIn(m, m.turn, |m.stacks[m.turn]| - 1);
      if activeProcesses[i % NUM_TERMINALS] == cpid {
        return Return(0);
      }
      o := HandOver(i % NUM_TERMINALS, at);
    }

    // ----- the keyboard -----

    /** What the keyboard handler may rely on while it draws on the visible page. */
    ghost predicate AtKeyboard()
      reads this, display, display.vram
    {
      CoreOk() && m.target == m.shown && ShowOk(m.screens, m.shown, m.shown)
    }

    /** The ghost step that goes with an edit of the shown terminal. */
    ghost method Record(a: Action)
      requires Ok(m) && (a.Erase? && m.lines[m.shown].pos > 0 ==> m.screens[m.shown].x > 0 || m.screens[m.shown].y > 0)
      requires Represents(processes, activeFreq, activeProcesses, cpid, m) && m.target == m.shown
      requires needsToBeHalted == m.kill && dirsRead == m.cursor && terminal == Edited(m, a).lines && listing == m.names
      requires Modifiers(capsActive, ctrlActive, shiftActive, altActive) == m.mods
      requires ShowOk(Edited(m, a).screens, m.shown, m.shown)
      modifies `m
      ensures AtKeyboard() && m == Edited(old(m), a)
    {
      hide Ok, Represents, ShowOk;
      EditedOk(m, a);
      SameStacks(processes, activeFreq, activeProcesses, cpid, m, Edited(m, a));
      m := Edited(m, a);
    }

    /** One character on the shown screen. */
    method DrawChar(c: char)
      requires ShowOk(m.screens, m.shown, m.shown)
      requires m.shown < |m.screens| == NUM_TERMINALS && OnScreen(m.screens[m.shown])
      modifies display`screenX, display`screenY, display.vram
      ensures var s := m.shown;
        ShowOk(m.screens[s := PutChar(m.screens[s], c, ATTRIBUTES[s])], s, s)
    {
      hide PutChar;
      display.Putc(c);
    }

    method DrawRubOut()
      requires ShowOk(m.screens, m.shown, m.shown)
      requires m.shown < |m.screens| == NUM_TERMINALS && OnScreen(m.screens[m.shown])
      requires m.screens[m.shown].x > 0 || m.screens[m.shown].y > 0
      modifies display`screenX, display`screenY, display.vram
      ensures var s := m.shown;
        ShowOk(m.screens[s := Backspaced(m.screens[s], ATTRIBUTES[s])], s, s)
    {
      hide Backspaced;
      display.RubOut();
    }

    /** do_spec(BACKSPACE). */
    method EraseKey()
      requires AtKeyboard() && (m.lines[m.shown].pos > 0 ==> m.screens[m.shown].x > 0 || m.screens[m.shown].y > 0)
      modifies `terminal, `m, display`screenX, display`screenY, display.vram
      ensures AtKeyboard() && m == Edited(old(m), Erase)
    {
      hide Ok, Represents, Backspaced, ShowOk;
      Basics(m);
      ShownIs();
      var t := display.curTerminal;
      if terminal[t].pos == 0 {
        assert m.lines[t := m.lines[t]] == m.lines && m.screens[t := m.screens[t]] == m.screens;
        return;
      }
      terminal := terminal[t := terminal[t].(pos := terminal[t].pos - 1)];
      DrawRubOut();
      Record(Erase);
    }

    /** do_spec(ENTER). */
    method SubmitKey()
      requires AtKeyboard()
      modifies `terminal, `m, display`screenX, display`screenY, display.vram
      ensures AtKeyboard() && m == Edited(old(m), Submit)
    {
      hide Ok, Represents, PutChar, ShowOk;
      Basics(m);
      ShownIs();
      var t := display.curTerminal;
      terminal := terminal[t := terminal[t].(buffer := terminal[t].buffer[terminal[t].pos := '\n'])];
      DrawChar('\n');
      terminal := terminal[t := terminal[t].(ready := true)];
      Record(Submit);
    }

    /** The end of do_reg, for a scancode that has a character. */
    method InsertKey(c: char)
      requires AtKeyboard() && m.lines[m.shown].pos < BUFFER_SIZE - 1
      modifies `terminal, `m, display`screenX, display`screenY, display.vram
      ensures AtKeyboard() && m == Edited(old(m), Insert(c))
    {
      hide Ok, Represents, PutChar, ShowOk;
      Basics(m);
      ShownIs();
      var t := display.curTerminal;
      terminal := terminal[t := terminal[t].(buffer := terminal[t].buffer[terminal[t].pos := c])];
      terminal := terminal[t := terminal[t].(pos := terminal[t].pos + 1)];
      DrawChar(c);
      Record(Insert(c));
    }

    /** Ctrl-C and Ctrl-L clear the screen and the line. */
    method RedrawKey(a: Action)
      requires AtKeyboard() && (a.Interrupt? || a.Redraw?)
      modifies `terminal, `m, display`screenX, display`screenY, display.vram
      ensures AtKeyboard() && m == Edited(old(m), a)
    {
      hide Ok, Represents, PutText, Moved, Cleared;
      Basics(m);
      var t := display.curTerminal;
      display.StartOver(PROMPT);
      terminal := terminal[t := terminal[t].(pos := 0)];
      Record(a);
    }

    /** The modifier flags: presses and releases. */
    method ModifierKey(scancode: nat)
      modifies `capsActive, `ctrlActive, `shiftActive, `altActive
      ensures Modifiers(capsActive, ctrlActive, shiftActive, altActive)
           == Update(old(Modifiers(capsActive, ctrlActive, shiftActive, altActive)), scancode)
      ensures capsActive == (old(capsActive) != (scancode == CAPS_LOCK))
      ensures var keys := KeyboardLaws.SHIFT_KEYS;
        shiftActive <==> scancode in keys || (old(shiftActive) && !KeyboardLaws.Own(scancode, keys))
      ensures ctrlActive <==> scancode == CTRL || (old(ctrlActive) && !KeyboardLaws.Own(scancode, {CTRL}))
      ensures altActive <==> scancode == ALT || (old(altActive) && !KeyboardLaws.Own(scancode, {ALT}))
    {
      if scancode == CAPS_LOCK {
        capsActive := !capsActive;
      } else if scancode == CTRL {
        ctrlActive := true;
      } else if scancode == RIGHT_SHIFT || scancode == LEFT_SHIFT {
        shiftActive := true;
      } else if scancode == ALT {
        altActive := true;
      }
      if scancode >= KEYBOARD_MASK {
        var key := scancode - KEYBOARD_MASK;
        if ctrlActive && key == CTRL {
          ctrlActive := false;
        } else if shiftActive && (key == LEFT_SHIFT || key == RIGHT_SHIFT) {
          shiftActive := false;
        } else if altActive && key == ALT {
          altActive := false;
        }
      }
    }

    /** The switch on the scancode and the release test that follows it. */
    method EarlyKey(scancode: nat)
      requires AtKeyboard()
      requires scancode == BACKSPACE && m.lines[m.shown].pos > 0 ==>
        m.screens[m.shown].x > 0 || m.screens[m.shown].y > 0
      modifies `terminal, `m, `capsActive, `ctrlActive, `shiftActive, `altActive
      modifies display`screenX, display`screenY, display.vram
      ensures AtKeyboard() && m == EarlyKeyed(old(m), scancode)
    {
      hide Ok, Represents, ShowOk, Edited;
      if scancode == BACKSPACE {
        EraseKey();
      } else if scancode == ENTER {
        SubmitKey();
      } else {
        ModifierKey(scancode);
        ModsOk(m, Update(m.mods, scancode));
        SameStacks(processes, activeFreq, activeProcesses, cpid, m, m.(mods := Update(m.mods, scancode)));
        m := m.(mods := Update(m.mods, scancode));
      }
    }

    /** do_reg. */
    method DoReg(scancode: nat)
      requires AtKeyboard() && m.lines[m.shown].pos < BUFFER_SIZE - 1
      modifies `terminal, `m, display`screenX, display`screenY, display.vram
      ensures AtKeyboard()
      ensures m == if scancode <= SPACE && Table(old(m).mods)[scancode] != '\0'
                   then Edited(old(m), Insert(Table(old(m).mods)[scancode])) else old(m)
    {
      hide Ok, Represents, ShowOk, Edited;
      if scancode <= SPACE {
        var character;
        if shiftActive && capsActive {
          character := COMBO_CHARS[scancode];
        } else if shiftActive {
          character := SHIFT_CHARS[scancode];
        } else if capsActive {
          character := CAPS_CHARS[scancode];
        } else {
          character := SELF_CHARS[scancode];
        }
        if character == '\0' {
          return;
        }
        InsertKey(character);
      }
    }

    /** The search for a free slot before a terminal is started. */
    method ProcessAvailable() returns (available: bool)
      requires |processes| == NUM_SLOTS
      ensures available <==> exists p :: 1 <= p <= MAX_PROCESSES && !processes[p].running
    {
      available := false;
      var i := 1;
      while i < MAX_PROCESSES + 1
        invariant 1 <= i <= MAX_PROCESSES + 1
        invariant available <==> exists p :: 1 <= p < i && !processes[p].running
      {
        if !processes[i].running {
          available := true;
        }
        i := i + 1;
      }
    }

    /** The visible page moves with the shown terminal; no logical screen changes. */
    method SwapScreens(t: nat)
      requires ShowOk(m.screens, m.shown, m.shown) && t < NUM_TERMINALS && t != m.shown
      modifies display`curTerminal, display.vram
      ensures ShowOk(m.screens, t, t)
    {
      display.Exchange(t);
    }

    method BlankScreen(t: nat)
      requires ShowOk(m.screens, m.shown, m.shown) && t < NUM_TERMINALS && t != m.shown && |m.screens| == NUM_TERMINALS
      modifies display`curTerminal, display.vram
      ensures ShowOk(m.screens[t := Cleared(m.screens[t], ATTRIBUTES[t])], t, t)
    {
      hide Cleared;
      display.StartBlank(t);
    }

    /** terminal_switch to a terminal that has no process yet. */
    method StartTerminal(t: nat, at: Context) returns (o: Outcome)
      requires Valid() && m.target == m.shown && t < NUM_TERMINALS && m.stacks[t] == [] && Fresh(m.stacks) != 0
      modifies this, display, display.vram, tables`cr3, tables.pageDir, tables.first4MB
      ensures Valid() && m == Started(old(m), t, Fresh(old(m.stacks)), at) && o == Enter(Fresh(old(m.stacks)))
    {
      hide Ok, Represents, TableRep, ShowOk, PagesOk, Fresh, Cleared, FromStacks;
      Basics(m);
      CurrentFields(processes, activeFreq, activeProcesses, cpid, m);
      StoppedIs(m, t, at);
      PreemptRep(processes, activeFreq, activeProcesses, cpid, m, at);
      PagesFrom(m.stacks, Stopped(m, t, at).stacks);
      BlankScreen(t);
      processes := processes[cpid := processes[cpid].(switch := at)];
      m := Stopped(m, t, at);
      var _ := LaunchShell(t, m.stacks);
      m := Launched(m, t, cpid);
      Establish(processes, activeFreq, activeProcesses, cpid, m);
      o := Enter(cpid);
    }

    /** terminal_switch. */
    method TerminalSwitch(t: nat, at: Context) returns (o: Outcome)
      requires Valid() && m.target == m.shown && t < NUM_TERMINALS
      requires t != m.shown && m.stacks[t] == [] ==> Fresh(m.stacks) != 0
      modifies this, display, display.vram, tables`cr3, tables.pageDir, tables.first4MB
      ensures Valid() && (m, o) == Switch(old(m), t, at)
    {
      hide Ok, Represents, TableRep, PagesOk, Fresh, Started, ShowOk;
      Basics(m);
      CurrentFields(processes, activeFreq, activeProcesses, cpid, m);
      ActiveOrEmpty(processes, activeFreq, activeProcesses, m.stacks, t);
      ShownIs();
      if t == display.curTerminal {
        return Return(0);
      }
      if activeProcesses[t] == 0 {
        o := StartTerminal(t, at);
        return;
      }
      ShowOther(t);
      return Return(0);
    }

    /** terminal_switch to another terminal that has a process. */
    method ShowOther(t: nat)
      requires Valid() && m.target == m.shown && t < NUM_TERMINALS && t != m.shown && m.stacks[t] != []
      modifies `m, display`curTerminal, display`videoMem, display.vram
      ensures Valid() && m == old(m).(shown := t, target := old(m).turn)
    {
      hide Ok, Represents, TableRep, PagesOk, ShowOk;
      SwapScreens(t);
      ShownOk(m, t);
      SameStacks(processes, activeFreq, activeProcesses, cpid, m, m.(shown := t, target := t));
      m := m.(shown := t, target := t);
      AimHome();
    }

    /** Output goes to the terminal of the running process again. */
    method AimHome()
      requires CoreOk() && ShowOk(m.screens, m.shown, m.target)
      modifies display`videoMem, `m
      ensures CoreOk() && ShowOk(m.screens, m.shown, m.target) && m == old(m).(target := old(m).turn)
    {
      hide Ok, Represents, ShowOk;
      Basics(m);
      CurrentFields(processes, activeFreq, activeProcesses, cpid, m);
      Aim(processes[cpid].terminal);
      AimOk(m, m.turn);
      SameStacks(processes, activeFreq, activeProcesses, cpid, m, m.(target := m.turn));
      m := m.(target := m.turn);
    }

    /** The plain end of keyboardHandler: a character, or nothing. */
    method PlainKey(scancode: nat)
      requires AtKeyboard() && !LateAction(m.mods, scancode).Interrupt? && !LateAction(m.mods, scancode).Redraw?
      modifies `terminal, `m, display`screenX, display`screenY, display.vram
      ensures AtKeyboard() && m == Edited(old(m), LateAction(old(m).mods, scancode))
    {
      hide Ok, Represents, ShowOk, Edited;
      Basics(m);
      NothingEdited(m);
      if BACKSPACE == scancode || ENTER == scancode {
        SpecialKeysInsertNothing(m.mods, scancode);
      }
      ShownIs();
      if terminal[display.curTerminal].pos < BUFFER_SIZE - 1 {
        DoReg(scancode);
      } else if LateAction(m.mods, scancode).Insert? {
        FullLine(m, LateAction(m.mods, scancode).c);
      }
    }

    lemma {:induction false} ShownIs()
      requires ShowOk(m.screens, m.shown, m.target)
      ensures display.curTerminal == m.shown
    {
    }

    /** Ctrl-C: the running process ends now, or its terminal is marked. */
    method InterruptKey() returns (o: Outcome)
      requires Valid() && m.target == m.shown
      modifies this, display, display.vram, tables`cr3, tables.pageDir, tables.first4MB
      ensures Valid()
      ensures var m2 := Edited(old(m), Interrupt).(target := old(m).turn);
        && Ok(m2)
        && (m, o) == if old(m).turn == old(m).shown then Terminate(m2, 256)
                     else (m2.(kill := old(m).kill[old(m).shown := true]), Return(0))
    {
      hide Ok, Represents, TableRep, ShowOk, PagesOk, Edited, Terminate;
      Basics(m);
      EditedOk(m, Interrupt);
      AimOk(Edited(m, Interrupt), m.turn);
      RedrawKey(Interrupt);
      Basics(m);
      CurrentFields(processes, activeFreq, activeProcesses, cpid, m);
      ActiveOrEmpty(processes, activeFreq, activeProcesses, m.stacks, m.shown);
      ActiveOrEmpty(processes, activeFreq, activeProcesses, m.stacks, m.turn);
      UniqueIn(m, m.turn, |m.stacks[m.turn]| - 1);
      ShownIs();
      if cpid == activeProcesses[display.curTerminal] {
        o := EndProcess(256);
      } else {
        MarkShown();
        o := Return(0);
      }
    }

    /** The process of the shown terminal is to be halted when its turn comes. */
    method MarkShown()
      requires Valid()
      modifies `needsToBeHalted, `m, display`videoMem
      ensures Valid() && m == old(m).(kill := old(m).kill[old(m).shown := true], target := old(m).turn)
    {
      hide Ok, Represents, ShowOk, PagesOk;
      Basics(m);
      ShownIs();
      needsToBeHalted := needsToBeHalted[display.curTerminal := true];
      KillOk(m, m.shown);
      SameStacks(processes, activeFreq, activeProcesses, cpid, m, m.(kill := m.kill[m.shown := true]));
      m := m.(kill := m.kill[m.shown := true]);
      AimHome();
    }

    /** keyboardHandler for a key that does not switch terminals, after the first switch. */
    method LateKey(scancode: nat) returns (o: Outcome)
      requires Valid() && m.target == m.shown && !Decode(m.mods, scancode).SwitchTo?
      modifies this, display, display.vram, tables`cr3, tables.pageDir, tables.first4MB
      ensures Valid()
      ensures var m2 := Edited(old(m), LateAction(old(m).mods, scancode)).(target := old(m).turn);
        && Ok(m2)
        && (m, o) ==
           if !Decode(old(m).mods, scancode).Interrupt? then (m2, Return(0))
           else if old(m).turn == old(m).shown then Terminate(m2, 256)
           else (m2.(kill := old(m).kill[old(m).shown := true]), Return(0))
    {
      hide Ok, Represents, TableRep, ShowOk, PagesOk, Edited, Terminate;
      EditedOk(m, LateAction(m.mods, scancode));
      if ctrlActive && scancode == C_KEY {
        o := InterruptKey();
        return;
      } else if ctrlActive && scancode == L_KEY {
        RedrawKey(Redraw);
      } else {
        PlainKey(scancode);
      }
      AimHome();
      o := Return(0);
    }

    /** Alt-F2 and Alt-F3 first check that the terminal has a process or that a slot is left for one. */
    method CanSwitch(t: nat) returns (ok: bool)
      requires CoreOk() && t < NUM_TERMINALS
      ensures ok <==> m.stacks[t] != [] || Fresh(m.stacks) != 0
    {
      hide Ok, Represents, TableRep, Fresh;
      CurrentFields(processes, activeFreq, activeProcesses, cpid, m);
      ActiveOrEmpty(processes, activeFreq, activeProcesses, m.stacks, t);
      AvailableIsFresh(processes, activeFreq, activeProcesses, m.stacks);
      var processAvailable := ProcessAvailable();
      ok := activeProcesses[t] != 0 || processAvailable;
    }

    /** The Alt combinations: `done` if the handler returns from them. */
    method AltKey(scancode: nat, at: Context) returns (done: bool, o: Outcome)
      requires Valid() && m.target == m.shown && Decode(m.mods, scancode).SwitchTo?
      modifies this, display, display.vram, tables`cr3, tables.pageDir, tables.first4MB
      ensures var t := scancode - F1;
        done <==> t == old(m).shown || old(m).stacks[t] != [] || Fresh(old(m).stacks) != 0
      ensures done ==> Valid() && (m, o) == Switch(old(m), scancode - F1, at)
      ensures !done ==> Valid() && m == old(m)
    {
      hide Ok, Represents, TableRep, ShowOk, PagesOk, Fresh, Switch;
      Basics(m);
      o := Return(0);
      if scancode == F1 {
        // no check: terminal 0 always has a process
        o := TerminalSwitch(0, at);
        return true, o;
      }
      var t := if scancode == F2 then 1 else 2;
      done := CanSwitch(t);
      if done {
        o := TerminalSwitch(t, at);
      }
    }

    /** Output goes to the visible page, and the first switch of the handler is done. */
    method BeginKey(scancode: nat, ghost at: Context)
      requires Valid() && Allowed(m, Key(scancode, at))
      modifies this, display, display.vram
      ensures Valid() && Ok(old(m).(target := old(m).shown))
      ensures m == EarlyKeyed(old(m).(target := old(m).shown), scancode)
      ensures m.target == m.shown
    {
      hide Ok, Represents, TableRep, ShowOk, PagesOk, Edited, EarlyKeyed, FromStacks;
      Basics(m);
      AimOk(m, m.shown);
      SameStacks(processes, activeFreq, activeProcesses, cpid, m, m.(target := m.shown));
      AimVisible();
      m := m.(target := m.shown);
      EarlyKeyedOk(m, scancode);
      EarlyKey(scancode);
      EarlyKeyedStacks(old(m), scancode, m);
      PagesFrom(old(m.stacks), m.stacks);
    }

    /** keyboardHandler. */
    method KeyboardHandler(scancode: nat, at: Context) returns (o: Outcome)
      requires Valid() && Allowed(m, Key(scancode, at))
      modifies this, display, display.vram, tables`cr3, tables.pageDir, tables.first4MB
      ensures Valid() && (m, o) == Keyed(old(m), scancode, at)
    {
      hide Ok, Represents, TableRep, ShowOk, PagesOk, Fresh, Switch, Edited, Terminate, EarlyKeyed, Keyed, FromStacks;
      BeginKey(scancode, at);
      EarlyKeyedStacks(old(m), scancode, m);
      if altActive && (scancode == F1 || scancode == F2 || scancode == F3) {
        KeyedSwitch(old(m), scancode, at, m, scancode - F1);
        var done;
        done, o := AltKey(scancode, at);
        if done {
          return;
        }
        AimHome();
        return Return(0);
      }
      KeyedEdit(old(m), scancode, at, m);
      o := LateKey(scancode);
    }

    method AimVisible()
      requires ShowOk(m.screens, m.shown, m.target)
      modifies display`videoMem
      ensures ShowOk(m.screens, m.shown, m.shown)
    {
      display.SetVideoContext(-1);
    }

    // ----- the remaining system calls -----

    /** The process gets its mapping; the mappings of the others stay. */
    method MapCurrent()
      requires Ok(m) && PagesOk(m.stacks) && cpid == Current(m).pid
      requires cpid < |processes| && processes[cpid].terminal == m.turn
      modifies tables`cr3, tables.pageDir, tables.videoTables
      ensures PagesOk(Machine.VideoMapped(m).stacks) && tables.cr3 == cpid
      ensures tables.Shape() && 1 <= cpid <= MAX_PROCESSES && tables.Built(cpid)
      ensures tables.VideoMapped(cpid, VideoPage(m.turn))
    {
      hide Ok, PagesOk;
      Basics(m);
      ghost var t, k := m.turn, |m.stacks[m.turn]| - 1;
      UniqueIn(m, t, k);
      MapSlot(m.stacks, t, k);
      MappedTop(m);
    }

    /** The process at (t, k), in slot cpid, gets the page of its terminal. */
    method MapSlot(ghost stacks: Stacks, ghost t: nat, ghost k: nat)
      requires PagesOk(stacks) && OnlyAt(stacks, cpid, t, k) && 1 <= cpid <= MAX_PROCESSES
      requires cpid < |processes| && processes[cpid].terminal == t < NUM_TERMINALS
      modifies tables`cr3, tables.pageDir, tables.videoTables
      ensures tables.cr3 == cpid && tables.Shape() && tables.Built(cpid) && tables.VideoMapped(cpid, VideoPage(t))
      ensures PagesOk(stacks[t := stacks[t][k := stacks[t][k].(vidmap := true)]])
    {
      assert PageRep(stacks[t][k], t);
      PointVideo(cpid);
      ghost var b: Stacks := stacks[t := stacks[t][k := stacks[t][k].(vidmap := true)]];
      assert forall u, j :: 0 <= u < |b| && 0 <= j < |b[u]| && !(u == t && j == k) ==> b[u][j] == stacks[u][j];
    }

    /** The running process finds at offset `i` of the page that vidmap gave it the byte at offset `i` of the
        screen of its own terminal: a cell of the display is two bytes of video memory. */
    ghost predicate ShowsByte(i: nat)
      requires tables.Shape() && cpid <= MAX_PROCESSES && i < Paging.FOUR_KB
      reads this, display, tables.pageDir, tables.first4MB, tables.videoTables
    {
      tables.Translate(cpid, Paging.USER_PAGE_BOTTOM + i) ==
      Paging.Mapped(Paging.VIDEO + 2 * display.Base(m.turn) + i, true, true)
    }

    lemma {:induction false} VideoBytes()
      requires tables.Shape() && 1 <= cpid <= MAX_PROCESSES && tables.Built(cpid) && m.turn < NUM_TERMINALS
      requires tables.VideoMapped(cpid, VideoPage(m.turn))
      ensures forall i :: 0 <= i < Paging.FOUR_KB ==> ShowsByte(i)
    {
      forall i | 0 <= i < Paging.FOUR_KB ensures ShowsByte(i) {
        tables.ThroughVideoTable(cpid, Paging.USER_PAGE_BOTTOM + i, VideoPage(m.turn));
      }
    }

    lemma {:induction false} PointerBytes(address: int)
      requires tables.Shape() && 1 <= cpid <= MAX_PROCESSES && tables.Built(cpid) && InImage(address)
      ensures forall a :: address <= a < address + 4 ==> tables.Reachable(cpid, a)
    {
      forall a | address <= a < address + 4 ensures tables.Reachable(cpid, a) {
        tables.AddressSpace(cpid, a);
      }
    }

    /** vidmap, with the address of the caller's pointer and what is stored there. */
    method Vidmap(address: int) returns (r: int, stored: Option<nat>)
      requires Valid()
      modifies `processes, `m, tables`cr3, tables.pageDir, tables.videoTables
      ensures Valid() && (m, r) == if InImage(address) then (Machine.VideoMapped(old(m)), 0) else (old(m), -1)
      ensures InImage(address) ==>
        tables.VideoMapped(cpid, VideoPage(m.turn)) && stored == Some(Paging.USER_PAGE_BOTTOM)
      ensures !InImage(address) ==> stored == None
      ensures InImage(address) ==> forall a :: address <= a < address + 4 ==> tables.Reachable(cpid, a)
      ensures InImage(address) ==> forall i :: 0 <= i < Paging.FOUR_KB ==> ShowsByte(i)
    {
      hide Ok, Represents, TableRep, ShowOk, PagesOk;
      Basics(m);
      CurrentFields(processes, activeFreq, activeProcesses, cpid, m);
      if address == 0 || address > Paging.USER_PAGE_BOTTOM - 4 || address < Paging.PROGRAM_IMAGE {
        return -1, None;
      }
      VidmapRep(processes, activeFreq, activeProcesses, cpid, m);
      VidmapOk(m);
      MapCurrent();
      processes := processes[cpid := processes[cpid].(usingVideoMem := true)];
      m := Machine.VideoMapped(m);
      VideoBytes();
      PointerBytes(address);
      return 0, Some(Paging.USER_PAGE_BOTTOM);
    }

    /** terminal_write. */
    method TerminalWrite(buf: Option<string>) returns (r: int)
      requires Valid()
      modifies `m, display`screenX, display`screenY, display.vram
      ensures Valid() && (m, Return(r)) == Step(old(m), Write(buf))
    {
      hide Ok, Represents, ShowOk, PagesOk, PutText;
      Basics(m);
      if buf.None? {
        return -1;
      }
      PrintOut(buf.value);
      SameStacks(processes, activeFreq, activeProcesses, cpid, old(m), m);
      return |buf.value|;
    }

    /** terminal_read, once a line is ready: the copy loop and the reset of the line. */
    method TerminalRead(nbytes: int) returns (buf: string)
      requires Valid() && m.lines[m.turn].ready
      modifies `terminal, `m
      ensures Valid() && m == LineTaken(old(m)) && buf == ReadOut(old(m).lines[m.turn], nbytes)
    {
      hide Ok, Represents, ShowOk, PagesOk;
      Basics(m);
      CurrentFields(processes, activeFreq, activeProcesses, cpid, m);
      var t := processes[cpid].terminal;
      buf := "";
      var i := 0;
      while i < nbytes && i <= terminal[t].pos
        invariant 0 <= i <= terminal[t].pos + 1 && (nbytes <= 0 ==> i == 0) && (nbytes > 0 ==> i <= nbytes)
        invariant buf == terminal[t].buffer[..i]
      {
        buf := buf + [terminal[t].buffer[i]];
        i := i + 1;
      }
      terminal := terminal[t := terminal[t].(pos := 0)];
      terminal := terminal[t := terminal[t].(ready := false)];
      LineTakenOk(m);
      SameStacks(processes, activeFreq, activeProcesses, cpid, m, LineTaken(m));
      m := LineTaken(m);
    }

    // ----- runs -----

    /** The system calls on files and screens, which return to their caller or wait. */
    method Serve(e: Event) returns (o: Outcome)
      requires Valid() && Allowed(m, e)
      requires e.Write? || e.Read? || e.Open? || e.Close? || e.ReadFd? || e.WriteFd? || e.Vidmap?
      modifies this, display, display.vram, tables`cr3, tables.pageDir, tables.videoTables
      ensures Valid() && (m, o) == Step(old(m), e)
    {
      hide Ok, Represents, ShowOk, PagesOk, CloseFd, OpenFile, Print, Machine.VideoMapped, Rated, MoveCursor, ReadValue;
      hide Exec, Terminate, Timer, Keyed;
      Basics(m);
      var r := 0;
      match e {
        case Write(buf) =>
          r := TerminalWrite(buf);
        case Read(nbytes) =>
          CurrentFields(processes, activeFreq, activeProcesses, cpid, m);
          if !terminal[processes[cpid].terminal].ready {
            return Wait;
          }
          var buf := TerminalRead(nbytes);
          r := |buf|;
        case Open(file) =>
          r := Open(file);
          OpenFrom(old(m), file);
          PagesFrom(old(m.stacks), m.stacks);
        case Close(fd) =>
          r := Close(fd);
          CloseFrom(old(m), fd);
          PagesFrom(old(m.stacks), m.stacks);
        case ReadFd(fd, got) =>
          var name;
          r, name := Read(fd, got);
          CursorFrom(old(m), fd);
        case WriteFd(fd, rate, nbytes) =>
          r := WriteRate(fd, rate, nbytes);
          RatedFrom(old(m), fd, rate);
          PagesFrom(old(m.stacks), m.stacks);
        case Vidmap(address) =>
          var stored;
          r, stored := Vidmap(address);
        case _ =>
      }
      return Return(r);
    }

    /** One entry into the kernel. */
    method Take(e: Event) returns (o: Outcome)
      requires Valid() && Allowed(m, e)
      modifies this, display, display.vram, tables`cr3, tables.pageDir, tables.first4MB, tables.videoTables
      ensures Valid() && (m, o) == Step(old(m), e)
    {
      hide Ok, Represents, ShowOk, PagesOk, Exec, Terminate, Timer, Keyed, PutText;
      Basics(m);
      match e {
        case Execute(file, magic, at) =>
          o := Execute(file, magic, at);
        case Halt(status) =>
          o := EndProcess(status);
        case Fault(message) =>
          var _ := TerminalWrite(Some(message));
          o := EndProcess(256);
        case Tick(at) =>
          o := TaskSwitch(at);
        case Key(scancode, at) =>
          o := KeyboardHandler(scancode, at);
        case _ =>
          o := Serve(e);
      }
    }

    /** Main result: any run of the kernel over its tables is a run of the machine, with the same
        effect on the processor at every step. */
    method Run(es: seq<Event>) returns (os: seq<Outcome>)
      requires Valid() && MachineRuns.Admissible(m, es)
      modifies this, display, display.vram, tables`cr3, tables.pageDir, tables.first4MB, tables.videoTables
      ensures Valid() && m == MachineRuns.After(old(m), es) && os == MachineRuns.Outcomes(old(m), es)
    {
      hide Ok, Represents, ShowOk, PagesOk, Step, Allowed;
      os := [];
      var i := 0;
      assert es[0..] == es;
      while i < |es|
        invariant 0 <= i <= |es| && Valid() && MachineRuns.Admissible(m, es[i..])
        invariant MachineRuns.After(m, es[i..]) == MachineRuns.After(old(m), es)
        invariant os + MachineRuns.Outcomes(m, es[i..]) == MachineRuns.Outcomes(old(m), es)
      {
        assert es[i..][0] == es[i] && es[i..][1..] == es[i + 1..];
        var o := Take(es[i]);
        os := os + [o];
        i := i + 1;
      }
    }
  }
}
