/** The kernel as it looks from outside: three stacks of processes, one per terminal, and a turn that
    goes round the terminals that have a process.

    `execute` pushes on the stack of the terminal whose turn it is, `halt` pops, and the timer passes
    the turn on.  A process that lost the processor remembers where: a parent in the `execute` it
    waits for, a preempted process in the switch that stopped it.  There are no slots with stale
    fields, no parent links and no saved-context fields here; `Kernel` shows that the tables of
    syscalls.c and terminal.c implement this machine.
 */
module Machine {
  import opened Bytes
  import opened Console
  import opened Keyboard
  import Clock = Rtc
  import Paging
  import opened Wrappers

  const MAX_PROCESSES := 6
  const MAX_FD := 8
  const PROMPT: string := "391OS> "
  const RESTART_TEXT: string := ("Cannot c" + "lose las" + "t proces") + ("s! Resta" + "rting sh" + "ell...")
  const RESTARTING: string := RESTART_TEXT + "\n"

  /** A saved stack pointer and frame pointer. */
  datatype Context = Context(esp: int, ebp: int)

  datatype Status = Running | Preempted(at: Context) | Waiting(at: Context)

  datatype FileKind = Rtc | Dir | Plain

  datatype Handle = Closed | Stdin | Stdout | Opened(kind: FileKind)

  /** A process: its slot, where it stopped, its descriptors, its RTC rate, and whether it uses vidmap. */
  datatype Task = Task(pid: nat, status: Status, files: seq<Handle>, rate: nat, vidmap: bool)

  type Stacks = seq<seq<Task>>

  datatype State = State(
    stacks: Stacks,
    turn: nat,               // the terminal whose top process has the processor
    shown: nat,              // the terminal on the screen
    target: nat,             // the terminal that output of the running process reaches
    kill: seq<bool>,         // terminals whose process is to be halted when its turn comes
    cursor: nat,             // directory entries read since a directory was last closed
    mods: Modifiers,
    lines: seq<Line>,
    screens: seq<Screen>,
    names: seq<seq<byte>>)   // what reads of the directory return, entry by entry; never changes

  /** What a step does to the processor. */
  datatype Outcome =
    | Return(value: int)                             // back to the caller
    | Wait                                           // the call goes on waiting
    | Enter(pid: nat)                                // a fresh process starts in user mode
    | Resume(pid: nat, at: Context, value: int)      // a suspended process goes on from `at`

  datatype Event =
    | Execute(file: Option<FileKind>, magic: bool, at: Context)
    | Halt(status: nat)
    | Fault(message: string)
    | Tick(at: Context)
    | Key(scancode: nat, at: Context)
    | Write(buf: Option<string>)                              // to descriptor 1
    | Read(nbytes: int)                                       // from descriptor 0
    | WriteFd(fd: int, rate: Option<int>, nbytes: int)        // to another descriptor; the buffer holds a rate
    | ReadFd(fd: int, got: int)                               // from another; plain files and the RTC return `got`
    | Open(file: Option<FileKind>)
    | Close(fd: int)
    | Vidmap(address: int)

  // ----- slots -----

  ghost predicate Free(stacks: Stacks, p: nat) {
    forall t, i :: 0 <= t < |stacks| && 0 <= i < |stacks[t]| ==> stacks[t][i].pid != p
  }

  /** The lowest slot no process uses, from `p` on; 0 if there is none. */
  ghost function FreshFrom(stacks: Stacks, p: nat): (r: nat)
    requires p > 0
    ensures r == 0 || (p <= r <= MAX_PROCESSES && Free(stacks, r))
    ensures forall q :: p <= q <= MAX_PROCESSES && (r == 0 || q < r) ==> !Free(stacks, q)
    decreases MAX_PROCESSES + 1 - p
  {
    if p > MAX_PROCESSES then 0 else if Free(stacks, p) then p else FreshFrom(stacks, p + 1)
  }

  ghost function Fresh(stacks: Stacks): nat {
    FreshFrom(stacks, 1)
  }

  const FRESH_FILES: seq<Handle> := [Stdin, Stdout, Closed, Closed, Closed, Closed, Closed, Closed]

  function NewTask(pid: nat): Task {
    Task(pid, Running, FRESH_FILES, 0, false)
  }

  function Top(st: seq<Task>): Task
    requires st != []
  {
    st[|st| - 1]
  }

  function WithTop(st: seq<Task>, task: Task): seq<Task>
    requires st != []
  {
    st[..|st| - 1] + [task]
  }

  // ----- well-formed machines -----

  ghost predicate TaskOk(task: Task) {
    && 1 <= task.pid <= MAX_PROCESSES
    && |task.files| == MAX_FD && task.files[0] == Stdin && task.files[1] == Stdout
    && (forall f :: 2 <= f < MAX_FD ==> task.files[f] != Stdin && task.files[f] != Stdout)
    && (task.rate != 0 ==> Opened(Rtc) in task.files)
  }

  /** Parents wait, the top of the terminal in turn runs, and the other tops are preempted. */
  ghost predicate StatusOk(stacks: Stacks, turn: nat, t: nat, i: nat)
    requires t < |stacks| && i < |stacks[t]|
  {
    if i < |stacks[t]| - 1 then stacks[t][i].status.Waiting?
    else if t == turn then stacks[t][i].status.Running?
    else stacks[t][i].status.Preempted?
  }

  ghost predicate Distinct(stacks: Stacks) {
    forall t, i, u, j ::
      0 <= t < |stacks| && 0 <= i < |stacks[t]| && 0 <= u < |stacks| && 0 <= j < |stacks[u]| ==>
        (stacks[t][i].pid == stacks[u][j].pid ==> t == u && i == j)
  }

  ghost predicate StacksOk(stacks: Stacks, turn: nat) {
    && |stacks| == NUM_TERMINALS
    && Distinct(stacks)
    && (forall t, i :: 0 <= t < |stacks| && 0 <= i < |stacks[t]| ==>
          TaskOk(stacks[t][i]) && StatusOk(stacks, turn, t, i))
  }

  ghost predicate DirOpen(stacks: Stacks) {
    exists t, i :: 0 <= t < |stacks| && 0 <= i < |stacks[t]| && Opened(Dir) in stacks[t][i].files
  }

  /** What holds in every state after boot. */
  ghost predicate Ok(m: State) {
    && StacksOk(m.stacks, m.turn)
    && m.turn < NUM_TERMINALS && m.shown < NUM_TERMINALS && m.target < NUM_TERMINALS
    && m.stacks[m.turn] != [] && m.stacks[m.shown] != [] && m.stacks[0] != []
    && |m.kill| == NUM_TERMINALS && |m.lines| == NUM_TERMINALS && |m.screens| == NUM_TERMINALS
    && (forall t :: 0 <= t < NUM_TERMINALS ==> ValidLine(m.lines[t]))
    && (forall t :: 0 <= t < NUM_TERMINALS ==> OnScreen(m.screens[t]))
    && (m.cursor != 0 ==> DirOpen(m.stacks))
  }

  function Current(m: State): Task
    requires m.turn < |m.stacks| && m.stacks[m.turn] != []
  {
    Top(m.stacks[m.turn])
  }

  /** The machine with the running process replaced. */
  function WithCurrent(m: State, task: Task): State
    requires m.turn < |m.stacks| && m.stacks[m.turn] != []
  {
    m.(stacks := m.stacks[m.turn := WithTop(m.stacks[m.turn], task)])
  }

  // ----- output -----

  function OnTarget(m: State, s: Screen): State
    requires m.target < |m.screens|
  {
    m.(screens := m.screens[m.target := s])
  }

  function Print(m: State, text: string): State
    requires m.target < |m.screens| == NUM_TERMINALS && OnScreen(m.screens[m.target])
  {
    OnTarget(m, PutText(m.screens[m.target], text, ATTRIBUTES[m.target]))
  }

  /** clear, set_pos(0, 0) and the shell prompt. */
  function Prompted(s: Screen, attr: nat): (r: Screen)
    requires OnScreen(s)
    ensures OnScreen(r)
  {
    PutText(Moved(Cleared(s, attr), 0, 0), PROMPT, attr)
  }

  function Reprompt(m: State): State
    requires m.target < |m.screens| == NUM_TERMINALS && OnScreen(m.screens[m.target])
  {
    OnTarget(m, Prompted(m.screens[m.target], ATTRIBUTES[m.target]))
  }

  // ----- processes -----

  /** A base shell in slot `pid` becomes the only process of terminal `t` and gets the processor. */
  function Launched(m: State, t: nat, pid: nat): State
    requires t < |m.stacks| && t < |m.lines|
  {
    m.(stacks := m.stacks[t := [NewTask(pid)]], turn := t, lines := m.lines[t := Emptied(m.lines[t])])
  }

  /** Closing every descriptor of a process also rewinds the directory cursor if it had one open. */
  function CursorAfter(cursor: nat, files: seq<Handle>): nat {
    if Opened(Dir) in files then 0 else cursor
  }

  /** halt and exception_halt: pop, and start a new base shell if that was the last process. */
  ghost function Terminate(m: State, value: int): (r: (State, Outcome))
    requires Ok(m)
  {
    var st := m.stacks[m.turn];
    var m1 := m.(cursor := CursorAfter(m.cursor, Top(st).files));
    if |st| == 1 then
      var pid := Fresh(m.stacks[m.turn := []]);
      (Launched(Print(m1, RESTARTING), m.turn, pid), Enter(pid))
    else
      var parent := st[|st| - 2];
      (m1.(stacks := m.stacks[m.turn := st[..|st| - 2] + [parent.(status := Running)]]),
       Resume(parent.pid, parent.status.at, value))
  }

  /** The first free descriptor from `f` on, or -1. */
  function FirstClosed(files: seq<Handle>, f: nat): (r: int)
    requires f <= |files|
    ensures r == -1 || (f <= r < |files| && files[r] == Closed)
    ensures forall g :: f <= g < |files| && (r == -1 || g < r) ==> files[g] != Closed
    decreases |files| - f
  {
    if f == |files| then -1 else if files[f] == Closed then f else FirstClosed(files, f + 1)
  }

  /** What opening, reading and closing the command file leaves behind. */
  function Probed(m: State, kind: FileKind): State
    requires m.turn < |m.stacks| && m.stacks[m.turn] != []
  {
    match kind
    case Rtc => WithCurrent(m, Current(m).(rate := 0))
    case Dir => m.(cursor := 0)
    case Plain => m
  }

  /** The running process waits at `at` for a new one in slot `pid`. */
  function Pushed(m: State, pid: nat, at: Context): State
    requires m.turn < |m.stacks| && m.stacks[m.turn] != []
  {
    var parent := Current(m).(status := Waiting(at));
    m.(stacks := m.stacks[m.turn := WithTop(m.stacks[m.turn], parent) + [NewTask(pid)]])
  }

  /** execute: push a process on the stack of its parent. */
  ghost function Exec(m: State, file: Option<FileKind>, magic: bool, at: Context): (State, Outcome)
    requires Ok(m)
  {
    if file.None? || FirstClosed(Current(m).files, 0) == -1 then (m, Return(-1))
    else
      var m1 := Probed(m, file.value);
      var pid := Fresh(m1.stacks);
      if !magic then (m1, Return(-1))
      else if pid == 0 then (m1, Return(-2))
      else (Pushed(m1, pid, at), Enter(pid))
  }

  /** The next terminal with a process, going round from `t`. */
  function Next(stacks: Stacks, t: nat): (n: nat)
    requires |stacks| == NUM_TERMINALS && t < NUM_TERMINALS && stacks[t] != []
    ensures n < NUM_TERMINALS && stacks[n] != []
  {
    if stacks[(t + 1) % 3] != [] then (t + 1) % 3
    else if stacks[(t + 2) % 3] != [] then (t + 2) % 3
    else t
  }

  /** The processor goes from the running process to the top of terminal `n`. */
  function Handover(m: State, n: nat, at: Context): State
    requires Ok(m) && n < NUM_TERMINALS && m.stacks[n] != [] && n != m.turn
  {
    var m1 := WithCurrent(m, Current(m).(status := Preempted(at)));
    m1.(stacks := m1.stacks[n := WithTop(m.stacks[n], Top(m.stacks[n]).(status := Running))], turn := n, target := n)
  }

  /** task_switch. */
  ghost function Timer(m: State, at: Context): (State, Outcome)
    requires Ok(m)
  {
    if m.kill[m.turn] then Terminate(Reprompt(m.(kill := m.kill[m.turn := false])), 256)
    else
      var n := Next(m.stacks, m.turn);
      if n == m.turn then (m, Return(0))
      else (Handover(m, n, at), Resume(Top(m.stacks[n]).pid, Top(m.stacks[n]).status.at, 0))
  }

  // ----- keys -----

  /** The echo of an edit on the shown screen. */
  function Echo(s: Screen, l: Line, a: Action, attr: nat): (r: Screen)
    requires OnScreen(s) && (a.Erase? && l.pos > 0 ==> s.x > 0 || s.y > 0)
    ensures OnScreen(r)
  {
    match a
    case Insert(c) => if l.pos < BUFFER_SIZE - 1 then PutChar(s, c, attr) else s
    case Erase => if l.pos == 0 then s else Backspaced(s, attr)
    case Submit => PutChar(s, '\n', attr)
    case Interrupt => Prompted(s, attr)
    case Redraw => Prompted(s, attr)
    case SwitchTo(_) => s
    case Nothing => s
  }

  /** The shown terminal's line and screen under an action. */
  function Edited(m: State, a: Action): State
    requires Ok(m) && (a.Erase? && m.lines[m.shown].pos > 0 ==> m.screens[m.shown].x > 0 || m.screens[m.shown].y > 0)
  {
    var s := m.shown;
    m.(lines := m.lines[s := Edit(m.lines[s], a)],
       screens := m.screens[s := Echo(m.screens[s], m.lines[s], a, ATTRIBUTES[s])])
  }

  /** A base shell starts on the blank screen of terminal `t`, which is now shown. */
  function Started(m: State, t: nat, pid: nat, at: Context): State
    requires m.turn < |m.stacks| && m.stacks[m.turn] != []
    requires t < NUM_TERMINALS && t < |m.stacks| && t < |m.lines| && t < |m.screens|
  {
    var m1 := WithCurrent(m, Current(m).(status := Preempted(at)));
    Launched(m1.(screens := m.screens[t := Cleared(m.screens[t], ATTRIBUTES[t])], shown := t, target := t), t, pid)
  }

  /** terminal_switch. */
  ghost function Switch(m: State, t: nat, at: Context): (State, Outcome)
    requires Ok(m) && t < NUM_TERMINALS
  {
    if t == m.shown then (m.(target := m.shown), Return(0))
    else if m.stacks[t] != [] then (m.(shown := t, target := m.turn), Return(0))
    else
      var pid := Fresh(m.stacks);
      if pid == 0 then (m.(target := m.turn), Return(0))
      else (Started(m, t, pid, at), Enter(pid))
  }

  /** keyboardHandler. */
  ghost function Keyed(m: State, scancode: nat, at: Context): (State, Outcome)
    requires Ok(m) && Allowed(m, Key(scancode, at))
  {
    var m1 := m.(mods := Update(m.mods, scancode));
    var a := Decode(m1.mods, scancode);
    if a.SwitchTo? then Switch(m1, a.terminal, at)
    else
      var m2 := Edited(m1, a).(target := m.turn);
      if !a.Interrupt? then (m2, Return(0))
      else if m.turn == m.shown then Terminate(m2, 256)
      else (m2.(kill := m.kill[m.shown := true]), Return(0))
  }

  // ----- files -----

  function CloseFd(m: State, fd: int): (State, int)
    requires Ok(m)
  {
    var task := Current(m);
    if fd < 2 || fd >= MAX_FD || task.files[fd] == Closed then (m, -1)
    else
      var closed := task.(files := task.files[fd := Closed]);
      match task.files[fd]
      case Opened(Rtc) => (WithCurrent(m, closed.(rate := 0)), 0)
      case Opened(Dir) => (WithCurrent(m, closed).(cursor := 0), 0)
      case _ => (WithCurrent(m, closed), 0)
  }

  function OpenFile(m: State, file: Option<FileKind>): (State, int)
    requires Ok(m)
  {
    var fd := FirstClosed(Current(m).files, 0);
    if file.None? || fd == -1 then (m, -1)
    else (WithCurrent(m, Current(m).(files := Current(m).files[fd := Opened(file.value)])), fd)
  }

  predicate Holds(m: State, fd: int, h: Handle)
    requires Ok(m)
  {
    0 <= fd < MAX_FD && Current(m).files[fd] == h
  }

  /** A read through a directory descriptor. */
  function MoveCursor(m: State, fd: int): State
    requires Ok(m)
  {
    if Holds(m, fd, Opened(Dir)) && m.cursor < |m.names| then m.(cursor := m.cursor + 1) else m
  }

  /** What a read through a descriptor other than 0 returns. */
  function ReadValue(m: State, fd: int, got: int): int
    requires Ok(m)
  {
    if fd < 0 || fd >= MAX_FD then -1
    else
      match Current(m).files[fd]
      case Closed => -1
      case Stdout => -1
      case Opened(Dir) => if m.cursor < |m.names| then |m.names[m.cursor]| else 0
      case _ => got
  }

  /** A write through a descriptor sets the RTC rate of the process. */
  predicate SetsRate(m: State, fd: int, rate: Option<int>)
    requires Ok(m)
  {
    Holds(m, fd, Opened(Rtc)) && rate.Some? && Clock.Rate(rate.value)
  }

  function Rated(m: State, fd: int, rate: Option<int>): State
    requires Ok(m)
  {
    if SetsRate(m, fd, rate) then WithCurrent(m, Current(m).(rate := rate.value)) else m
  }

  /** vidmap accepts the address of a pointer inside the program image. */
  predicate InImage(address: int) {
    Paging.PROGRAM_IMAGE <= address <= Paging.USER_PAGE_BOTTOM - 4
  }

  function VideoMapped(m: State): State
    requires Ok(m)
  {
    WithCurrent(m, Current(m).(vidmap := true))
  }

  function LineTaken(m: State): State
    requires Ok(m)
  {
    m.(lines := m.lines[m.turn := Emptied(m.lines[m.turn])])
  }

  // ----- steps and runs -----

  /** The steps the console can draw: a backspace with the cursor at the origin would leave the screen.
      Reads of descriptor 0 and writes to descriptor 1 are the events Read and Write. */
  predicate Allowed(m: State, e: Event)
    requires Ok(m)
  {
    match e
    case Halt(status) => status < 256
    case ReadFd(fd, _) => fd != 0
    case WriteFd(fd, _, _) => fd != 1
    case Key(scancode, _) =>
      scancode == BACKSPACE && m.lines[m.shown].pos > 0 ==> m.screens[m.shown].x > 0 || m.screens[m.shown].y > 0
    case _ => true
  }

  ghost function Step(m: State, e: Event): (State, Outcome)
    requires Ok(m) && Allowed(m, e)
  {
    match e
    case Execute(file, magic, at) => Exec(m, file, magic, at)
    case Halt(status) => Terminate(m, status)
    case Fault(message) => Terminate(Print(m, message), 256)
    case Tick(at) => Timer(m, at)
    case Key(scancode, at) => Keyed(m, scancode, at)
    case Write(buf) => if buf.None? then (m, Return(-1)) else (Print(m, buf.value), Return(|buf.value|))
    case Read(nbytes) =>
      if !m.lines[m.turn].ready then (m, Wait)
      else (LineTaken(m), Return(|ReadOut(m.lines[m.turn], nbytes)|))
    case Open(file) => var (m', r) := OpenFile(m, file); (m', Return(r))
    case Close(fd) => var (m', r) := CloseFd(m, fd); (m', Return(r))
    case ReadFd(fd, got) => (MoveCursor(m, fd), Return(ReadValue(m, fd, got)))
    case WriteFd(fd, rate, nbytes) => (Rated(m, fd, rate), Return(if SetsRate(m, fd, rate) then nbytes else -1))
    case Vidmap(address) => if InImage(address) then (VideoMapped(m), Return(0)) else (m, Return(-1))
  }
}
