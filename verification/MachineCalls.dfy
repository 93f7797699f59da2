/** What every step returns and what it does to the descriptors of the running process, in terms of the state
    before it: which slot a new process gets, which descriptor a file gets, and what the failing calls return.
 */
module MachineCalls {
  import opened Console
  import opened Keyboard
  import opened Machine
  import opened MachineLaws
  import opened MachineMoves
  import opened MachineRuns
  import Clock = Rtc
  import Paging
  import opened Wrappers

  /** The lowest slot that no process uses. */
  ghost predicate LowestFree(stacks: Stacks, p: nat) {
    1 <= p <= MAX_PROCESSES && Free(stacks, p) && forall q :: 1 <= q < p ==> !Free(stacks, q)
  }

  /** The lowest descriptor that is not in use. */
  predicate LowestClosed(files: seq<Handle>, fd: int) {
    0 <= fd < |files| && files[fd] == Closed && forall g :: 0 <= g < fd ==> files[g] != Closed
  }

  lemma {:induction false} FreshIsLowest(stacks: Stacks)
    ensures if HasSlot(stacks) then LowestFree(stacks, Fresh(stacks)) else Fresh(stacks) == 0
  {
    hide Free;
  }

  lemma {:induction false} FirstIsLowest(files: seq<Handle>)
    ensures if Closed in files then LowestClosed(files, FirstClosed(files, 0)) else FirstClosed(files, 0) == -1
  {
    SomeClosed(files, 0);
    assert files[0..] == files;
  }

  // ----- processes -----

  /** Changing the running process and not its slot frees and takes no slot. */
  lemma {:induction false} ProbedSlots(m: State, kind: FileKind)
    requires Ok(m)
    ensures forall p :: Free(Probed(m, kind).stacks, p) <==> Free(m.stacks, p)
  {
    var m1 := Probed(m, kind);
    forall p ensures Free(m1.stacks, p) <==> Free(m.stacks, p) {
      if kind == Rtc {
        SamePids(m.stacks, m1.stacks, p);
      }
    }
  }

  lemma {:induction false} SamePids(a: Stacks, b: Stacks, p: nat)
    requires |a| == |b|
    requires forall t :: 0 <= t < |a| ==> |a[t]| == |b[t]|
    requires forall t, i :: 0 <= t < |a| && 0 <= i < |a[t]| ==> a[t][i].pid == b[t][i].pid
    ensures Free(a, p) <==> Free(b, p)
  {
  }

  /** execute starts a process in the lowest free slot if the file exists and starts with the magic number and
      there is a descriptor to look at it and a slot; it returns -2 if only the slot is missing, and -1 otherwise. */
  lemma {:induction false} ExecuteReturns(m: State, file: Option<FileKind>, magic: bool, at: Context)
    requires Ok(m)
    ensures var o := Step(m, Execute(file, magic, at)).1;
      var program := file.Some? && magic && Closed in Current(m).files;
      if program && HasSlot(m.stacks) then o.Enter? && LowestFree(m.stacks, o.pid)
      else o == Return(if program then -2 else -1)
  {
    FirstIsLowest(Current(m).files);
    if file.Some? {
      ProbedSlots(m, file.value);
      FreshIsLowest(Probed(m, file.value).stacks);
    }
    hide Probed, Pushed, Fresh, FirstClosed, Free, Ok;
  }

  /** A process that was just started: standard input and output, no other file, no clock, no video page. */
  predicate Starting(task: Task, p: nat) {
    && task.pid == p && task.status == Running && task.rate == 0 && !task.vidmap
    && |task.files| == MAX_FD && task.files[0] == Stdin && task.files[1] == Stdout
    && forall f :: 2 <= f < MAX_FD ==> task.files[f] == Closed
  }

  /** The caller after execute looked at the command file: looking at the clock closes it again, which resets
      the rate of the process. */
  function Looked(m: State, file: Option<FileKind>): Task
    requires Ok(m)
  {
    if file == Some(Rtc) && Closed in Current(m).files then Current(m).(rate := 0) else Current(m)
  }

  lemma {:induction false} NewStarts(p: nat)
    ensures Starting(NewTask(p), p)
  {
  }

  lemma {:induction false} PushMove(stacks: Stacks, turn: nat, top: Task, p: nat)
    requires Enabled(stacks, turn, Push(top, p))
    ensures var r, st := Moves(stacks, turn, Push(top, p)).0, stacks[turn];
      && |r| == |stacks| && |r[turn]| == |st| + 1 && r[turn][..|st|] == WithTop(st, top) && Starting(r[turn][|st|], p)
      && forall t :: 0 <= t < NUM_TERMINALS && t != turn ==> r[t] == stacks[t]
  {
    NewStarts(p);
  }

  lemma {:induction false} RelaunchMove(stacks: Stacks, turn: nat, p: nat)
    requires Enabled(stacks, turn, Relaunch(p))
    ensures var r := Moves(stacks, turn, Relaunch(p)).0; |r| == |stacks| && |r[turn]| == 1 && Starting(r[turn][0], p)
  {
    NewStarts(p);
  }

  /** A successful execute leaves its caller waiting under a new process; a failing one leaves the stacks alone
      but for the caller's clock. */
  lemma {:induction false} ExecuteEffect(m: State, file: Option<FileKind>, magic: bool, at: Context)
    requires Ok(m)
    ensures var e := Execute(file, magic, at);
      var st, st', o := m.stacks[m.turn], After1(m, e).stacks[m.turn], Step(m, e).1;
      && (forall t :: 0 <= t < NUM_TERMINALS && t != m.turn ==> After1(m, e).stacks[t] == m.stacks[t])
      && (o.Enter? ==> |st'| == |st| + 1 && Starting(st'[|st|], o.pid)
                       && st'[..|st|] == WithTop(st, Looked(m, file).(status := Waiting(at))))
      && (!o.Enter? ==> st' == WithTop(st, Looked(m, file)))
  {
    assert |m.stacks| == NUM_TERMINALS && m.turn < NUM_TERMINALS && m.stacks[m.turn] != [];
    hide Step, After1, MoveOf, Ok, Looked, Starting, Free;
    var e := Execute(file, magic, at);
    StepMoves(m, e);
    ExecIs(m, file, magic, at);
    if Step(m, e).1.Enter? {
      hide Moves;
      PushMove(m.stacks, m.turn, Looked(m, file).(status := Waiting(at)), Step(m, e).1.pid);
    }
  }

  lemma {:induction false} ExecIs(m: State, file: Option<FileKind>, magic: bool, at: Context)
    requires Ok(m)
    ensures var o := Step(m, Execute(file, magic, at)).1;
      MoveOf(m, Execute(file, magic, at)) ==
      if o.Enter? then Push(Looked(m, file).(status := Waiting(at)), o.pid) else Same(Looked(m, file))
  {
    FirstIsLowest(Current(m).files);
    ProbeLooks(m, file);
    hide Probed, Pushed, Fresh, FirstClosed, Ok;
  }

  lemma {:induction false} ProbeLooks(m: State, file: Option<FileKind>)
    requires Ok(m)
    ensures file.Some? && Closed in Current(m).files ==>
      var m1 := Probed(m, file.value);
      m1.turn < |m1.stacks| && m1.stacks[m1.turn] != [] && Current(m1) == Looked(m, file)
  {
  }

  /** When the last process of a terminal ends, a shell starts in the lowest slot that the others do not use. */
  lemma {:induction false} EndRestarts(m: State, e: Event)
    requires Ok(m) && Allowed(m, e) && Ends(m, e) && |m.stacks[m.turn]| == 1
    ensures var o, st := Step(m, e).1, After1(m, e).stacks[m.turn];
      o.Enter? && LowestFree(m.stacks[m.turn := []], o.pid) && |st| == 1 && Starting(st[0], o.pid)
  {
    OwnSlot(m);
    FreshIsLowest(m.stacks[m.turn := []]);
    EndEnters(m, e);
    assert MoveOf(m, e) == Relaunch(Step(m, e).1.pid);
    hide Decode, Update, Fresh, PutText, LowestFree, HasSlot, Free, Echo, Step, After1, Starting, Moves, MoveOf, Ends;
    StepMoves(m, e);
    RelaunchMove(m.stacks, m.turn, Step(m, e).1.pid);
  }

  lemma {:induction false} EndEnters(m: State, e: Event)
    requires Ok(m) && Allowed(m, e) && Ends(m, e) && |m.stacks[m.turn]| == 1
    ensures Step(m, e).1 == Enter(Fresh(m.stacks[m.turn := []]))
  {
    if e.Key? {
      KeyEnds(m, e.scancode, e.at);
    }
    hide Decode, Update, Fresh, PutText, Echo;
  }

  lemma {:induction false} OwnSlot(m: State)
    requires Ok(m) && |m.stacks[m.turn]| == 1
    ensures HasSlot(m.stacks[m.turn := []])
  {
    var rest: Stacks := m.stacks[m.turn := []];
    var p := m.stacks[m.turn][0].pid;
    assert TaskOk(m.stacks[m.turn][0]);
    assert Free(rest, p);
  }

  /** Asking for a terminal without a process starts a shell there, in the lowest free slot, and stops the running
      process where it is. */
  lemma {:induction false} AskStarts(m: State, e: Event)
    requires Ok(m) && Allowed(m, e) && AsksAny(m, e) && m.stacks[Asked(m, e)] == [] && HasSlot(m.stacks)
    ensures var o, st := Step(m, e).1, After1(m, e).stacks[Asked(m, e)];
      o.Enter? && LowestFree(m.stacks, o.pid) && |st| == 1 && Starting(st[0], o.pid)
    ensures After1(m, e).stacks[m.turn] == WithTop(m.stacks[m.turn], Current(m).(status := Preempted(e.at)))
  {
    StartsAsked(m, e);
    FreshIsLowest(m.stacks);
    StartEnters(m, e);
    hide Decode, Update, Fresh, PutText, LowestFree, HasSlot, Free, Echo, Step, After1;
    StepMoves(m, e);
  }

  lemma {:induction false} StartEnters(m: State, e: Event)
    requires Ok(m) && Allowed(m, e) && Starts(m, e)
    ensures Step(m, e).1 == Enter(Fresh(m.stacks))
  {
    hide Decode, Update, Fresh, PutText, Echo;
  }

  /** Keys and ticks that end nothing, start nothing and do not move the turn return to where they came from. */
  lemma {:induction false} InterruptsReturn(m: State, e: Event)
    requires Ok(m) && Allowed(m, e) && (e.Key? || e.Tick?) && !Ends(m, e) && !Starts(m, e)
    requires After1(m, e).turn == m.turn
    ensures Step(m, e).1 == Return(0) && After1(m, e).stacks == m.stacks
  {
    if e.Key? {
      KeyStays(m, e.scancode, e.at);
    }
    hide Decode, Update, Fresh, PutText, Echo, Terminate;
  }

  // ----- what a process finds when it goes on -----

  lemma {:induction false} StepPops(m: State, e: Event, t: nat, h: nat)
    requires Ok(m) && Allowed(m, e) && t < NUM_TERMINALS && |m.stacks[t]| > h > 0 && |After1(m, e).stacks[t]| == h
    ensures m.turn == t == After1(m, e).turn
    ensures After1(m, e).stacks[t] == m.stacks[t][..h - 1] + [m.stacks[t][h - 1].(status := Running)]
  {
    hide Step, Decode, Update, Fresh;
    ShrinkEnds(m, e, t);
    ShrinkByOne(m, e);
    StepMoves(m, e);
  }

  lemma {:induction false} LookedRuns(m: State, file: Option<FileKind>)
    requires Ok(m)
    ensures Looked(m, file).status == Running
  {
    assert StatusOk(m.stacks, m.turn, m.turn, |m.stacks[m.turn]| - 1);
  }

  /** Whatever was executed in between, a caller comes back to its terminal with the descriptors, the rate and the
      video page that it had, except that looking at the clock resets the rate. */
  lemma {:induction false} CallerFinds(m: State, call: Event, es: seq<Event>, last: Event)
    requires Ok(m) && call.Execute? && Step(m, call).1.Enter?
    requires Admissible(After1(m, call), es) && Above(After1(m, call), es, m.turn, |m.stacks[m.turn]|)
    requires Allowed(After(After1(m, call), es), last)
    requires |After1(After(After1(m, call), es), last).stacks[m.turn]| == |m.stacks[m.turn]|
    ensures var m' := After1(After(After1(m, call), es), last);
      m'.turn == m.turn && m'.stacks[m.turn] == WithTop(m.stacks[m.turn], Looked(m, call.file))
  {
    LookedRuns(m, call.file);
    hide Ok, Step, After1, After, Above, Admissible, Looked, WithTop, Starting;
    HasTurn(m);
    var t, h, m1 := m.turn, |m.stacks[m.turn]|, After1(m, call);
    HasTurn(m1);
    HasTurn(After(m1, es));
    ExecuteEffect(m, call.file, call.magic, call.at);
    CallersKept(m1, es, t, h);
    StepPops(After(m1, es), last, t, h);
    Reassembled(m.stacks[t], After(m1, es).stacks[t], Looked(m, call.file), call.at);
  }

  lemma {:induction false} Reassembled(st: seq<Task>, s: seq<Task>, task: Task, at: Context)
    requires st != [] && |s| > |st| && s[..|st|] == WithTop(st, task.(status := Waiting(at))) && task.status == Running
    ensures s[..|st| - 1] + [s[|st| - 1].(status := Running)] == WithTop(st, task)
  {
    var h := |st|;
    assert s[..h - 1] == s[..h][..h - 1] == st[..h - 1] && s[h - 1] == s[..h][h - 1];
  }

  lemma {:induction false} PassesOver(stacks: Stacks, turn: nat, v: Move)
    requires Enabled(stacks, turn, v) && Moves(stacks, turn, v).1 != turn
    ensures v.Pass? || v.Start?
    ensures Moves(stacks, turn, v).0[turn] == WithTop(stacks[turn], Top(stacks[turn]).(status := Preempted(v.at)))
  {
  }

  lemma {:induction false} PassesTo(stacks: Stacks, turn: nat, v: Move, t: nat)
    requires Enabled(stacks, turn, v) && turn != t && Moves(stacks, turn, v).1 == t && t < |stacks| && stacks[t] != []
    ensures Moves(stacks, turn, v).0[t] == WithTop(stacks[t], Top(stacks[t]).(status := Running))
  {
  }

  /** Whatever other terminals do in between, a process that lost the processor gets it back with its whole
      terminal as it was. */
  lemma {:induction false} PreemptedFinds(m: State, stop: Event, es: seq<Event>, last: Event)
    requires Ok(m) && Allowed(m, stop) && After1(m, stop).turn != m.turn
    requires Admissible(After1(m, stop), es) && Elsewhere(After1(m, stop), es, m.turn)
    requires Allowed(After(After1(m, stop), es), last)
    requires After1(After(After1(m, stop), es), last).turn == m.turn
    ensures After1(After(After1(m, stop), es), last).stacks[m.turn] == m.stacks[m.turn]
  {
    LookedRuns(m, None);
    hide Ok, Step, After1, After, Elsewhere, Admissible, Moves, Enabled, MoveOf;
    HasTurn(m);
    var t, m1 := m.turn, After1(m, stop);
    var m2 := After(m1, es);
    HasTurn(m1);
    HasTurn(m2);
    StepMoves(m, stop);
    PassesOver(m.stacks, t, MoveOf(m, stop));
    OthersUntouched(m1, es, t);
    StepMoves(m2, last);
    PassesTo(m2.stacks, m2.turn, MoveOf(m2, last), t);
    SameTop(m.stacks, t);
  }

  // ----- files -----

  /** The step leaves everything alone but the running process. */
  ghost predicate OnlyRunning(m: State, m': State, task: Task)
    requires Ok(m)
  {
    m' == m.(stacks := m.stacks[m.turn := WithTop(m.stacks[m.turn], task)])
  }

  /** open gives a file the lowest descriptor that is not in use, and changes no other. */
  lemma {:induction false} OpenReturns(m: State, file: Option<FileKind>)
    requires Ok(m)
    ensures var m', o, task := After1(m, Open(file)), Step(m, Open(file)).1, Current(m);
      if file.Some? && Closed in task.files then
        && o.Return? && LowestClosed(task.files, o.value)
        && OnlyRunning(m, m', task.(files := task.files[o.value := Opened(file.value)]))
      else o == Return(-1) && m' == m
  {
    FirstIsLowest(Current(m).files);
    hide FirstClosed;
  }

  /** close takes every descriptor in use but the first two.  Closing the clock resets the rate, and closing a
      directory the shared cursor. */
  lemma {:induction false} CloseReturns(m: State, fd: int)
    requires Ok(m)
    ensures var m', o, task := After1(m, Close(fd)), Step(m, Close(fd)).1, Current(m);
      if 2 <= fd < MAX_FD && task.files[fd] != Closed then
        && o == Return(0)
        && OnlyRunning(m,
                       m'.(cursor := m.cursor),
                       task.(files := task.files[fd := Closed],
                             rate := if task.files[fd] == Opened(Rtc) then 0 else task.rate))
        && m'.cursor == if task.files[fd] == Opened(Dir) then 0 else m.cursor
      else o == Return(-1) && m' == m
  {
    hide FirstClosed;
  }

  /** Closing what open returned gives the descriptors back, but not the rate and not the cursor. */
  lemma {:induction false} OpenThenClose(m: State, file: Option<FileKind>)
    requires Ok(m) && file.Some? && Closed in Current(m).files
    ensures Step(m, Open(file)).1.Return?
    ensures var m' := After1(m, Open(file));
      var fd := Step(m, Open(file)).1.value;
      && Step(m', Close(fd)).1 == Return(0)
      && OnlyRunning(m, After1(m', Close(fd)).(cursor := m.cursor),
                     Current(m).(rate := if file.value == Rtc then 0 else Current(m).rate))
      && After1(m', Close(fd)).cursor == if file.value == Dir then 0 else m.cursor
  {
    OpenReturns(m, file);
    var m', fd, task := After1(m, Open(file)), Step(m, Open(file)).1.value, Current(m);
    var open := task.(files := task.files[fd := Opened(file.value)]);
    assert task.files[0] == Stdin && task.files[1] == Stdout;
    hide After1, Step, FirstClosed;
    Replaced(m.stacks, m.turn, open);
    CloseReturns(m', fd);
    assert open.files[fd := Closed] == task.files;
    var closed := task.(rate := if file.value == Rtc then 0 else task.rate);
    var st := WithTop(m.stacks[m.turn], closed);
    assert m'.stacks[m.turn := st] == m.stacks[m.turn := st];
  }

  /** A read fails on descriptors that are not in use and on the output; on a directory it returns the length of the
      entry under the cursor, and 0 past the last one. */
  lemma {:induction false} ReadReturns(m: State, fd: int, got: int)
    requires Ok(m) && fd != 0
    ensures Step(m, ReadFd(fd, got)).1 ==
      if fd <= 1 || fd >= MAX_FD || Current(m).files[fd] == Closed then Return(-1)
      else if Lists(m, fd) then Return(if m.cursor < |m.names| then |m.names[m.cursor]| else 0)
      else Return(got)
    ensures After1(m, ReadFd(fd, got)).(cursor := m.cursor) == m
  {
    assert TaskOk(Current(m));
  }

  /** A write sets the rate of the process if it goes to the clock and its value is 0 or a power of two up to 1024,
      and fails otherwise. */
  lemma {:induction false} RateReturns(m: State, fd: int, rate: Option<int>, nbytes: int)
    requires Ok(m) && fd != 1
    ensures var e := WriteFd(fd, rate, nbytes);
      var sets := && 2 <= fd < MAX_FD && Current(m).files[fd] == Opened(Rtc) && rate.Some?
                  && (rate.value == 0 || exists k: nat :: 1 <= k <= 10 && rate.value == Clock.Mask(k));
      && Step(m, e).1 == Return(if sets then nbytes else -1)
      && (sets ==> rate.value >= 0 && OnlyRunning(m, After1(m, e), Current(m).(rate := rate.value)))
      && (!sets ==> After1(m, e) == m)
  {
    assert TaskOk(Current(m));
    if rate.Some? {
      Clock.RatesArePowers(rate.value);
    }
  }

  /** vidmap marks the process if its pointer, all four bytes of it, lies in the program image. */
  lemma {:induction false} VidmapReturns(m: State, address: int)
    requires Ok(m)
    ensures var e := Vidmap(address);
      var inside := Paging.PROGRAM_IMAGE <= address && address + 4 <= Paging.PROGRAM_IMAGE + Paging.FOUR_MB;
      && Step(m, e).1 == Return(if inside then 0 else -1)
      && (inside ==> OnlyRunning(m, After1(m, e), Current(m).(vidmap := true)))
      && (!inside ==> After1(m, e) == m)
  {
  }

  /** A write to the screen returns the length of the buffer, and a null buffer is an error. */
  lemma {:induction false} WriteReturns(m: State, buf: Option<string>)
    requires Ok(m)
    ensures Step(m, Write(buf)).1 == Return(if buf.Some? then |buf.value| else -1)
    ensures After1(m, Write(buf)).(screens := m.screens) == m && (buf.None? ==> After1(m, Write(buf)) == m)
  {
    hide PutText;
  }
}
