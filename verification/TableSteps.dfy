/** How the updates that system calls make to single slots of the process table show in the machine. */
module TableSteps {
  import opened Console
  import opened Machine
  import opened MachineInvariant
  import opened ProcessTable
  import opened Wrappers

  /** The table represents a well-formed machine whose running process is in slot `cpid`. */
  ghost predicate Represents(procs: seq<Pcb>, freq: seq<nat>, active: seq<nat>, cpid: nat, m: State) {
    Ok(m) && TableRep(procs, freq, active, m.stacks) && cpid == Current(m).pid && !procs[0].active
  }

  lemma {:induction false} Establish(procs: seq<Pcb>, freq: seq<nat>, active: seq<nat>, cpid: nat, m: State)
    requires Ok(m) && TableRep(procs, freq, active, m.stacks) && cpid == Current(m).pid && !procs[0].active
    ensures Represents(procs, freq, active, cpid, m)
  {
  }

  /** The slot of the running process. */
  lemma {:induction false} CurrentSlot(procs: seq<Pcb>, freq: seq<nat>, active: seq<nat>, cpid: nat, m: State)
    requires Represents(procs, freq, active, cpid, m)
    ensures Ok(m) && m.turn < NUM_TERMINALS == |m.stacks| && m.stacks[m.turn] != [] && cpid == Current(m).pid
    ensures TableRep(procs, freq, active, m.stacks) && !procs[0].active
    ensures 1 <= cpid <= MAX_PROCESSES && |procs| == NUM_SLOTS && |freq| == NUM_SLOTS && |active| == NUM_TERMINALS
    ensures |Current(m).files| == MAX_FD && |procs[cpid].fds| == MAX_FD
    ensures var st := m.stacks[m.turn];
      SlotRep(procs[cpid], freq[cpid], Current(m), m.turn, PpidAt(st, |st| - 1), true)
  {
    assert SlotAt(procs, freq, m.stacks[m.turn], m.turn, |m.stacks[m.turn]| - 1);
  }

  lemma {:induction false} CurrentFields(procs: seq<Pcb>, freq: seq<nat>, active: seq<nat>, cpid: nat, m: State)
    requires Represents(procs, freq, active, cpid, m)
    ensures m.turn < NUM_TERMINALS == |m.stacks| && m.stacks[m.turn] != [] && cpid == Current(m).pid
    ensures TableRep(procs, freq, active, m.stacks)
    ensures 1 <= cpid <= MAX_PROCESSES && |procs| == NUM_SLOTS && |active| == NUM_TERMINALS
    ensures procs[cpid].terminal == m.turn && procs[cpid].usingVideoMem == Current(m).vidmap
  {
    CurrentSlot(procs, freq, active, cpid, m);
  }

  /** The table says nothing about screens, lines, flags and cursors. */
  lemma {:induction false} SameStacks(procs: seq<Pcb>, freq: seq<nat>, active: seq<nat>, cpid: nat, m: State, m': State)
    requires Represents(procs, freq, active, cpid, m) && Ok(m') && m'.stacks == m.stacks && m'.turn == m.turn
    ensures Represents(procs, freq, active, cpid, m')
  {
  }

  /** The slot of a process is its own. */
  lemma {:induction false} UniqueIn(m: State, t: nat, i: nat)
    requires Ok(m) && t < NUM_TERMINALS && i < |m.stacks[t]|
    ensures OnlyAt(m.stacks, m.stacks[t][i].pid, t, i) && 1 <= m.stacks[t][i].pid <= MAX_PROCESSES
  {
    Unique(m.stacks, t, i);
  }

  /** The running process changed in place. */
  lemma {:induction false} CurrentRep(procs: seq<Pcb>, freq: seq<nat>, active: seq<nat>, cpid: nat, m: State,
                                      task: Task, pcb: Pcb, f: nat)
    requires Represents(procs, freq, active, cpid, m) && task.pid == cpid < NUM_SLOTS && |procs| == |freq| == NUM_SLOTS
    requires SlotRep(pcb, f, task, m.turn, PpidAt(m.stacks[m.turn], |m.stacks[m.turn]| - 1), true)
    ensures TableRep(procs[cpid := pcb], freq[cpid := f], active, WithCurrent(m, task).stacks)
    ensures Current(WithCurrent(m, task)) == task
  {
    CurrentSlot(procs, freq, active, cpid, m);
    UniqueIn(m, m.turn, |m.stacks[m.turn]| - 1);
    hide Ok, Represents, TableRep, SlotRep, OnlyAt;
    TopRep(procs, freq, active, m.stacks, m.turn, task, pcb, f);
  }

  function ClosedPcb(p: Pcb, fd: nat): Pcb
    requires fd < |p.fds|
  {
    p.(fds := p.fds[fd := p.fds[fd].(inUse := false)])
  }

  function ClosedTask(task: Task, fd: nat): Task
    requires fd < |task.files|
  {
    task.(files := task.files[fd := Closed], rate := if task.files[fd] == Opened(Rtc) then 0 else task.rate)
  }

  lemma {:induction false} ClosedSlot(p: Pcb, freq: nat, task: Task, t: nat, ppid: nat, fd: nat)
    requires SlotRep(p, freq, task, t, ppid, true) && fd < MAX_FD && p.fds[fd].inUse
    ensures var f := if task.files[fd] == Opened(Rtc) then 0 else freq;
      SlotRep(ClosedPcb(p, fd), f, ClosedTask(task, fd), t, ppid, true)
    ensures HandleRep(p.fds[fd], task.files[fd]) && task.files[fd] != Closed
  {
  }

  lemma {:induction false} CloseIs(m: State, fd: nat)
    requires Ok(m) && 2 <= fd < MAX_FD && |Current(m).files| == MAX_FD && Current(m).files[fd] != Closed
    ensures Current(m).files[fd].Opened?
    ensures CloseFd(m, fd) ==
      (WithCurrent(m, ClosedTask(Current(m), fd))
         .(cursor := if Current(m).files[fd] == Opened(Dir) then 0 else m.cursor), 0)
  {
    assert TaskOk(Current(m));
  }

  /** close of a descriptor in use. */
  lemma {:induction false} CloseRep(procs: seq<Pcb>, freq: seq<nat>, active: seq<nat>, cpid: nat, m: State, fd: nat)
    requires Represents(procs, freq, active, cpid, m) && 2 <= fd < MAX_FD
    requires cpid < |procs| && fd < |procs[cpid].fds| && procs[cpid].fds[fd].inUse && cpid < |freq|
    ensures var (m', r) := CloseFd(m, fd);
      var file := procs[cpid].fds[fd];
      && r == 0 && Ok(m') && (file.jumptable == RtcOps || file.jumptable == FsOps)
      && m' == m.(stacks := m'.stacks, cursor := if file.jumptable == FsOps && file.filetype == 1 then 0 else m.cursor)
      && Represents(procs[cpid := ClosedPcb(procs[cpid], fd)],
                    if file.jumptable == RtcOps then freq[cpid := 0] else freq, active, cpid, m')
  {
    hide Ok, CloseFd, TableRep, SlotRep, Represents;
    CurrentSlot(procs, freq, active, cpid, m);
    CloseOk(m, fd);
    var task := Current(m);
    var st := m.stacks[m.turn];
    ClosedSlot(procs[cpid], freq[cpid], task, m.turn, PpidAt(st, |st| - 1), fd);
    CloseIs(m, fd);
    var f := if task.files[fd] == Opened(Rtc) then 0 else freq[cpid];
    CurrentRep(procs, freq, active, cpid, m, ClosedTask(task, fd), ClosedPcb(procs[cpid], fd), f);
    assert f == freq[cpid] ==> freq[cpid := f] == freq;
    Establish(procs[cpid := ClosedPcb(procs[cpid], fd)], freq[cpid := f], active, cpid, CloseFd(m, fd).0);
  }

  lemma {:induction false} CloseRefused(procs: seq<Pcb>, freq: seq<nat>, active: seq<nat>, cpid: nat, m: State, fd: int)
    requires Represents(procs, freq, active, cpid, m) && cpid < |procs| && |procs[cpid].fds| == MAX_FD
    requires fd < 2 || fd >= MAX_FD || !procs[cpid].fds[fd].inUse
    ensures CloseFd(m, fd) == (m, -1)
  {
    CurrentSlot(procs, freq, active, cpid, m);
    if 2 <= fd < MAX_FD {
      assert HandleRep(procs[cpid].fds[fd], Current(m).files[fd]);
    }
  }

  function OpenedPcb(p: Pcb, fd: nat, kind: FileKind): Pcb
    requires fd < |p.fds|
  {
    p.(fds := p.fds[fd := File(if TypeOf(kind) == 0 then RtcOps else FsOps, TypeOf(kind), true)])
  }

  /** The first descriptor not in use is the first closed one. */
  lemma {:induction false} FirstUnused(p: Pcb, files: seq<Handle>, fd: nat)
    requires FilesRep(p.fds, files) && fd <= MAX_FD
    requires forall f :: 0 <= f < fd ==> p.fds[f].inUse
    requires fd == MAX_FD || !p.fds[fd].inUse
    ensures FirstClosed(files, 0) == if fd == MAX_FD then -1 else fd
  {
    assert forall f :: 0 <= f < MAX_FD ==> HandleRep(p.fds[f], files[f]);
  }

  /** open of an existing file, with `fd` the first descriptor not in use. */
  lemma {:induction false} OpenRep(procs: seq<Pcb>, freq: seq<nat>, active: seq<nat>, cpid: nat, m: State, fd: nat,
                                   kind: FileKind)
    requires Represents(procs, freq, active, cpid, m) && fd < MAX_FD
    requires FirstClosed(Current(m).files, 0) == fd && cpid < |procs| && |procs[cpid].fds| == MAX_FD
    ensures var (m', r) := OpenFile(m, Some(kind));
      r == fd && Ok(m') && m' == m.(stacks := m'.stacks)
      && Represents(procs[cpid := OpenedPcb(procs[cpid], fd, kind)], freq, active, cpid, m')
  {
    hide Ok, TableRep, Represents;
    CurrentSlot(procs, freq, active, cpid, m);
    OpenOk(m, Some(kind));
    var task := Current(m);
    var grown := task.(files := task.files[fd := Opened(kind)]);
    CurrentRep(procs, freq, active, cpid, m, grown, OpenedPcb(procs[cpid], fd, kind), freq[cpid]);
    assert freq[cpid := freq[cpid]] == freq;
    Establish(procs[cpid := OpenedPcb(procs[cpid], fd, kind)], freq, active, cpid, OpenFile(m, Some(kind)).0);
  }

  /** Whether descriptor `fd` of the running process leads to a file of this kind. */
  lemma {:induction false} HoldsRep(procs: seq<Pcb>, freq: seq<nat>, active: seq<nat>, cpid: nat, m: State, fd: int,
                                    kind: FileKind)
    requires Represents(procs, freq, active, cpid, m) && cpid < |procs| && |procs[cpid].fds| == MAX_FD
    ensures Holds(m, fd, Opened(kind)) <==>
      0 <= fd < MAX_FD && procs[cpid].fds[fd].inUse
      && procs[cpid].fds[fd].jumptable == (if kind.Rtc? then RtcOps else FsOps)
      && (!kind.Rtc? ==> procs[cpid].fds[fd].filetype == TypeOf(kind))
  {
    CurrentSlot(procs, freq, active, cpid, m);
    if 0 <= fd < MAX_FD {
      assert HandleRep(procs[cpid].fds[fd], Current(m).files[fd]);
    }
  }

  lemma {:induction false} RateRep(procs: seq<Pcb>, freq: seq<nat>, active: seq<nat>, cpid: nat, m: State, fd: int,
                                   rate: nat)
    requires Represents(procs, freq, active, cpid, m) && Holds(m, fd, Opened(Rtc)) && cpid < |freq|
    ensures Represents(procs, freq[cpid := rate], active, cpid, WithCurrent(m, Current(m).(rate := rate)))
  {
    CurrentSlot(procs, freq, active, cpid, m);
    WithCurrentOk(m, Current(m).(rate := rate), m.cursor);
    CurrentRep(procs, freq, active, cpid, m, Current(m).(rate := rate), procs[cpid], rate);
    assert procs[cpid := procs[cpid]] == procs;
  }

  lemma {:induction false} VidmapRep(procs: seq<Pcb>, freq: seq<nat>, active: seq<nat>, cpid: nat, m: State)
    requires Represents(procs, freq, active, cpid, m) && cpid < |procs|
    ensures Represents(procs[cpid := procs[cpid].(usingVideoMem := true)], freq, active, cpid,
                       WithCurrent(m, Current(m).(vidmap := true)))
  {
    CurrentSlot(procs, freq, active, cpid, m);
    WithCurrentOk(m, Current(m).(vidmap := true), m.cursor);
    var pcb := procs[cpid].(usingVideoMem := true);
    CurrentRep(procs, freq, active, cpid, m, Current(m).(vidmap := true), pcb, freq[cpid]);
    assert freq[cpid := freq[cpid]] == freq;
  }

  /** The running process is stopped and its context saved. */
  lemma {:induction false} PreemptRep(procs: seq<Pcb>, freq: seq<nat>, active: seq<nat>, cpid: nat, m: State,
                                      at: Context)
    requires Represents(procs, freq, active, cpid, m) && cpid < |procs|
    ensures TableRep(procs[cpid := procs[cpid].(switch := at)], freq, active,
                     WithCurrent(m, Current(m).(status := Preempted(at))).stacks)
  {
    CurrentSlot(procs, freq, active, cpid, m);
    var pcb := procs[cpid].(switch := at);
    CurrentRep(procs, freq, active, cpid, m, Current(m).(status := Preempted(at)), pcb, freq[cpid]);
    assert freq[cpid := freq[cpid]] == freq;
  }

  /** The processor goes to the top of terminal `n`, whose slot holds the context to load. */
  lemma {:induction false} HandoverRep(procs: seq<Pcb>, freq: seq<nat>, active: seq<nat>, cpid: nat, m: State,
                                       n: nat, at: Context)
    requires Represents(procs, freq, active, cpid, m) && cpid < |procs|
    requires n < NUM_TERMINALS && m.stacks[n] != [] && n != m.turn
    ensures var next := Top(m.stacks[n]);
      && 1 <= next.pid < NUM_SLOTS && |procs| == NUM_SLOTS && next.pid != cpid
      && next.status == Preempted(procs[next.pid].switch) && procs[next.pid].terminal == n
      && procs[next.pid].usingVideoMem == next.vidmap
      && Represents(procs[cpid := procs[cpid].(switch := at)], freq, active, next.pid, Handover(m, n, at))
  {
    var next, k := Top(m.stacks[n]), |m.stacks[n]| - 1;
    assert SlotAt(procs, freq, m.stacks[n], n, k);
    CurrentSlot(procs, freq, active, cpid, m);
    PreemptRep(procs, freq, active, cpid, m, at);
    NoTurnOk(m.stacks, m.turn, at);
    HandoverOk(m, n, at);
    ResumeRep(procs[cpid := procs[cpid].(switch := at)], freq, active,
              WithCurrent(m, Current(m).(status := Preempted(at))).stacks, n);
  }

  lemma {:induction false} ResumeRep(procs: seq<Pcb>, freq: seq<nat>, active: seq<nat>, stacks: Stacks, n: nat)
    requires TableRep(procs, freq, active, stacks) && Distinct(stacks) && n < NUM_TERMINALS && stacks[n] != []
    ensures TableRep(procs, freq, active, stacks[n := WithTop(stacks[n], Top(stacks[n]).(status := Running))])
  {
    var next, k := Top(stacks[n]), |stacks[n]| - 1;
    assert SlotAt(procs, freq, stacks[n], n, k);
    Unique(stacks, n, k);
    TopRep(procs, freq, active, stacks, n, next.(status := Running), procs[next.pid], freq[next.pid]);
    assert procs[next.pid := procs[next.pid]] == procs && freq[next.pid := freq[next.pid]] == freq;
  }

  // ----- the end of a process -----

  /** The running process has closed its descriptors. */
  ghost predicate AllClosed(task: Task) {
    task.rate == 0 && |task.files| == MAX_FD && forall f :: 2 <= f < MAX_FD ==> task.files[f] == Closed
  }

  lemma {:induction false} EndedSlot(procs: seq<Pcb>, freq: seq<nat>, active: seq<nat>, cpid: nat, m: State)
    requires Represents(procs, freq, active, cpid, m) && AllClosed(Current(m)) && cpid < |procs| && cpid < |freq|
    ensures FreeSlot(procs[cpid].(running := false, active := false), freq[cpid])
    ensures procs[cpid].terminal == m.turn
    ensures procs[cpid].ppid == if |m.stacks[m.turn]| == 1 then 0 else m.stacks[m.turn][|m.stacks[m.turn]| - 2].pid
  {
    CurrentSlot(procs, freq, active, cpid, m);
    assert forall f :: 0 <= f < MAX_FD ==> HandleRep(procs[cpid].fds[f], Current(m).files[f]);
  }

  /** The slot of the parent holds the context in which it waits. */
  lemma {:induction false} ParentSlot(procs: seq<Pcb>, freq: seq<nat>, active: seq<nat>, cpid: nat, m: State)
    requires Represents(procs, freq, active, cpid, m) && |m.stacks[m.turn]| >= 2
    ensures var k := |m.stacks[m.turn]| - 2;
      var par := m.stacks[m.turn][k];
      && 1 <= par.pid < NUM_SLOTS && |procs| == NUM_SLOTS && |freq| == NUM_SLOTS && par.pid != cpid
      && par.status == Waiting(procs[par.pid].execute)
      && SlotRep(procs[par.pid], freq[par.pid], par, m.turn, PpidAt(m.stacks[m.turn], k), false)
  {
    var k := |m.stacks[m.turn]| - 2;
    assert SlotAt(procs, freq, m.stacks[m.turn], m.turn, k);
    assert StatusOk(m.stacks, m.turn, m.turn, k);
  }

  /** The end of a process with a parent. */
  lemma {:induction false} PopStep(procs: seq<Pcb>, freq: seq<nat>, active: seq<nat>, cpid: nat, m: State, par: Task)
    requires Represents(procs, freq, active, cpid, m) && AllClosed(Current(m)) && |m.stacks[m.turn]| >= 2
    requires par == m.stacks[m.turn][|m.stacks[m.turn]| - 2]
    requires cpid < |procs| && par.pid < |procs| && |active| == NUM_TERMINALS
    ensures TableRep(procs[cpid := procs[cpid].(running := false, active := false)]
                          [par.pid := procs[par.pid].(active := true)],
                     freq, active[m.turn := par.pid], m.stacks[m.turn := Popped(m.stacks[m.turn])])
  {
    hide Ok, TableRep, Represents, OnlyAt;
    ParentSlot(procs, freq, active, cpid, m);
    CurrentSlot(procs, freq, active, cpid, m);
    EndedSlot(procs, freq, active, cpid, m);
    UniqueIn(m, m.turn, |m.stacks[m.turn]| - 2);
    UniqueIn(m, m.turn, |m.stacks[m.turn]| - 1);
    PopRep(procs, freq, active, m.stacks, m.turn, procs[cpid].(running := false, active := false), par,
           procs[par.pid].(active := true));
  }

  /** The end of the last process of a terminal. */
  lemma {:induction false} EmptyStep(procs: seq<Pcb>, freq: seq<nat>, active: seq<nat>, cpid: nat, m: State)
    requires Represents(procs, freq, active, cpid, m) && AllClosed(Current(m)) && |m.stacks[m.turn]| == 1
    requires cpid < |procs| && |active| == NUM_TERMINALS
    ensures TableRep(procs[cpid := procs[cpid].(running := false, active := false)], freq, active[m.turn := 0],
                     m.stacks[m.turn := []])
  {
    CurrentSlot(procs, freq, active, cpid, m);
    EndedSlot(procs, freq, active, cpid, m);
    Unique(m.stacks, m.turn, 0);
    EmptyRep(procs, freq, active, m.stacks, m.turn, procs[cpid].(running := false, active := false));
  }

  // ----- a new process -----

  /** execute in slot `pid`: the parent keeps its context for the return. */
  lemma {:induction false} PushStep(procs: seq<Pcb>, freq: seq<nat>, active: seq<nat>, cpid: nat, m: State,
                                    pid: nat, pcb: Pcb, at: Context)
    requires Represents(procs, freq, active, cpid, m) && 1 <= pid <= MAX_PROCESSES && Free(m.stacks, pid)
    requires cpid < |procs| && |active| == NUM_TERMINALS
    requires SlotRep(pcb, 0, NewTask(pid), m.turn, cpid, true)
    ensures |procs| == NUM_SLOTS && Ok(Pushed(m, pid, at))
    ensures TableRep(procs[pid := pcb][cpid := procs[cpid].(active := false, execute := at)], freq,
                     active[m.turn := pid], Pushed(m, pid, at).stacks)
  {
    CurrentSlot(procs, freq, active, cpid, m);
    Unique(m.stacks, m.turn, |m.stacks[m.turn]| - 1);
    PushedOk(m, pid, at);
    PushRep(procs, freq, active, m.stacks, m.turn, Current(m).(status := Waiting(at)),
            procs[cpid].(active := false, execute := at), pid, pcb);
  }

  // ----- descriptors never outlive their process -----

  /** A slot that does not run has nothing open and no RTC rate. */
  lemma {:induction false} StoppedSlotsAreClean(procs: seq<Pcb>, freq: seq<nat>, active: seq<nat>, cpid: nat,
                                                m: State, p: nat)
    requires Represents(procs, freq, active, cpid, m) && 1 <= p <= MAX_PROCESSES
    ensures |procs| == NUM_SLOTS && |freq| == NUM_SLOTS && |procs[p].fds| == MAX_FD
    ensures !procs[p].running ==> freq[p] == 0 && forall f :: 2 <= f < MAX_FD ==> !procs[p].fds[f].inUse
  {
    RunningIsUsed(procs, freq, active, m.stacks, p);
    if procs[p].running {
      var t, i := ProcessTable.Position(procs, freq, active, m.stacks, p);
      assert SlotAt(procs, freq, m.stacks[t], t, i);
    }
  }

  /** A process that gets RTC notifications holds an open RTC descriptor. */
  lemma {:induction false} RateNeedsDescriptor(procs: seq<Pcb>, freq: seq<nat>, active: seq<nat>, cpid: nat,
                                               m: State, p: nat)
    returns (f: nat)
    requires Represents(procs, freq, active, cpid, m) && 1 <= p <= MAX_PROCESSES && p < |freq| && freq[p] != 0
    ensures |procs| == NUM_SLOTS && f < MAX_FD == |procs[p].fds|
    ensures procs[p].running && procs[p].fds[f].inUse && procs[p].fds[f].jumptable == RtcOps
  {
    StoppedSlotsAreClean(procs, freq, active, cpid, m, p);
    var t, i := ProcessTable.Position(procs, freq, active, m.stacks, p);
    assert SlotAt(procs, freq, m.stacks[t], t, i);
    var task := m.stacks[t][i];
    assert TaskOk(task);
    f :| 0 <= f < |task.files| && task.files[f] == Opened(Rtc);
    assert HandleRep(procs[p].fds[f], task.files[f]);
  }

  /** A directory cursor that is not at the start belongs to a directory some process has open. */
  lemma {:induction false} CursorNeedsDirectory(procs: seq<Pcb>, freq: seq<nat>, active: seq<nat>, cpid: nat, m: State)
    returns (p: nat, f: nat)
    requires Represents(procs, freq, active, cpid, m) && m.cursor != 0
    ensures 1 <= p <= MAX_PROCESSES && |procs| == NUM_SLOTS && f < MAX_FD == |procs[p].fds|
    ensures procs[p].running && procs[p].fds[f].inUse
    ensures procs[p].fds[f].jumptable == FsOps && procs[p].fds[f].filetype == TypeOf(Dir)
  {
    var t, i :| 0 <= t < |m.stacks| && 0 <= i < |m.stacks[t]| && Opened(Dir) in m.stacks[t][i].files;
    assert SlotAt(procs, freq, m.stacks[t], t, i);
    var task := m.stacks[t][i];
    p := task.pid;
    f :| 0 <= f < |task.files| && task.files[f] == Opened(Dir);
    assert HandleRep(procs[p].fds[f], task.files[f]);
  }
}
