/** The process table of syscalls.c and how it represents the three stacks of `Machine`.

    A process is a slot with parent link, terminal, flags and two saved contexts.  The stack of a
    terminal is found by following parent links from the slot that active_processes names.
 */
module ProcessTable {
  import opened Console
  import opened Machine

  const NUM_SLOTS := 7     // MAX_PROCESSES + 1, slot 0 is the kernel

  datatype Jumptable = StdinOps | StdoutOps | RtcOps | FsOps

  datatype File = File(jumptable: Jumptable, filetype: nat, inUse: bool)

  datatype Pcb = Pcb(
    fds: seq<File>,
    ppid: nat,
    execute: Context,        // esp_execute, ebp_execute
    switch: Context,         // esp_switch, ebp_switch
    running: bool,
    active: bool,
    terminal: nat,
    usingVideoMem: bool)

  /** The type field of a directory entry. */
  function TypeOf(kind: FileKind): nat {
    match kind
    case Rtc => 0
    case Dir => 1
    case Plain => 2
  }

  predicate HandleRep(f: File, h: Handle) {
    match h
    case Closed => !f.inUse
    case Stdin => f.inUse && f.jumptable == StdinOps
    case Stdout => f.inUse && f.jumptable == StdoutOps
    case Opened(kind) => f.inUse && f.filetype == TypeOf(kind) && f.jumptable == if kind.Rtc? then RtcOps else FsOps
  }

  ghost predicate FilesRep(fds: seq<File>, files: seq<Handle>) {
    |fds| == |files| == MAX_FD && forall f :: 0 <= f < MAX_FD ==> HandleRep(fds[f], files[f])
  }

  /** Slot `p` with RTC rate `freq` holds `task`, on terminal `t`, above the process in slot `ppid`. */
  ghost predicate SlotRep(p: Pcb, freq: nat, task: Task, t: nat, ppid: nat, isTop: bool) {
    && p.running && p.terminal == t && p.ppid == ppid && p.active == isTop
    && FilesRep(p.fds, task.files) && freq == task.rate && p.usingVideoMem == task.vidmap
    && (task.status.Waiting? ==> p.execute == task.status.at)
    && (task.status.Preempted? ==> p.switch == task.status.at)
  }

  /** A slot without process: nothing is open in it and it gets no RTC notifications. */
  ghost predicate FreeSlot(p: Pcb, freq: nat) {
    && !p.running && !p.active && freq == 0
    && |p.fds| == MAX_FD && forall f :: 2 <= f < MAX_FD ==> !p.fds[f].inUse
  }

  function PpidAt(st: seq<Task>, i: nat): nat
    requires i < |st|
  {
    if i == 0 then 0 else st[i - 1].pid
  }

  function TopPid(st: seq<Task>): nat {
    if st == [] then 0 else Top(st).pid
  }

  /** Position `i` of the stack of terminal `t` is represented. */
  ghost predicate SlotAt(procs: seq<Pcb>, freq: seq<nat>, st: seq<Task>, t: nat, i: nat)
    requires |procs| == NUM_SLOTS && |freq| == NUM_SLOTS && i < |st|
  {
    && st[i].pid < NUM_SLOTS
    && SlotRep(procs[st[i].pid], freq[st[i].pid], st[i], t, PpidAt(st, i), i == |st| - 1)
  }

  /** The slots represent the stack of terminal `t`. */
  ghost predicate StackRep(procs: seq<Pcb>, freq: seq<nat>, st: seq<Task>, t: nat)
    requires |procs| == NUM_SLOTS && |freq| == NUM_SLOTS
  {
    && (forall i :: 0 <= i < |st| ==> 1 <= st[i].pid <= MAX_PROCESSES)
    && (forall i :: 0 <= i < |st| ==> SlotAt(procs, freq, st, t, i))
  }

  /** Every slot that no stack uses is free. */
  ghost predicate RestFree(procs: seq<Pcb>, freq: seq<nat>, stacks: Stacks)
    requires |procs| == NUM_SLOTS && |freq| == NUM_SLOTS
  {
    forall p :: 1 <= p <= MAX_PROCESSES && Free(stacks, p) ==> FreeSlot(procs[p], freq[p])
  }

  /** The table represents the stacks, and no slot is used for anything else. */
  ghost predicate TableRep(procs: seq<Pcb>, freq: seq<nat>, active: seq<nat>, stacks: Stacks) {
    && |procs| == NUM_SLOTS && |freq| == NUM_SLOTS && |active| == NUM_TERMINALS && |stacks| == NUM_TERMINALS
    && procs[0].running
    && (forall t :: 0 <= t < NUM_TERMINALS ==> active[t] == TopPid(stacks[t]) && StackRep(procs, freq, stacks[t], t))
    && RestFree(procs, freq, stacks)
  }

  lemma {:induction false} RunningIsUsed(procs: seq<Pcb>, freq: seq<nat>, active: seq<nat>, stacks: Stacks, p: nat)
    requires TableRep(procs, freq, active, stacks) && 1 <= p <= MAX_PROCESSES
    ensures procs[p].running <==> !Free(stacks, p)
  {
    if !Free(stacks, p) {
      var t, i :| 0 <= t < |stacks| && 0 <= i < |stacks[t]| && stacks[t][i].pid == p;
      assert SlotAt(procs, freq, stacks[t], t, i);
    }
  }

  /** Changing a slot does not disturb the stacks that do not use it. */
  lemma {:induction false} StackKept(procs: seq<Pcb>, freq: seq<nat>, st: seq<Task>, t: nat, p: nat, pcb: Pcb, f: nat)
    requires |procs| == NUM_SLOTS && |freq| == NUM_SLOTS && p < NUM_SLOTS && StackRep(procs, freq, st, t)
    requires forall i :: 0 <= i < |st| ==> st[i].pid != p
    ensures StackRep(procs[p := pcb], freq[p := f], st, t)
  {
    var procs', freq' := procs[p := pcb], freq[p := f];
    forall i | 0 <= i < |st|
      ensures SlotAt(procs', freq', st, t, i)
    {
      assert SlotAt(procs, freq, st, t, i);
    }
  }

  lemma {:induction false} StackKept2(procs: seq<Pcb>, freq: seq<nat>, st: seq<Task>, t: nat,
                                      p: nat, pcb: Pcb, q: nat, qcb: Pcb)
    requires |procs| == NUM_SLOTS && |freq| == NUM_SLOTS && p < NUM_SLOTS && q < NUM_SLOTS
    requires StackRep(procs, freq, st, t)
    requires forall i :: 0 <= i < |st| ==> st[i].pid != p && st[i].pid != q
    ensures StackRep(procs[p := pcb][q := qcb], freq, st, t)
  {
    var procs' := procs[p := pcb][q := qcb];
    forall i | 0 <= i < |st|
      ensures SlotAt(procs', freq, st, t, i)
    {
      assert SlotAt(procs, freq, st, t, i);
    }
  }

  /** Process `p` is at position `i` of terminal `t` and nowhere else. */
  ghost predicate OnlyAt(stacks: Stacks, p: nat, t: nat, i: nat) {
    && t < |stacks| && i < |stacks[t]| && stacks[t][i].pid == p
    && forall u, j :: 0 <= u < |stacks| && 0 <= j < |stacks[u]| && !(u == t && j == i) ==> stacks[u][j].pid != p
  }

  lemma {:induction false} Unique(stacks: Stacks, t: nat, i: nat)
    requires Distinct(stacks) && t < |stacks| && i < |stacks[t]|
    ensures OnlyAt(stacks, stacks[t][i].pid, t, i)
  {
  }

  // ----- the top of a stack changes in place -----

  lemma {:induction false} TopStack(procs: seq<Pcb>, freq: seq<nat>, st: seq<Task>, t: nat, task: Task, pcb: Pcb,
                                    f: nat)
    requires |procs| == NUM_SLOTS && |freq| == NUM_SLOTS && st != [] && StackRep(procs, freq, st, t)
    requires forall i :: 0 <= i < |st| - 1 ==> st[i].pid != task.pid
    requires task.pid == Top(st).pid && SlotRep(pcb, f, task, t, PpidAt(st, |st| - 1), true)
    ensures StackRep(procs[task.pid := pcb], freq[task.pid := f], WithTop(st, task), t)
  {
    var r, procs', freq' := WithTop(st, task), procs[task.pid := pcb], freq[task.pid := f];
    forall i | 0 <= i < |r|
      ensures SlotAt(procs', freq', r, t, i)
    {
      assert SlotAt(procs, freq, st, t, i) && PpidAt(r, i) == PpidAt(st, i);
    }
  }

  lemma {:induction false} TopFree(stacks: Stacks, t: nat, task: Task, p: nat)
    requires t < |stacks| && stacks[t] != [] && task.pid == Top(stacks[t]).pid
    ensures Free(stacks[t := WithTop(stacks[t], task)], p) ==> p != task.pid && Free(stacks, p)
  {
    var r: Stacks := stacks[t := WithTop(stacks[t], task)];
    assert r[t][|r[t]| - 1] == task;
    assert forall u, i :: 0 <= u < |r| && 0 <= i < |r[u]| ==> r[u][i].pid == stacks[u][i].pid;
  }

  lemma {:induction false} TopRep(procs: seq<Pcb>, freq: seq<nat>, active: seq<nat>, stacks: Stacks,
                                  t: nat, task: Task, pcb: Pcb, f: nat)
    requires TableRep(procs, freq, active, stacks) && t < NUM_TERMINALS && stacks[t] != []
    requires OnlyAt(stacks, task.pid, t, |stacks[t]| - 1)
    requires SlotRep(pcb, f, task, t, PpidAt(stacks[t], |stacks[t]| - 1), true)
    ensures TableRep(procs[task.pid := pcb], freq[task.pid := f], active, stacks[t := WithTop(stacks[t], task)])
  {
    var r: Stacks := stacks[t := WithTop(stacks[t], task)];
    var procs', freq' := procs[task.pid := pcb], freq[task.pid := f];
    forall u | 0 <= u < NUM_TERMINALS
      ensures StackRep(procs', freq', r[u], u)
    {
      if u == t {
        TopStack(procs, freq, stacks[t], t, task, pcb, f);
      } else {
        StackKept(procs, freq, stacks[u], u, task.pid, pcb, f);
      }
    }
    forall p | 1 <= p <= MAX_PROCESSES && Free(r, p)
      ensures FreeSlot(procs'[p], freq'[p])
    {
      TopFree(stacks, t, task, p);
    }
  }

  // ----- a new process on an empty terminal -----

  lemma {:induction false} LaunchFree(stacks: Stacks, t: nat, pid: nat, p: nat)
    requires t < |stacks| && stacks[t] == []
    ensures Free(stacks[t := [NewTask(pid)]], p) ==> p != pid && Free(stacks, p)
  {
    var r: Stacks := stacks[t := [NewTask(pid)]];
    assert r[t][0].pid == pid;
    assert forall u, i :: 0 <= u < |stacks| && 0 <= i < |stacks[u]| ==> r[u][i] == stacks[u][i];
  }

  lemma {:induction false} LaunchRep(procs: seq<Pcb>, freq: seq<nat>, active: seq<nat>, stacks: Stacks,
                                     t: nat, pid: nat, pcb: Pcb)
    requires TableRep(procs, freq, active, stacks) && t < NUM_TERMINALS && stacks[t] == []
    requires 1 <= pid <= MAX_PROCESSES && Free(stacks, pid)
    requires SlotRep(pcb, 0, NewTask(pid), t, 0, true)
    ensures TableRep(procs[pid := pcb], freq, active[t := pid], stacks[t := [NewTask(pid)]])
  {
    var r: Stacks := stacks[t := [NewTask(pid)]];
    assert freq[pid := 0] == freq;
    forall u | 0 <= u < NUM_TERMINALS
      ensures StackRep(procs[pid := pcb], freq, r[u], u)
    {
      if u != t {
        StackKept(procs, freq, stacks[u], u, pid, pcb, 0);
      }
    }
    forall p | 1 <= p <= MAX_PROCESSES && Free(r, p)
      ensures FreeSlot(procs[pid := pcb][p], freq[p])
    {
      LaunchFree(stacks, t, pid, p);
    }
  }

  // ----- the running process waits for a new one -----

  lemma {:induction false} PushStack(procs: seq<Pcb>, freq: seq<nat>, st: seq<Task>, t: nat,
                                     parent: Task, waiting: Pcb, pid: nat, pcb: Pcb)
    requires |procs| == NUM_SLOTS && |freq| == NUM_SLOTS && st != [] && StackRep(procs, freq, st, t)
    requires forall i :: 0 <= i < |st| - 1 ==> st[i].pid != parent.pid
    requires 1 <= pid <= MAX_PROCESSES && freq[pid] == 0 && forall i :: 0 <= i < |st| ==> st[i].pid != pid
    requires parent.pid == Top(st).pid
    requires SlotRep(waiting, freq[parent.pid], parent, t, PpidAt(st, |st| - 1), false)
    requires SlotRep(pcb, 0, NewTask(pid), t, parent.pid, true)
    ensures StackRep(procs[pid := pcb][parent.pid := waiting], freq, WithTop(st, parent) + [NewTask(pid)], t)
  {
    var r, procs', k := WithTop(st, parent) + [NewTask(pid)], procs[pid := pcb][parent.pid := waiting], |st|;
    forall i | 0 <= i < |r|
      ensures SlotAt(procs', freq, r, t, i)
    {
      if i < k {
        assert SlotAt(procs, freq, st, t, i) && PpidAt(r, i) == PpidAt(st, i);
      } else {
        assert r[i] == NewTask(pid) && PpidAt(r, i) == parent.pid;
      }
    }
  }

  lemma {:induction false} PushFree(stacks: Stacks, t: nat, parent: Task, pid: nat, p: nat)
    requires t < |stacks| && stacks[t] != [] && parent.pid == Top(stacks[t]).pid
    ensures Free(stacks[t := WithTop(stacks[t], parent) + [NewTask(pid)]], p) ==>
              p != pid && p != parent.pid && Free(stacks, p)
  {
    var r: Stacks := stacks[t := WithTop(stacks[t], parent) + [NewTask(pid)]];
    var k := |stacks[t]|;
    assert r[t][k].pid == pid && r[t][k - 1].pid == parent.pid;
    assert forall u, i :: 0 <= u < |stacks| && 0 <= i < |stacks[u]| ==> i < |r[u]| && r[u][i].pid == stacks[u][i].pid;
  }

  lemma {:induction false} PushRep(procs: seq<Pcb>, freq: seq<nat>, active: seq<nat>, stacks: Stacks,
                                   t: nat, parent: Task, waiting: Pcb, pid: nat, pcb: Pcb)
    requires TableRep(procs, freq, active, stacks) && t < NUM_TERMINALS && stacks[t] != []
    requires OnlyAt(stacks, parent.pid, t, |stacks[t]| - 1)
    requires 1 <= pid <= MAX_PROCESSES && Free(stacks, pid)
    requires SlotRep(waiting, freq[parent.pid], parent, t, PpidAt(stacks[t], |stacks[t]| - 1), false)
    requires SlotRep(pcb, 0, NewTask(pid), t, parent.pid, true)
    ensures TableRep(procs[pid := pcb][parent.pid := waiting], freq, active[t := pid],
                     stacks[t := WithTop(stacks[t], parent) + [NewTask(pid)]])
  {
    var r: Stacks := stacks[t := WithTop(stacks[t], parent) + [NewTask(pid)]];
    var procs' := procs[pid := pcb][parent.pid := waiting];
    forall u | 0 <= u < NUM_TERMINALS
      ensures StackRep(procs', freq, r[u], u)
    {
      if u == t {
        PushStack(procs, freq, stacks[t], t, parent, waiting, pid, pcb);
      } else {
        StackKept2(procs, freq, stacks[u], u, pid, pcb, parent.pid, waiting);
      }
    }
    forall p | 1 <= p <= MAX_PROCESSES && Free(r, p)
      ensures FreeSlot(procs'[p], freq[p])
    {
      PushFree(stacks, t, parent, pid, p);
    }
  }

  // ----- the running process frees its slot and its parent runs -----

  function Popped(st: seq<Task>): seq<Task>
    requires |st| >= 2
  {
    st[..|st| - 2] + [st[|st| - 2].(status := Running)]
  }

  lemma {:induction false} PopStack(procs: seq<Pcb>, freq: seq<nat>, st: seq<Task>, t: nat, gone: Pcb, par: Task,
                                    pcb: Pcb)
    requires |procs| == NUM_SLOTS && |freq| == NUM_SLOTS && |st| >= 2 && StackRep(procs, freq, st, t)
    requires par == st[|st| - 2]
    requires forall i :: 0 <= i < |st| - 1 ==> st[i].pid != Top(st).pid
    requires forall i :: 0 <= i < |st| - 2 ==> st[i].pid != par.pid
    requires SlotRep(pcb, freq[par.pid], par.(status := Running), t, PpidAt(st, |st| - 2), true)
    ensures StackRep(procs[Top(st).pid := gone][par.pid := pcb], freq, Popped(st), t)
  {
    var r, procs', k := Popped(st), procs[Top(st).pid := gone][par.pid := pcb], |st| - 2;
    forall i | 0 <= i < |r|
      ensures SlotAt(procs', freq, r, t, i)
    {
      assert SlotAt(procs, freq, st, t, i) && PpidAt(r, i) == PpidAt(st, i);
    }
  }

  lemma {:induction false} PopFree(stacks: Stacks, t: nat, p: nat)
    requires t < |stacks| && |stacks[t]| >= 2
    ensures Free(stacks[t := Popped(stacks[t])], p) ==>
              p != stacks[t][|stacks[t]| - 2].pid && (p == Top(stacks[t]).pid || Free(stacks, p))
  {
    var r: Stacks := stacks[t := Popped(stacks[t])];
    var k := |stacks[t]| - 2;
    assert r[t][k].pid == stacks[t][k].pid;
    assert forall u, i :: 0 <= u < |stacks| && 0 <= i < |stacks[u]| && !(u == t && i == k + 1) ==>
      i < |r[u]| && r[u][i].pid == stacks[u][i].pid;
  }

  lemma {:induction false} PopRep(procs: seq<Pcb>, freq: seq<nat>, active: seq<nat>, stacks: Stacks,
                                  t: nat, gone: Pcb, par: Task, pcb: Pcb)
    requires TableRep(procs, freq, active, stacks) && t < NUM_TERMINALS && |stacks[t]| >= 2
    requires par == stacks[t][|stacks[t]| - 2]
    requires OnlyAt(stacks, Top(stacks[t]).pid, t, |stacks[t]| - 1)
    requires OnlyAt(stacks, par.pid, t, |stacks[t]| - 2)
    requires FreeSlot(gone, freq[Top(stacks[t]).pid])
    requires SlotRep(pcb, freq[par.pid], par.(status := Running), t, PpidAt(stacks[t], |stacks[t]| - 2), true)
    ensures TableRep(procs[Top(stacks[t]).pid := gone][par.pid := pcb], freq, active[t := par.pid],
                     stacks[t := Popped(stacks[t])])
  {
    var top := Top(stacks[t]).pid;
    var r: Stacks := stacks[t := Popped(stacks[t])];
    var procs' := procs[top := gone][par.pid := pcb];
    PopStack(procs, freq, stacks[t], t, gone, par, pcb);
    forall u | 0 <= u < NUM_TERMINALS && u != t
      ensures StackRep(procs', freq, stacks[u], u)
    {
      StackKept2(procs, freq, stacks[u], u, top, gone, par.pid, pcb);
    }
    forall p | 1 <= p <= MAX_PROCESSES && Free(r, p)
      ensures FreeSlot(procs'[p], freq[p])
    {
      PopFree(stacks, t, p);
    }
  }

  // ----- the last process of a terminal frees its slot -----

  lemma {:induction false} EmptyFree(stacks: Stacks, t: nat, p: nat)
    requires t < |stacks| && |stacks[t]| == 1
    ensures Free(stacks[t := []], p) ==> p == Top(stacks[t]).pid || Free(stacks, p)
  {
    var r: Stacks := stacks[t := []];
    assert forall u, i :: 0 <= u < |stacks| && 0 <= i < |stacks[u]| && u != t ==> r[u][i] == stacks[u][i];
  }

  lemma {:induction false} EmptyRep(procs: seq<Pcb>, freq: seq<nat>, active: seq<nat>, stacks: Stacks, t: nat,
                                    gone: Pcb)
    requires TableRep(procs, freq, active, stacks) && t < NUM_TERMINALS && |stacks[t]| == 1
    requires OnlyAt(stacks, Top(stacks[t]).pid, t, 0)
    requires FreeSlot(gone, freq[Top(stacks[t]).pid])
    ensures TableRep(procs[Top(stacks[t]).pid := gone], freq, active[t := 0], stacks[t := []])
  {
    var top := Top(stacks[t]).pid;
    var r: Stacks := stacks[t := []];
    assert freq[top := freq[top]] == freq;
    forall u | 0 <= u < NUM_TERMINALS
      ensures StackRep(procs[top := gone], freq, r[u], u)
    {
      if u != t {
        StackKept(procs, freq, stacks[u], u, top, gone, freq[top]);
      }
    }
    forall p | 1 <= p <= MAX_PROCESSES && Free(r, p)
      ensures FreeSlot(procs[top := gone][p], freq[p])
    {
      EmptyFree(stacks, t, p);
    }
  }

  /** Slot 0 is no process, so its fields do not matter. */
  lemma {:induction false} KernelSlot(procs: seq<Pcb>, freq: seq<nat>, active: seq<nat>, stacks: Stacks, pcb: Pcb)
    requires TableRep(procs, freq, active, stacks) && pcb.running
    ensures TableRep(procs[0 := pcb], freq, active, stacks)
  {
    assert freq[0 := freq[0]] == freq;
    forall u | 0 <= u < NUM_TERMINALS
      ensures StackRep(procs[0 := pcb], freq, stacks[u], u)
    {
      StackKept(procs, freq, stacks[u], u, 0, pcb, freq[0]);
    }
  }

  // ----- parent links -----

  /** The slot reached from `p` by following `k` parent links. */
  function Ancestor(procs: seq<Pcb>, p: nat, k: nat): nat {
    if k == 0 then p
    else
      var q := Ancestor(procs, p, k - 1);
      if q < |procs| then procs[q].ppid else 0
  }

  lemma {:induction false} ChainIsStack(procs: seq<Pcb>, freq: seq<nat>, active: seq<nat>, stacks: Stacks, t: nat,
                                        k: nat)
    requires TableRep(procs, freq, active, stacks) && t < NUM_TERMINALS && k <= |stacks[t]|
    ensures Ancestor(procs, active[t], k) == if k == |stacks[t]| then 0 else stacks[t][|stacks[t]| - 1 - k].pid
  {
    if k > 0 {
      ChainIsStack(procs, freq, active, stacks, t, k - 1);
      var i := |stacks[t]| - k;
      assert SlotAt(procs, freq, stacks[t], t, i);
    }
  }

  /** The parent links from the active process of a terminal lead through running processes of that
      terminal, of which only the first is active, and end at slot 0. */
  lemma {:induction false} ChainRuns(procs: seq<Pcb>, freq: seq<nat>, active: seq<nat>, stacks: Stacks, t: nat, k: nat)
    requires TableRep(procs, freq, active, stacks) && t < NUM_TERMINALS && k <= |stacks[t]|
    ensures k == |stacks[t]| <==> Ancestor(procs, active[t], k) == 0
    ensures k < |stacks[t]| ==>
      var p := Ancestor(procs, active[t], k);
      p <= MAX_PROCESSES && procs[p].running && procs[p].terminal == t && (procs[p].active <==> k == 0)
  {
    ChainIsStack(procs, freq, active, stacks, t, k);
    if k < |stacks[t]| {
      var i := |stacks[t]| - 1 - k;
      assert SlotAt(procs, freq, stacks[t], t, i);
    }
  }

  /** No process is met twice, so slot reuse never makes a cycle. */
  lemma {:induction false} ChainNeverRepeats(procs: seq<Pcb>, freq: seq<nat>, active: seq<nat>, stacks: Stacks,
                                             t: nat, k: nat, u: nat, l: nat)
    requires TableRep(procs, freq, active, stacks) && Distinct(stacks) && t < NUM_TERMINALS && u < NUM_TERMINALS
    requires k < |stacks[t]| && l < |stacks[u]| && (t != u || k != l)
    ensures Ancestor(procs, active[t], k) != Ancestor(procs, active[u], l)
  {
    ChainIsStack(procs, freq, active, stacks, t, k);
    ChainIsStack(procs, freq, active, stacks, u, l);
  }

  /** Where a running process is on the stack of its terminal. */
  lemma {:induction false} Position(procs: seq<Pcb>, freq: seq<nat>, active: seq<nat>, stacks: Stacks, p: nat)
    returns (t: nat, i: nat)
    requires TableRep(procs, freq, active, stacks) && 1 <= p <= MAX_PROCESSES && procs[p].running
    ensures t == procs[p].terminal < NUM_TERMINALS && i < |stacks[t]| && stacks[t][i].pid == p
  {
    RunningIsUsed(procs, freq, active, stacks, p);
    t, i :| 0 <= t < |stacks| && 0 <= i < |stacks[t]| && stacks[t][i].pid == p;
    assert SlotAt(procs, freq, stacks[t], t, i);
  }

  /** Every running process is met on the way from the active process of its terminal. */
  lemma {:induction false} ChainMeetsAll(procs: seq<Pcb>, freq: seq<nat>, active: seq<nat>, stacks: Stacks, p: nat)
    returns (t: nat, k: nat)
    requires TableRep(procs, freq, active, stacks) && 1 <= p <= MAX_PROCESSES && procs[p].running
    ensures t == procs[p].terminal < NUM_TERMINALS && k < |stacks[t]| && Ancestor(procs, active[t], k) == p
  {
    var i: nat;
    t, i := Position(procs, freq, active, stacks, p);
    k := |stacks[t]| - 1 - i;
    ChainIsStack(procs, freq, active, stacks, t, k);
  }

  /** The slot search of execute finds the lowest slot that no stack uses. */
  lemma {:induction false} LowestIsFresh(procs: seq<Pcb>, freq: seq<nat>, active: seq<nat>, stacks: Stacks, p: nat)
    requires TableRep(procs, freq, active, stacks) && 1 <= p <= NUM_SLOTS
    requires forall q :: 0 <= q < p ==> procs[q].running
    requires p == NUM_SLOTS || !procs[p].running
    ensures Fresh(stacks) == if p == NUM_SLOTS then 0 else p
  {
    forall q | 1 <= q <= MAX_PROCESSES
      ensures procs[q].running <==> !Free(stacks, q)
    {
      RunningIsUsed(procs, freq, active, stacks, q);
    }
  }

  /** Stacks with the same processes have the same free slots. */
  lemma {:induction false} FreshSame(a: Stacks, b: Stacks)
    requires |a| == |b| && forall t :: 0 <= t < |a| ==> |a[t]| == |b[t]|
    requires forall t, i :: 0 <= t < |a| && 0 <= i < |a[t]| ==> a[t][i].pid == b[t][i].pid
    ensures Fresh(a) == Fresh(b)
  {
    forall p: nat
      ensures Free(a, p) <==> Free(b, p)
    {
      assert Free(a, p) ==> forall t, i :: 0 <= t < |b| && 0 <= i < |b[t]| ==> b[t][i].pid == a[t][i].pid;
    }
  }

  /** A slot is available exactly when a new process would find one. */
  lemma {:induction false} AvailableIsFresh(procs: seq<Pcb>, freq: seq<nat>, active: seq<nat>, stacks: Stacks)
    requires TableRep(procs, freq, active, stacks)
    ensures (exists p :: 1 <= p <= MAX_PROCESSES && !procs[p].running) <==> Fresh(stacks) != 0
  {
    forall q | 1 <= q <= MAX_PROCESSES
      ensures procs[q].running <==> !Free(stacks, q)
    {
      RunningIsUsed(procs, freq, active, stacks, q);
    }
  }

  lemma {:induction false} KernelRuns(procs: seq<Pcb>, freq: seq<nat>, active: seq<nat>, stacks: Stacks)
    requires TableRep(procs, freq, active, stacks)
    ensures |procs| == NUM_SLOTS && procs[0].running
  {
  }

  lemma {:induction false} ActiveOrEmpty(procs: seq<Pcb>, freq: seq<nat>, active: seq<nat>, stacks: Stacks, t: nat)
    requires TableRep(procs, freq, active, stacks) && t < NUM_TERMINALS
    ensures |active| == NUM_TERMINALS && (active[t] == 0 <==> stacks[t] == [])
    ensures stacks[t] != [] ==> active[t] == Top(stacks[t]).pid
  {
  }

  lemma {:induction false} FreeSlotOf(procs: seq<Pcb>, freq: seq<nat>, active: seq<nat>, stacks: Stacks, p: nat)
    requires TableRep(procs, freq, active, stacks) && 1 <= p <= MAX_PROCESSES && Free(stacks, p)
    ensures FreeSlot(procs[p], freq[p])
    ensures forall t, i :: 0 <= t < |stacks| && 0 <= i < |stacks[t]| ==> stacks[t][i].pid != p
  {
  }

  /** At boot no slot but slot 0 runs. */
  lemma {:induction false} EmptyTable(procs: seq<Pcb>, freq: seq<nat>, active: seq<nat>)
    requires |procs| == NUM_SLOTS && |freq| == NUM_SLOTS && active == [0, 0, 0] && procs[0].running
    requires forall p :: 1 <= p < NUM_SLOTS ==> FreeSlot(procs[p], freq[p])
    ensures TableRep(procs, freq, active, [[], [], []])
  {
  }

  lemma {:induction false} EmptyFresh()
    ensures Fresh([[], [], []]) == 1
  {
    assert Free([[], [], []], 1);
  }
}
