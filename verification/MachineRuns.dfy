/** Properties of whole runs of the machine: calls return to their callers, preempted processes go on
    where they stopped, and the turn is fair.
 */
module MachineRuns {
  import opened Console
  import opened Keyboard
  import opened Machine
  import opened MachineMoves

  /** `es` can be taken from `m`, one step after the other. */
  ghost predicate Admissible(m: State, es: seq<Event>)
    requires Ok(m)
    decreases |es|
  {
    es == [] || (Allowed(m, es[0]) && Admissible(After1(m, es[0]), es[1..]))
  }

  /** The state after a run.  Every reachable state is well formed. */
  ghost function After(m: State, es: seq<Event>): (r: State)
    requires Ok(m) && Admissible(m, es)
    ensures Ok(r)
    decreases |es|
  {
    if es == [] then m else After(After1(m, es[0]), es[1..])
  }

  /** What the steps of a run do to the processor. */
  ghost function Outcomes(m: State, es: seq<Event>): seq<Outcome>
    requires Ok(m) && Admissible(m, es)
    decreases |es|
  {
    if es == [] then [] else [Step(m, es[0]).1] + Outcomes(After1(m, es[0]), es[1..])
  }

  // ----- calls return to their callers -----

  /** Throughout the run, terminal `t` has more than `h` processes. */
  ghost predicate Above(m: State, es: seq<Event>, t: nat, h: nat)
    requires Ok(m) && Admissible(m, es) && t < NUM_TERMINALS
    decreases |es|
  {
    |m.stacks[t]| > h && (es == [] || Above(After1(m, es[0]), es[1..], t, h))
  }

  /** A move leaves everything below the tops alone. */
  lemma {:induction false} BelowKept(stacks: Stacks, turn: nat, v: Move, t: nat, h: nat)
    requires Enabled(stacks, turn, v) && t < NUM_TERMINALS
    requires |stacks[t]| > h && |Moves(stacks, turn, v).0[t]| > h
    ensures Moves(stacks, turn, v).0[t][..h] == stacks[t][..h]
  {
  }

  lemma {:induction false} CallersKept(m: State, es: seq<Event>, t: nat, h: nat)
    requires Ok(m) && Admissible(m, es) && t < NUM_TERMINALS && Above(m, es, t, h)
    ensures |After(m, es).stacks[t]| > h && After(m, es).stacks[t][..h] == m.stacks[t][..h]
    decreases |es|
  {
    if es != [] {
      StepMoves(m, es[0]);
      BelowKept(m.stacks, m.turn, MoveOf(m, es[0]), t, h);
      CallersKept(After1(m, es[0]), es[1..], t, h);
    }
  }

  /** The value a process that ends in this step returns to its parent. */
  function ExitValue(e: Event): int {
    if e.Halt? then e.status else 256
  }

  /** The step that ends a process with a parent resumes the parent where it waits. */
  lemma {:induction false} EndResumesParent(m: State, e: Event)
    requires Ok(m) && Allowed(m, e) && Ends(m, e) && |m.stacks[m.turn]| >= 2
    ensures var parent := m.stacks[m.turn][|m.stacks[m.turn]| - 2];
      parent.status.Waiting? && Step(m, e).1 == Resume(parent.pid, parent.status.at, ExitValue(e))
  {
    if e.Key? {
      KeyEnds(m, e.scancode, e.at);
    }
  }

  lemma {:induction false} CallPushes(m: State, call: Event)
    requires Ok(m) && call.Execute? && Step(m, call).1.Enter?
    ensures var st, st' := m.stacks[m.turn], After1(m, call).stacks[m.turn];
      |st'| == |st| + 1 && st'[|st| - 1].pid == Top(st).pid && st'[|st| - 1].status == Waiting(call.at)
  {
    StepMoves(m, call);
    assert MoveOf(m, call).Push?;
  }

  /** A stack only shrinks when the process that runs on it ends. */
  lemma {:induction false} ShrinkEnds(m: State, e: Event, t: nat)
    requires Ok(m) && Allowed(m, e) && t < NUM_TERMINALS && |After1(m, e).stacks[t]| < |m.stacks[t]|
    ensures Ends(m, e) && m.turn == t && |m.stacks[t]| >= 2
  {
    hide Ok, Step, Decode, Update, Fresh;
    StepMoves(m, e);
  }

  lemma {:induction false} HasTurn(m: State)
    requires Ok(m)
    ensures |m.stacks| == NUM_TERMINALS && m.turn < NUM_TERMINALS && m.stacks[m.turn] != []
  {
  }

  /** Whatever happens between a successful `execute` and the step that brings the caller's terminal
      back to its old height, that step resumes the caller in that `execute` with the exit value. */
  lemma {:induction false} CallReturnsToCaller(m: State, call: Event, es: seq<Event>, last: Event)
    requires Ok(m) && call.Execute? && Step(m, call).1.Enter?
    requires Admissible(After1(m, call), es) && Above(After1(m, call), es, m.turn, |m.stacks[m.turn]|)
    requires Allowed(After(After1(m, call), es), last)
    requires |After1(After(After1(m, call), es), last).stacks[m.turn]| == |m.stacks[m.turn]|
    ensures Step(After(After1(m, call), es), last).1 == Resume(Current(m).pid, call.at, ExitValue(last))
  {
    hide Ok, Step, After1, After, Above, Admissible, Top;
    HasTurn(m);
    HasTurn(After(After1(m, call), es));
    CallerWaits(m, call, es);
    LastStep(After(After1(m, call), es), last, m.turn, |m.stacks[m.turn]|);
  }

  /** A step that brings a stack back to height h resumes its new top where it waits. */
  lemma {:induction false} LastStep(m: State, last: Event, t: nat, h: nat)
    requires Ok(m) && Allowed(m, last) && t < NUM_TERMINALS && |m.stacks[t]| > h > 0
    requires |After1(m, last).stacks[t]| == h
    ensures var parent := m.stacks[t][h - 1];
      parent.status.Waiting? && Step(m, last).1 == Resume(parent.pid, parent.status.at, ExitValue(last))
  {
    hide Ok, Step, After1, Allowed, Ends;
    ShrinkEnds(m, last, t);
    ShrinkByOne(m, last);
    EndResumesParent(m, last);
  }

  /** While what an `execute` started has not ended, its caller waits in it. */
  lemma {:induction false} CallerWaits(m: State, call: Event, es: seq<Event>)
    requires Ok(m) && call.Execute? && Step(m, call).1.Enter?
    requires Admissible(After1(m, call), es) && Above(After1(m, call), es, m.turn, |m.stacks[m.turn]|)
    ensures var st, st' := m.stacks[m.turn], After(After1(m, call), es).stacks[m.turn];
      && |st'| > |st| && st'[|st| - 1].pid == Top(st).pid && st'[|st| - 1].status == Waiting(call.at)
  {
    hide Ok, Step, After1, After, Above, Admissible;
    HasTurn(m);
    var t, h, m1 := m.turn, |m.stacks[m.turn]|, After1(m, call);
    HasTurn(m1);
    HasTurn(After(m1, es));
    CallPushes(m, call);
    CallersKept(m1, es, t, h);
    assert After(m1, es).stacks[t][..h][h - 1] == m1.stacks[t][..h][h - 1];
  }

  lemma {:induction false} ShrinkByOne(m: State, e: Event)
    requires Ok(m) && Allowed(m, e)
    ensures |After1(m, e).stacks[m.turn]| >= |m.stacks[m.turn]| - 1
  {
    StepMoves(m, e);
  }

  // ----- preempted processes go on where they stopped -----

  /** Throughout the run, another terminal than `t` has the turn. */
  ghost predicate Elsewhere(m: State, es: seq<Event>, t: nat)
    requires Ok(m) && Admissible(m, es)
    decreases |es|
  {
    m.turn != t && (es == [] || Elsewhere(After1(m, es[0]), es[1..], t))
  }

  lemma {:induction false} OthersUntouched(m: State, es: seq<Event>, t: nat)
    requires Ok(m) && Admissible(m, es) && t < NUM_TERMINALS && Elsewhere(m, es, t)
    ensures After(m, es).turn != t && After(m, es).stacks[t] == m.stacks[t]
    decreases |es|
  {
    if es != [] {
      StepMoves(m, es[0]);
      OthersUntouched(After1(m, es[0]), es[1..], t);
    }
  }

  lemma {:induction false} LosesTurn(m: State, e: Event)
    requires Ok(m) && Allowed(m, e) && After1(m, e).turn != m.turn
    ensures e.Tick? || e.Key?
    ensures var st' := After1(m, e).stacks[m.turn]; st' != [] && Top(st') == Current(m).(status := Preempted(e.at))
  {
    StepMoves(m, e);
  }

  lemma {:induction false} GainsTurn(m: State, e: Event, t: nat)
    requires Ok(m) && Allowed(m, e) && t < NUM_TERMINALS && m.turn != t && m.stacks[t] != []
    requires After1(m, e).turn == t
    ensures Top(m.stacks[t]).status.Preempted?
    ensures Step(m, e).1 == Resume(Top(m.stacks[t]).pid, Top(m.stacks[t]).status.at, 0)
  {
    StepMoves(m, e);
    assert MoveOf(m, e).Pass?;
  }

  /** A process that loses the processor to another terminal, by the timer or by the launch of a shell,
      resumes exactly where it lost it when its terminal next gets the turn. */
  lemma {:induction false} PreemptedGoesOn(m: State, stop: Event, es: seq<Event>, last: Event)
    requires Ok(m) && Allowed(m, stop) && After1(m, stop).turn != m.turn
    requires Admissible(After1(m, stop), es) && Elsewhere(After1(m, stop), es, m.turn)
    requires Allowed(After(After1(m, stop), es), last)
    requires After1(After(After1(m, stop), es), last).turn == m.turn
    ensures stop.Tick? || stop.Key?
    ensures Step(After(After1(m, stop), es), last).1 == Resume(Current(m).pid, stop.at, 0)
  {
    var t, m1 := m.turn, After1(m, stop);
    LosesTurn(m, stop);
    OthersUntouched(m1, es, t);
    GainsTurn(After(m1, es), last, t);
  }

  // ----- the turn is fair -----

  function HasProcess(stacks: Stacks, t: nat): nat
    requires t < |stacks|
  {
    if stacks[t] == [] then 0 else 1
  }

  /** How many terminals have a process. */
  function Busy(stacks: Stacks): nat
    requires |stacks| == NUM_TERMINALS
  {
    HasProcess(stacks, 0) + HasProcess(stacks, 1) + HasProcess(stacks, 2)
  }

  /** No halt is pending and no terminal is started, throughout the run. */
  ghost predicate Quiet(m: State, es: seq<Event>)
    requires Ok(m) && Admissible(m, es)
    decreases |es|
  {
    es == [] || ((forall t :: 0 <= t < NUM_TERMINALS ==> !m.kill[t]) && !Starts(m, es[0])
                 && Quiet(After1(m, es[0]), es[1..]))
  }

  function Ticks(es: seq<Event>): nat {
    if es == [] then 0 else (if es[0].Tick? then 1 else 0) + Ticks(es[1..])
  }

  /** Terminal `t` has the turn at some point of the run. */
  ghost predicate Visits(m: State, es: seq<Event>, t: nat)
    requires Ok(m) && Admissible(m, es)
    decreases |es|
  {
    m.turn == t || (es != [] && Visits(After1(m, es[0]), es[1..], t))
  }

  /** How many switches away terminal `t` is. */
  function Distance(stacks: Stacks, turn: nat, t: nat): nat
    requires |stacks| == NUM_TERMINALS && turn < NUM_TERMINALS && stacks[turn] != []
  {
    if turn == t then 0 else if Next(stacks, turn) == t then 1 else 2
  }

  lemma {:induction false} DistanceBound(stacks: Stacks, turn: nat, t: nat)
    requires |stacks| == NUM_TERMINALS && turn < NUM_TERMINALS && stacks[turn] != []
    requires t < NUM_TERMINALS && stacks[t] != []
    ensures Distance(stacks, turn, t) <= Busy(stacks) - 1
    ensures turn != t ==> Distance(stacks, Next(stacks, turn), t) == Distance(stacks, turn, t) - 1
  {
  }

  /** Stacks with processes on the same terminals have the same order of turns. */
  lemma {:induction false} DistanceSame(a: Stacks, b: Stacks, turn: nat, t: nat)
    requires |a| == |b| == NUM_TERMINALS && turn < NUM_TERMINALS && a[turn] != []
    requires forall u :: 0 <= u < NUM_TERMINALS ==> (a[u] == [] <==> b[u] == [])
    ensures Distance(a, turn, t) == Distance(b, turn, t)
  {
  }

  lemma {:induction false} QuietStep(m: State, e: Event)
    requires Ok(m) && Allowed(m, e) && !Starts(m, e)
    ensures forall u :: 0 <= u < NUM_TERMINALS ==> (After1(m, e).stacks[u] == [] <==> m.stacks[u] == [])
    ensures After1(m, e).turn == if e.Tick? && !m.kill[m.turn] then Next(m.stacks, m.turn) else m.turn
  {
    StepMoves(m, e);
  }

  lemma {:induction false} VisitsWithin(m: State, es: seq<Event>, t: nat)
    requires Ok(m) && Admissible(m, es) && Quiet(m, es) && t < NUM_TERMINALS && m.stacks[t] != []
    requires Ticks(es) >= Distance(m.stacks, m.turn, t)
    ensures Visits(m, es, t)
    decreases |es|
  {
    if m.turn != t {
      var m1 := After1(m, es[0]);
      QuietStep(m, es[0]);
      DistanceBound(m.stacks, m.turn, t);
      DistanceSame(m.stacks, m1.stacks, m1.turn, t);
      VisitsWithin(m1, es[1..], t);
    }
  }

  /** Main result: whatever else the processes do, with no halt pending and no terminal started every
      terminal that has a process gets the turn within as many timer ticks as there are such terminals. */
  lemma {:induction false} TurnIsFair(m: State, es: seq<Event>, t: nat)
    requires Ok(m) && Admissible(m, es) && Quiet(m, es) && t < NUM_TERMINALS && m.stacks[t] != []
    requires Ticks(es) >= Busy(m.stacks) - 1
    ensures Visits(m, es, t)
  {
    DistanceBound(m.stacks, m.turn, t);
    VisitsWithin(m, es, t);
  }
}
