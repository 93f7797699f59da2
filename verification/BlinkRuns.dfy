/** Sequences of operations on the blinking characters, on values: what the list and the screen become, and
    what each operation returns.  `Blinker.Animation.Run` shows that the list in the pool follows this fold.
 */
module BlinkRuns {
  import opened BlinkList
  import opened BlinkTiming

  datatype Op = AddOp(item: Blink) | RemoveOp(location: nat) | SyncOp(arg: nat) | FindOp(place: nat) | TickOp

  /** The operations that keep the list a list: no element is added at location 0. */
  predicate OpOk(op: Op) {
    match op
    case AddOp(item) => item.onLength < WORD && item.offLength < WORD && item.location != 0
    case SyncOp(arg) => arg < WORD * WORD
    case _ => true
  }

  predicate OpsOk(ops: seq<Op>) {
    forall i :: 0 <= i < |ops| ==> OpOk(ops[i])
  }

  /** The elements in order, newest first, and the screen. */
  datatype Scene = Scene(items: seq<Blink>, screen: seq<nat>)

  predicate SceneOk(v: Scene) {
    |v.screen| == SLOTS && Nodes(v.items) && |v.items| <= SLOTS
  }

  /** What one operation does, and what it returns. */
  function Perform(v: Scene, op: Op): (r: (Scene, int))
    requires SceneOk(v) && OpOk(op)
    ensures SceneOk(r.0)
  {
    match op
    case AddOp(item) =>
      if item.location >= SLOTS || |v.items| == SLOTS then (v, -1)
      else (Scene([Started(item)] + v.items, v.screen[item.location := item.onChar]), 0)
    case RemoveOp(location) =>
      var k := First(v.items, location % WORD);
      if k < |v.items| then (v.(items := Without(v.items, k)), 0) else (v, -1)
    case SyncOp(arg) =>
      var j, k := First(v.items, arg / WORD), First(v.items, arg % WORD);
      if j < |v.items| && k < |v.items| then
        (Scene(v.items[k := Synced(v.items[j], v.items[k])], v.screen[v.items[k].location := v.items[k].offChar]), 0)
      else (v, -1)
    case FindOp(place) => (v, if First(v.items, place % WORD) < |v.items| then 0 else -1)
    case TickOp => (Scene(TickAll(v.items), DrawnAll(v.screen, v.items)), 0)
  }

  function PerformAll(v: Scene, ops: seq<Op>): (r: Scene)
    requires SceneOk(v) && OpsOk(ops)
    ensures SceneOk(r)
    decreases |ops|
  {
    if ops == [] then v else PerformAll(Perform(v, ops[0]).0, ops[1..])
  }

  function Results(v: Scene, ops: seq<Op>): seq<int>
    requires SceneOk(v) && OpsOk(ops)
    decreases |ops|
  {
    if ops == [] then [] else [Perform(v, ops[0]).1] + Results(Perform(v, ops[0]).0, ops[1..])
  }

  // ----- the screen over whole runs -----

  /** Each add is at a location without an element, and nothing is synchronised. */
  predicate Separate(v: Scene, ops: seq<Op>)
    requires SceneOk(v) && OpsOk(ops)
    decreases |ops|
  {
    ops == [] ||
    (!ops[0].SyncOp? && (ops[0].AddOp? ==> First(v.items, ops[0].item.location) == |v.items|)
     && Separate(Perform(v, ops[0]).0, ops[1..]))
  }

  lemma {:induction false} PerformFaithful(v: Scene, op: Op)
    requires SceneOk(v) && OpOk(op) && !op.SyncOp?
    requires op.AddOp? ==> First(v.items, op.item.location) == |v.items|
    requires Apart(v.items) && Faithful(v.screen, v.items)
    ensures var v' := Perform(v, op).0; Apart(v'.items) && Faithful(v'.screen, v'.items)
  {
    match op
    case AddOp(item) =>
      if item.location < SLOTS && |v.items| < SLOTS {
        AddFaithful(v.screen, v.items, item);
      }
    case TickOp => TickKeepsFaithful(v.screen, v.items);
    case _ =>
  }

  /** A synchronised element keeps its place and its characters and blinks with the other one from then on, and
      the screen stays faithful exactly when the copied status is off or its two characters agree. */
  lemma {:induction false} SyncPerformed(v: Scene, arg: nat)
    requires SceneOk(v) && arg < WORD * WORD && Apart(v.items) && Faithful(v.screen, v.items)
    requires Perform(v, SyncOp(arg)).1 == 0
    ensures First(v.items, arg / WORD) < |v.items| && First(v.items, arg % WORD) < |v.items|
    ensures var v', j, k := Perform(v, SyncOp(arg)).0, First(v.items, arg / WORD), First(v.items, arg % WORD);
      && |v'.items| == |v.items| && (forall i :: 0 <= i < |v.items| && i != k ==> v'.items[i] == v.items[i])
      && InStep(v.items[j], v'.items[k]) && v'.items[k].location == v.items[k].location
      && v'.items[k].onChar == v.items[k].onChar && v'.items[k].offChar == v.items[k].offChar
      && (Faithful(v'.screen, v'.items) <==> v.items[j].status == 0 || v.items[k].onChar == v.items[k].offChar)
  {
    SyncFaithful(v.screen, v.items, First(v.items, arg / WORD), First(v.items, arg % WORD));
  }

  /** Over every such run, each element is on the screen as its status says. */
  lemma {:induction false} RunFaithful(v: Scene, ops: seq<Op>)
    requires SceneOk(v) && OpsOk(ops) && Separate(v, ops)
    requires Apart(v.items) && Faithful(v.screen, v.items)
    ensures var v' := PerformAll(v, ops); Apart(v'.items) && Faithful(v'.screen, v'.items)
    decreases |ops|
  {
    if ops != [] {
      PerformFaithful(v, ops[0]);
      RunFaithful(Perform(v, ops[0]).0, ops[1..]);
    }
  }

  // ----- one element over a whole run -----

  function TickCount(ops: seq<Op>): nat {
    if ops == [] then 0 else (if ops[0].TickOp? then 1 else 0) + TickCount(ops[1..])
  }

  /** No operation of the run adds, removes or synchronises at this location. */
  predicate LeavesPlace(ops: seq<Op>, location: nat) {
    forall i :: 0 <= i < |ops| ==>
      match ops[i]
      case AddOp(item) => item.location != location
      case RemoveOp(l) => l % WORD != location
      case SyncOp(arg) => arg % WORD != location
      case _ => true
  }

  /** The newest element at a location. */
  function At(items: seq<Blink>, location: nat): Blink
    requires First(items, location) < |items|
  {
    items[First(items, location)]
  }

  lemma {:induction false} FirstIs(items: seq<Blink>, location: nat, k: nat)
    requires k < |items| && items[k].location == location
    requires forall i :: 0 <= i < k ==> items[i].location != location
    ensures First(items, location) == k
  {
  }

  lemma {:induction false} PlaceKept(v: Scene, op: Op, location: nat)
    requires SceneOk(v) && OpOk(op) && LeavesPlace([op], location) && First(v.items, location) < |v.items|
    ensures var v' := Perform(v, op).0;
      && First(v'.items, location) < |v'.items|
      && At(v'.items, location) == if op.TickOp? then Tick(At(v.items, location)) else At(v.items, location)
  {
    hide Tick, DrawnAll, First;
    assert LeavesPlace([op], location) && [op][0] == op;
    var v', k := Perform(v, op).0, First(v.items, location);
    match op
    case AddOp(item) =>
      if item.location < SLOTS && |v.items| < SLOTS {
        FirstIs(v'.items, location, k + 1);
      }
    case RemoveOp(l) =>
      var j := First(v.items, l % WORD);
      if j < |v.items| {
        FirstIs(v'.items, location, if j < k then k - 1 else k);
      }
    case SyncOp(arg) =>
      var j := First(v.items, arg % WORD);
      if j < |v.items| && First(v.items, arg / WORD) < |v.items| {
        FirstIs(v'.items, location, k);
      }
    case TickOp =>
      TickPlace(v.items, location);
    case _ =>
  }

  lemma {:induction false} TickPlace(items: seq<Blink>, location: nat)
    requires Nodes(items) && First(items, location) < |items|
    ensures First(TickAll(items), location) == First(items, location)
  {
    var k := First(items, location);
    assert forall i :: 0 <= i < |items| ==> TickAll(items)[i].location == items[i].location;
    FirstIs(TickAll(items), location, k);
  }

  /** Whatever is added, removed, synchronised and looked up elsewhere, an element lives through the ticks. */
  lemma {:induction false} ElementLives(v: Scene, ops: seq<Op>, location: nat)
    requires SceneOk(v) && OpsOk(ops) && LeavesPlace(ops, location) && First(v.items, location) < |v.items|
    ensures var v' := PerformAll(v, ops);
      && First(v'.items, location) < |v'.items|
      && At(v'.items, location) == Ticks(At(v.items, location), TickCount(ops))
    decreases |ops|
  {
    hide Tick, First, Perform;
    if ops != [] {
      var op, b := ops[0], At(v.items, location);
      assert LeavesPlace([op], location);
      PlaceKept(v, op, location);
      assert forall i :: 0 <= i < |ops[1..]| ==> ops[1..][i] == ops[i + 1];
      ElementLives(Perform(v, op).0, ops[1..], location);
      if op.TickOp? {
        TicksAfterOne(b, TickCount(ops[1..]));
      }
    }
  }

  lemma {:induction false} TicksAfterOne(b: Blink, n: nat)
    requires WellFormed(b)
    ensures Ticks(Tick(b), n) == Ticks(b, n + 1)
  {
    if n > 0 {
      TicksAfterOne(b, n - 1);
    }
  }

  /** Main result: an added element blinks with its period through every run that leaves its place alone. */
  lemma {:induction false} AddedElementBlinks(v: Scene, item: Blink, ops: seq<Op>)
    requires SceneOk(v) && OpOk(AddOp(item)) && Perform(v, AddOp(item)).1 == 0
    requires OpsOk(ops) && LeavesPlace(ops, item.location)
    ensures var v' := PerformAll(Perform(v, AddOp(item)).0, ops);
      && First(v'.items, item.location) < |v'.items|
      && Glyph(At(v'.items, item.location)) ==
           if TickCount(ops) % Cycle(item) < Effective(item.onLength) then item.onChar else item.offChar
  {
    var v1 := Perform(v, AddOp(item)).0;
    FirstIs(v1.items, item.location, 0);
    ElementLives(v1, ops, item.location);
    BlinksPeriodically(item, TickCount(ops));
  }
}
