/** The operations of fish/blink.S on the list of blinking characters, proved against the sequence of elements
    that the list holds.
 */
module Blinker {
  import opened BlinkTiming
  import opened BlinkList
  import opened BlinkRuns

  ghost predicate FirstFree(pool: seq<Slot>, s: int) {
    0 <= s < |pool| && pool[s].blink.location == 0 && forall t :: 0 <= t < s ==> pool[t].blink.location != 0
  }

  lemma {:induction false} FreeIsOutside(pool: seq<Slot>, head: nat, list: seq<nat>, s: nat)
    requires Rep(pool, head, list) && s < SLOTS && pool[s].blink.location == 0
    ensures s !in list
  {
    forall i | 0 <= i < |list| ensures pool[list[i]].blink.location != 0 {
      assert NodeAt(pool, list, i);
    }
  }

  lemma {:induction false} RepNodes(pool: seq<Slot>, head: nat, list: seq<nat>)
    requires Rep(pool, head, list)
    ensures Nodes(Items(pool, list))
  {
    forall i | 0 <= i < |list| ensures Node(pool[list[i]].blink) {
      assert NodeAt(pool, list, i);
    }
  }

  /** Whatever the head points at has a location other than 0, or the memory represents no list. */
  lemma {:induction false} HeadHasLocation(pool: seq<Slot>, s: nat, list: seq<nat>)
    requires |pool| == SLOTS && s < SLOTS
    ensures Rep(pool, s + 1, list) ==> pool[s].blink.location != 0
  {
    if Rep(pool, s + 1, list) {
      assert NodeAt(pool, list, 0);
    }
  }

  lemma {:induction false} ElementAt(pool: seq<Slot>, head: nat, list: seq<nat>, i: nat)
    requires Rep(pool, head, list) && i < |list|
    ensures |pool| == SLOTS && list[i] < SLOTS && InPool(list)
    ensures pool[list[i]].next == Link(list, i + 1)
    ensures Items(pool, list)[i] == pool[list[i]].blink && Node(pool[list[i]].blink)
  {
    assert NodeAt(pool, list, i);
  }

  lemma {:induction false} Shape(pool: seq<Slot>, head: nat, list: seq<nat>)
    requires Rep(pool, head, list)
    ensures |pool| == SLOTS && InPool(list) && Distinct(list) && head == Link(list, 0)
  {
  }

  lemma {:induction false} PushThenUnlink(pool: seq<Slot>, head: nat, list: seq<nat>, s: nat, b: Blink)
    requires Rep(pool, head, list) && s < SLOTS && pool[s].blink.location == 0
    ensures |pool| == SLOTS && InPool([s] + list) && Without([s] + list, 0) == list
    ensures Unlinked(pool[s := Slot(b, head)], [s] + list, 0) == pool
  {
    FreeIsOutside(pool, head, list, s);
  }

  lemma {:induction false} EmptyRep(pool: seq<Slot>)
    requires |pool| == SLOTS && forall s :: 0 <= s < SLOTS ==> pool[s] == ZERO
    ensures Rep(pool, 0, [])
  {
  }

  // ----- progress of the tasklet through the elements -----

  ghost function Ticked(items: seq<Blink>, i: nat): (r: seq<Blink>)
    requires Nodes(items) && i <= |items|
    ensures |r| == |items| && (i < |items| ==> r[i] == items[i])
  {
    TickAll(items[..i]) + items[i..]
  }

  ghost function DrawnFirst(screen: seq<nat>, items: seq<Blink>, i: nat): (r: seq<nat>)
    requires |screen| == SLOTS && Nodes(items) && i <= |items|
    ensures |r| == SLOTS
  {
    DrawnAll(screen, items[..i])
  }

  lemma {:induction false} NoneTicked(screen: seq<nat>, items: seq<Blink>)
    requires |screen| == SLOTS && Nodes(items)
    ensures Ticked(items, 0) == items && DrawnFirst(screen, items, 0) == screen
  {
  }

  lemma {:induction false} OneMore(screen: seq<nat>, items: seq<Blink>, i: nat)
    requires |screen| == SLOTS && Nodes(items) && i < |items|
    ensures Ticked(items, i + 1) == Ticked(items, i)[i := Tick(items[i])]
    ensures DrawnFirst(screen, items, i + 1) == Drawn(DrawnFirst(screen, items, i), items[i])
  {
    assert items[..i + 1][..i] == items[..i];
  }

  lemma {:induction false} AllTicked(screen: seq<nat>, items: seq<Blink>)
    requires |screen| == SLOTS && Nodes(items)
    ensures Ticked(items, |items|) == TickAll(items) && DrawnFirst(screen, items, |items|) == DrawnAll(screen, items)
  {
    assert items[..|items|] == items;
  }

  class Animation {
    const pool: array<Slot>
    const screen: array<nat>
    var head: nat
    // the slots of the list in order
    ghost var list: seq<nat>

    ghost predicate Shaped()
      reads this
    {
      pool.Length == SLOTS && screen.Length == SLOTS
    }

    ghost predicate Valid()
      reads this, pool
    {
      Shaped() && Rep(pool[..], head, list)
    }

    ghost function Elements(): (r: seq<Blink>)
      requires Valid()
      reads this, pool
      ensures |r| == |list| && Nodes(r)
    {
      RepNodes(pool[..], head, list);
      Items(pool[..], list)
    }

    constructor (display: array<nat>)
      requires display.Length == SLOTS
      ensures Valid() && screen == display && fresh(pool) && list == []
    {
      pool := new Slot[SLOTS](_ => ZERO);
      screen := display;
      head, list := 0, [];
      new;
      EmptyRep(pool[..]);
    }

    /** mp1_malloc */
    method Malloc() returns (p: nat)
      requires Shaped()
      ensures p == 0 <==> Full(pool[..])
      ensures p > 0 ==> FirstFree(pool[..], p - 1)
    {
      var i := 0;
      while i < SLOTS
        invariant 0 <= i <= SLOTS
        invariant forall s :: 0 <= s < i ==> pool[s].blink.location != 0
      {
        if pool[i].blink.location == 0 {
          assert !Full(pool[..]) by {
            assert pool[..][i].blink.location == 0;
          }
          return i + 1;
        }
        i := i + 1;
      }
      return 0;
    }

    /** mp1_ioctl_add, from any state of the memory. */
    method Add(item: Blink) returns (r: int)
      requires Shaped() && item.onLength < WORD && item.offLength < WORD
      modifies this, pool, screen
      ensures Shaped() && (r == 0 || r == -1)
      ensures r == -1 <==> item.location >= SLOTS || old(Full(pool[..]))
      ensures old(Valid()) ==> (r == -1 <==> item.location >= SLOTS || |old(list)| == SLOTS)
      ensures r == -1 ==> pool[..] == old(pool[..]) && head == old(head) && list == old(list)
      ensures r == -1 ==> screen[..] == old(screen[..])
      ensures r == 0 ==>
        && FirstFree(old(pool[..]), head - 1)
        && pool[..] == old(pool[..])[head - 1 := Slot(Started(item), old(head))]
        && screen[..] == old(screen[..])[item.location := item.onChar]
      ensures r == 0 && old(Valid()) && item.location != 0 ==>
        && Valid() && list == [head - 1] + old(list)
        && Elements() == [Started(item)] + old(Elements())
      ensures r == 0 && item.location == 0 ==> forall l :: !Rep(pool[..], head, l)
    {
      if Valid() {
        FullIffLong(pool[..], head, list);
      }
      if item.location >= SLOTS {
        return -1;
      }
      var temp := item.(status := 1, countdown := item.onLength);
      var p := Malloc();
      if p == 0 {
        return -1;
      }
      ghost var before := pool[..];
      pool[p - 1] := Slot(temp, head);
      head := p;
      list := [p - 1] + list;
      screen[item.location] := item.onChar;
      assert pool[..] == before[p - 1 := Slot(temp, old(head))];
      if item.location == 0 {
        forall l ensures !Rep(pool[..], head, l) {
          HeadHasLocation(pool[..], p - 1, l);
        }
      } else if old(Valid()) {
        FreeIsOutside(before, old(head), old(list), p - 1);
        PushRep(before, old(head), old(list), p - 1, temp);
      }
      return 0;
    }

    /** mp1_find_helper */
    method FindHelper(location: nat) returns (p: nat)
      requires Valid()
      ensures p == Link(list, First(Elements(), location % WORD))
    {
      p := head;
      ghost var i := 0;
      ghost var items := Elements();
      while p != 0
        invariant 0 <= i <= |list| && p == Link(list, i)
        invariant i <= First(items, location % WORD)
        decreases |list| - i
      {
        assert NodeAt(pool[..], list, i);
        if pool[p - 1].blink.location == location % WORD {
          return;
        }
        p := pool[p - 1].next;
        i := i + 1;
      }
    }

    /** mp1_ioctl_find: a copy of the element most recently added at the location. */
    method Find(location: nat) returns (r: int, b: Blink)
      requires Valid()
      ensures r == if First(Elements(), location % WORD) < |list| then 0 else -1
      ensures r == 0 ==> b == Elements()[First(Elements(), location % WORD)]
    {
      var p := FindHelper(location);
      if p == 0 {
        return -1, ZERO.blink;
      }
      return 0, pool[p - 1].blink;
    }

    /** The walk to the link that points at element k, its redirection, and mp1_free. */
    method Unlink(p: nat, ghost k: nat)
      requires Valid() && k < |list| && p == list[k] + 1
      modifies this, pool
      ensures Valid() && list == Without(old(list), k)
      ensures pool[..] == Unlinked(old(pool[..]), old(list), k)
      ensures Elements() == Without(old(Elements()), k)
    {
      hide Rep, Items, Node;
      Shape(pool[..], head, list);
      UnlinkRep(pool[..], head, list, k);
      var link, prev := head, 0;
      ghost var i := 0;
      while link != p
        invariant pool[..] == old(pool[..]) && list == old(list) && head == old(head)
        invariant 0 <= i <= k && link == Link(list, i) && prev == if i == 0 then 0 else list[i - 1] + 1
        decreases k - i
      {
        ElementAt(pool[..], head, list, i);
        prev := link;
        link := pool[prev - 1].next;
        i := i + 1;
      }
      assert i == k;
      var next := pool[p - 1].next;
      if prev == 0 {
        head := next;
      } else {
        pool[prev - 1] := pool[prev - 1].(next := next);
      }
      pool[p - 1] := ZERO;
      list := Without(list, k);
      assert pool[..] == Unlinked(old(pool[..]), old(list), k);
    }

    /** mp1_ioctl_remove */
    method Remove(location: nat) returns (r: int)
      requires Valid()
      modifies this, pool
      ensures Valid()
      ensures var k := old(First(Elements(), location % WORD));
        if k < |old(list)| then r == 0 && list == Without(old(list), k) && Elements() == Without(old(Elements()), k)
                                && pool[..] == Unlinked(old(pool[..]), old(list), k)
        else r == -1 && pool[..] == old(pool[..]) && list == old(list) && head == old(head)
    {
      var p := FindHelper(location);
      if p == 0 {
        return -1;
      }
      Unlink(p, First(Elements(), location % WORD));
      return 0;
    }

    /** Adding an element and removing it again leaves the memory as it was. */
    method AddThenRemove(item: Blink) returns (r: int)
      requires Valid() && item.onLength < WORD && item.offLength < WORD && item.location != 0
      modifies this, pool, screen
      ensures Valid() && list == old(list) && head == old(head) && pool[..] == old(pool[..])
      ensures r == 0 <==> item.location < SLOTS && |old(list)| < SLOTS
    {
      hide Rep, Items, Node, Unlinked, Without;
      FullIffLong(pool[..], head, list);
      r := Add(item);
      if r == 0 {
        PushThenUnlink(old(pool[..]), old(head), old(list), head - 1, Started(item));
        assert First(Elements(), item.location % WORD) == 0;
        var removed := Remove(item.location);
        Shape(pool[..], head, list);
        assert old(head) == Link(old(list), 0) by {
          Shape(old(pool[..]), old(head), old(list));
        }
      }
    }

    /** After an element at location 0 the next one takes the same slot and links to itself. */
    method AddAfterZero(zero: Blink, item: Blink) returns (r: int)
      requires Shaped() && !Full(pool[..]) && zero.location == 0 && item.location < SLOTS
      requires zero.onLength < WORD && zero.offLength < WORD && item.onLength < WORD && item.offLength < WORD
      modifies this, pool, screen
      ensures Shaped() && 0 < head <= SLOTS && pool[head - 1].next == head
    {
      r := Add(zero);
      ghost var s := head - 1;
      assert pool[..][s].blink.location == 0;
      r := Add(item);
    }

    /** mp1_ioctl_sync: the first location is in the high half of the argument. */
    method Sync(arg: nat) returns (r: int)
      requires Valid() && arg < WORD * WORD
      modifies pool, screen
      ensures Valid() && list == old(list)
      ensures var j, k := old(First(Elements(), arg / WORD)), old(First(Elements(), arg % WORD));
        var items := old(Elements());
        if j < |items| && k < |items| then
          && r == 0 && Elements() == items[k := Synced(items[j], items[k])]
          && screen[..] == old(screen[..])[items[k].location := items[k].offChar]
        else r == -1 && pool[..] == old(pool[..]) && screen[..] == old(screen[..])
    {
      hide Rep, Items, First;
      var first := FindHelper(arg / WORD);
      if first == 0 {
        return -1;
      }
      var second := FindHelper(arg % WORD);
      if second == 0 {
        return -1;
      }
      CopyTiming(first, second, First(Elements(), arg / WORD), First(Elements(), arg % WORD));
      return 0;
    }

    /** The copies of mp1_ioctl_sync from element j to element k, and what it draws. */
    method CopyTiming(first: nat, second: nat, ghost j: nat, ghost k: nat)
      requires Valid() && j < |list| && k < |list| && first == list[j] + 1 && second == list[k] + 1
      modifies pool, screen
      ensures Valid() && list == old(list)
      ensures var items := old(Elements());
        && Elements() == items[k := Synced(items[j], items[k])]
        && screen[..] == old(screen[..])[items[k].location := items[k].offChar]
    {
      hide Rep, Items;
      ElementAt(pool[..], head, list, k);
      ElementAt(pool[..], head, list, j);
      var from, to := pool[first - 1].blink, pool[second - 1].blink;
      UpdateRep(pool[..], head, list, k, Synced(from, to));
      pool[second - 1] := pool[second - 1].(blink := Synced(from, to));
      assert pool[..] == old(pool[..])[list[k] := old(pool[..])[list[k]].(blink := Synced(from, to))];
      screen[to.location] := to.offChar;
    }

    /** One round of the loop of the tasklet. */
    method Blinked(p: nat, ghost i: nat)
      requires Valid() && i < |list| && p == list[i] + 1
      modifies pool, screen
      ensures Valid() && list == old(list)
      ensures Elements() == old(Elements())[i := Tick(old(Elements())[i])]
      ensures screen[..] == Drawn(old(screen[..]), old(Elements())[i])
      ensures pool[p - 1].next == Link(list, i + 1)
    {
      hide Rep, Items;
      ElementAt(pool[..], head, list, i);
      var b := pool[p - 1].blink;
      UpdateRep(pool[..], head, list, i, Tick(b));
      var down := Decremented(b.countdown);
      if Signed(down) > 0 {
        pool[p - 1] := pool[p - 1].(blink := b.(countdown := down));
      } else if b.status == 1 {
        screen[b.location] := b.offChar;
        pool[p - 1] := pool[p - 1].(blink := b.(countdown := b.offLength, status := 0));
      } else {
        screen[b.location] := b.onChar;
        pool[p - 1] := pool[p - 1].(blink := b.(countdown := b.onLength, status := 1));
      }
      assert pool[..] == old(pool[..])[list[i] := old(pool[..])[list[i]].(blink := Tick(b))];
    }

    /** mp1_rtc_tasklet */
    method Tasklet()
      requires Valid()
      modifies pool, screen
      ensures Valid() && list == old(list)
      ensures Elements() == TickAll(old(Elements())) && screen[..] == DrawnAll(old(screen[..]), old(Elements()))
    {
      hide Rep, Items, Tick, Drawn, TickAll, DrawnAll, Ticked, DrawnFirst, Nodes;
      var p := head;
      ghost var i, items := 0, Elements();
      Shape(pool[..], head, list);
      NoneTicked(screen[..], items);
      while p != 0
        invariant 0 <= i <= |list| && p == Link(list, i) && Valid() && list == old(list)
        invariant Elements() == Ticked(items, i)
        invariant screen[..] == DrawnFirst(old(screen[..]), items, i)
        decreases |list| - i
      {
        OneMore(old(screen[..]), items, i);
        Blinked(p, i);
        p := pool[p - 1].next;
        i := i + 1;
      }
      AllTicked(old(screen[..]), items);
    }

    /** n ticks in a row: the element at each place lives its own life. */
    method TaskletMany(n: nat)
      requires Valid()
      modifies pool, screen
      ensures Valid() && list == old(list)
      ensures forall i :: 0 <= i < |list| ==> Elements()[i] == Ticks(old(Elements())[i], n)
    {
      hide Rep, Items, Tick, DrawnAll;
      var k := 0;
      while k < n
        invariant 0 <= k <= n && Valid() && list == old(list)
        invariant forall i :: 0 <= i < |list| ==> Elements()[i] == Ticks(old(Elements())[i], k)
      {
        Tasklet();
        k := k + 1;
      }
    }

    /** Synchronised elements still blink together n ticks later. */
    method SyncThenTick(arg: nat, n: nat) returns (r: int)
      requires Valid() && arg < WORD * WORD
      modifies this, pool, screen
      ensures Valid() && list == old(list)
      ensures var j, k := old(First(Elements(), arg / WORD)), old(First(Elements(), arg % WORD));
        if j < |list| && k < |list| then r == 0 && InStep(Elements()[j], Elements()[k]) else r == -1
    {
      hide Rep, Items, Tick, First;
      ghost var j, k := First(Elements(), arg / WORD), First(Elements(), arg % WORD);
      r := Sync(arg);
      if r == 0 {
        ghost var items := Elements();
        TaskletMany(n);
        InStepForever(items[j], items[k], n);
      }
    }

    /** An element added and then ticked, as fish.c does, blinks with the period its lengths ask for. */
    method AddThenTick(item: Blink, n: nat) returns (r: int)
      requires Valid() && item.onLength < WORD && item.offLength < WORD && item.location != 0
      modifies this, pool, screen
      ensures Valid()
      ensures r == 0 ==> |list| > 0 && Elements()[0].location == item.location &&
                         Glyph(Elements()[0]) ==
                         if n % Cycle(item) < Effective(item.onLength) then item.onChar else item.offChar
    {
      hide Rep, Items, Tick, Ticks, Effective, Cycle, Glyph;
      r := Add(item);
      if r == 0 {
        ghost var first := Elements()[0];
        TaskletMany(n);
        BlinksPeriodically(item, n);
        TicksKeepShape(first, n);
      }
    }

    ghost function Now(): Scene
      requires Valid()
      reads this, pool, screen
    {
      Scene(Elements(), screen[..])
    }

    /** One operation, as mp1_ioctl and mp1_rtc_tasklet dispatch them. */
    method Do(op: Op) returns (r: int)
      requires Valid() && SceneOk(Now()) && OpOk(op)
      modifies this, pool, screen
      ensures Valid() && (Now(), r) == Perform(old(Now()), op)
    {
      hide Rep, Items, First, TickAll, DrawnAll, Drawn, Tick;
      match op {
        case AddOp(item) =>
          r := Add(item);
        case RemoveOp(location) =>
          r := Remove(location);
        case SyncOp(arg) =>
          r := Sync(arg);
        case FindOp(place) =>
          var b;
          r, b := Find(place);
        case TickOp =>
          Tasklet();
          r := 0;
      }
    }

    /** Any sequence of operations on a list in the pool is the fold of their effects on the elements. */
    method Run(ops: seq<Op>) returns (rs: seq<int>)
      requires Valid() && OpsOk(ops)
      modifies this, pool, screen
      ensures Valid() && old(SceneOk(Now()))
      ensures Now() == PerformAll(old(Now()), ops) && rs == Results(old(Now()), ops)
    {
      hide Rep, Items, Perform;
      FullIffLong(pool[..], head, list);
      rs := [];
      var i := 0;
      assert ops[0..] == ops;
      while i < |ops|
        invariant 0 <= i <= |ops| && Valid() && SceneOk(Now())
        invariant PerformAll(Now(), ops[i..]) == PerformAll(old(Now()), ops)
        invariant rs + Results(Now(), ops[i..]) == Results(old(Now()), ops)
      {
        assert ops[i..][0] == ops[i] && ops[i..][1..] == ops[i + 1..];
        var r := Do(ops[i]);
        rs := rs + [r];
        i := i + 1;
      }
    }
  }
}
