/** The list of blinking characters of fish/blink.S, threaded through the fixed pool of fish/fish.c. A pointer
    is 0 for null and otherwise one more than the number of a pool slot.
 */
module BlinkList {
  import opened BlinkTiming

  const SLOTS := 80 * 25

  datatype Slot = Slot(blink: Blink, next: nat)

  const ZERO := Slot(Blink(0, 0, 0, 0, 0, 0, 0), 0)

  function Link(list: seq<nat>, i: nat): nat {
    if i < |list| then list[i] + 1 else 0
  }

  predicate InPool(list: seq<nat>) {
    forall i :: 0 <= i < |list| ==> list[i] < SLOTS
  }

  predicate Node(b: Blink) {
    WellFormed(b) && 0 < b.location < SLOTS
  }

  predicate Nodes(items: seq<Blink>) {
    forall i {:trigger items[i]} :: 0 <= i < |items| ==> Node(items[i])
  }

  predicate NodeAt(pool: seq<Slot>, list: seq<nat>, i: nat)
    requires |pool| == SLOTS && i < |list| && list[i] < SLOTS
  {
    pool[list[i]].next == Link(list, i + 1) && Node(pool[list[i]].blink)
  }

  predicate Distinct(list: seq<nat>) {
    forall i, j :: 0 <= i < j < |list| ==> list[i] != list[j]
  }

  /** The list runs from the head to null through distinct slots, and every other slot is all zeros. */
  ghost predicate Rep(pool: seq<Slot>, head: nat, list: seq<nat>) {
    && |pool| == SLOTS && InPool(list) && Distinct(list)
    && head == Link(list, 0)
    && (forall i :: 0 <= i < |list| ==> NodeAt(pool, list, i))
    && (forall s :: 0 <= s < SLOTS && s !in list ==> pool[s] == ZERO)
  }

  function Items(pool: seq<Slot>, list: seq<nat>): (r: seq<Blink>)
    requires |pool| == SLOTS && InPool(list)
    ensures |r| == |list| && forall i :: 0 <= i < |r| ==> r[i] == pool[list[i]].blink
  {
    seq(|list|, i requires 0 <= i < |list| => pool[list[i]].blink)
  }

  // ----- the list is determined by the memory -----

  lemma {:induction false} SameUpTo(pool: seq<Slot>, head: nat, l: seq<nat>, m: seq<nat>, i: nat)
    requires Rep(pool, head, l) && Rep(pool, head, m) && i <= |l| && i <= |m|
    ensures l[..i] == m[..i] && Link(l, i) == Link(m, i)
  {
    if i > 0 {
      SameUpTo(pool, head, l, m, i - 1);
      assert NodeAt(pool, l, i - 1) && NodeAt(pool, m, i - 1);
      assert l[..i] == l[..i - 1] + [l[i - 1]] && m[..i] == m[..i - 1] + [m[i - 1]];
    }
  }

  /** No memory represents two lists: in particular following the links never goes round. */
  lemma {:induction false} ListIsUnique(pool: seq<Slot>, head: nat, l: seq<nat>, m: seq<nat>)
    requires Rep(pool, head, l) && Rep(pool, head, m)
    ensures l == m
  {
    var i := if |l| <= |m| then |l| else |m|;
    SameUpTo(pool, head, l, m, i);
    assert |l| == |m|;
    assert l == l[..i] && m == m[..i];
  }

  // ----- the steps -----

  lemma {:induction false} PushRep(pool: seq<Slot>, head: nat, list: seq<nat>, s: nat, b: Blink)
    requires Rep(pool, head, list) && s < SLOTS && s !in list && Node(b)
    ensures Rep(pool[s := Slot(b, head)], s + 1, [s] + list)
    ensures Items(pool[s := Slot(b, head)], [s] + list) == [b] + Items(pool, list)
  {
    var p, l := pool[s := Slot(b, head)], [s] + list;
    forall i | 0 <= i < |l| ensures NodeAt(p, l, i) {
      if i > 0 {
        assert NodeAt(pool, list, i - 1);
      }
    }
  }

  lemma {:induction false} UpdateRep(pool: seq<Slot>, head: nat, list: seq<nat>, k: nat, b: Blink)
    requires Rep(pool, head, list) && k < |list| && Node(b)
    ensures var p := pool[list[k] := pool[list[k]].(blink := b)];
            Rep(p, head, list) && Items(p, list) == Items(pool, list)[k := b]
  {
    var p := pool[list[k] := pool[list[k]].(blink := b)];
    forall i | 0 <= i < |list| ensures NodeAt(p, list, i) {
      assert NodeAt(pool, list, i);
    }
  }

  function Without<T>(s: seq<T>, k: nat): seq<T>
    requires k < |s|
  {
    s[..k] + s[k + 1..]
  }

  /** The memory after element k has been unlinked and freed. */
  function Unlinked(pool: seq<Slot>, list: seq<nat>, k: nat): (r: seq<Slot>)
    requires |pool| == SLOTS && InPool(list) && k < |list|
    ensures |r| == SLOTS
  {
    var next := pool[list[k]].next;
    var p := if k == 0 then pool else pool[list[k - 1] := pool[list[k - 1]].(next := next)];
    p[list[k] := ZERO]
  }

  lemma {:induction false} Kept(list: seq<nat>, k: nat, s: nat)
    requires k < |list| && s != list[k]
    ensures s in list ==> s in Without(list, k)
  {
    if s in list {
      var i :| 0 <= i < |list| && list[i] == s;
      assert Without(list, k)[if i < k then i else i - 1] == s;
    }
  }

  lemma {:induction false} UnlinkItems(pool: seq<Slot>, list: seq<nat>, k: nat)
    requires |pool| == SLOTS && InPool(list) && Distinct(list) && k < |list|
    ensures Items(Unlinked(pool, list, k), Without(list, k)) == Without(Items(pool, list), k)
  {
  }

  lemma {:induction false} UnlinkNode(pool: seq<Slot>, head: nat, list: seq<nat>, k: nat, i: nat)
    requires Rep(pool, head, list) && k < |list| && i < |list| - 1
    ensures NodeAt(Unlinked(pool, list, k), Without(list, k), i)
  {
    hide Node;
    assert NodeAt(pool, list, k) && NodeAt(pool, list, if i < k then i else i + 1);
  }

  lemma {:induction false} UnlinkFree(pool: seq<Slot>, head: nat, list: seq<nat>, k: nat, s: nat)
    requires Rep(pool, head, list) && k < |list| && s < SLOTS && s !in Without(list, k)
    ensures Unlinked(pool, list, k)[s] == ZERO
  {
    hide Node;
    if s != list[k] {
      Kept(list, k, s);
      if k > 0 {
        assert Without(list, k)[k - 1] == list[k - 1];
      }
    }
  }

  lemma {:induction false} UnlinkHead(pool: seq<Slot>, head: nat, list: seq<nat>, k: nat)
    requires Rep(pool, head, list) && k < |list|
    ensures var l := Without(list, k);
            && InPool(l) && Distinct(l)
            && Link(l, 0) == (if k == 0 then pool[list[0]].next else head)
  {
    hide Node;
    assert NodeAt(pool, list, 0);
  }

  lemma {:induction false} UnlinkRep(pool: seq<Slot>, head: nat, list: seq<nat>, k: nat)
    requires Rep(pool, head, list) && k < |list|
    ensures var p := Unlinked(pool, list, k); var l := Without(list, k);
            && Rep(p, Link(l, 0), l)
            && Link(l, 0) == (if k == 0 then pool[list[0]].next else head)
            && Items(p, l) == Without(Items(pool, list), k)
  {
    hide Items, NodeAt, Unlinked, Node;
    UnlinkItems(pool, list, k);
    UnlinkHead(pool, head, list, k);
    var p, l := Unlinked(pool, list, k), Without(list, k);
    forall i: nat | i < |l| ensures NodeAt(p, l, i) {
      UnlinkNode(pool, head, list, k, i);
    }
    forall s: nat | s < SLOTS && s !in l ensures p[s] == ZERO {
      UnlinkFree(pool, head, list, k, s);
    }
  }

  // ----- the pool is full exactly when the list is -----

  predicate Full(pool: seq<Slot>) {
    forall s :: 0 <= s < |pool| ==> pool[s].blink.location != 0
  }

  function Upto(n: nat): (r: set<nat>)
    ensures |r| == n && forall s: nat :: s in r <==> s < n
  {
    if n == 0 then {} else Upto(n - 1) + {n - 1}
  }

  function Elements(list: seq<nat>): (r: set<nat>)
    requires Distinct(list)
    ensures |r| == |list| && forall s: nat :: s in r <==> s in list
  {
    if list == [] then {} else Elements(list[1..]) + {list[0]}
  }

  lemma {:induction false} SubsetSize(a: set<nat>, b: set<nat>)
    requires a <= b
    ensures |a| <= |b| && (|a| == |b| ==> a == b)
  {
    assert b == a + (b - a);
    assert |b| == |a| + |b - a|;
  }

  lemma {:induction false} FullIffLong(pool: seq<Slot>, head: nat, list: seq<nat>)
    requires Rep(pool, head, list)
    ensures |list| <= SLOTS && (Full(pool) <==> |list| == SLOTS)
  {
    hide Upto, Elements;
    var used, all := Elements(list), Upto(SLOTS);
    SubsetSize(used, all);
    if |list| == SLOTS {
      forall s | 0 <= s < SLOTS ensures pool[s].blink.location != 0 {
        assert s in all;
        var i :| 0 <= i < |list| && list[i] == s;
        assert NodeAt(pool, list, i);
      }
    } else {
      assert used != all;
      var s :| s in all && s !in used;
      assert pool[s] == ZERO;
    }
  }

  // ----- what the operations mean -----

  /** The place of the most recently added element at a location, or the length when there is none. */
  function First(items: seq<Blink>, location: nat): (k: nat)
    ensures k <= |items|
    ensures forall i :: 0 <= i < k ==> items[i].location != location
    ensures k < |items| ==> items[k].location == location
  {
    if items == [] || items[0].location == location then 0 else 1 + First(items[1..], location)
  }

  function TickAll(items: seq<Blink>): (r: seq<Blink>)
    requires Nodes(items)
    ensures |r| == |items| && forall i :: 0 <= i < |r| ==> r[i] == Tick(items[i])
  {
    seq(|items|, i requires 0 <= i < |items| => Tick(items[i]))
  }

  /** What the tasklet draws for one element. */
  function Drawn(screen: seq<nat>, b: Blink): (r: seq<nat>)
    requires |screen| == SLOTS && Node(b)
    ensures |r| == SLOTS
  {
    if Expires(b) then screen[b.location := Glyph(Toggled(b))] else screen
  }

  function DrawnAll(screen: seq<nat>, items: seq<Blink>): (r: seq<nat>)
    requires |screen| == SLOTS && Nodes(items)
    ensures |r| == SLOTS
  {
    if items == [] then screen
    else Drawn(DrawnAll(screen, items[..|items| - 1]), items[|items| - 1])
  }

  predicate Apart(items: seq<Blink>) {
    forall i, j :: 0 <= i < j < |items| ==> items[i].location != items[j].location
  }

  /** Every element is on the screen as its status says. */
  predicate Faithful(screen: seq<nat>, items: seq<Blink>)
    requires |screen| == SLOTS && Nodes(items)
  {
    forall i :: 0 <= i < |items| ==> screen[items[i].location] == Glyph(items[i])
  }

  lemma {:induction false} DrawnAt(screen: seq<nat>, items: seq<Blink>, location: nat)
    requires |screen| == SLOTS && Nodes(items)
    requires Apart(items) && location < SLOTS
    ensures var k := First(items, location);
            DrawnAll(screen, items)[location] ==
            if k < |items| && Expires(items[k]) then Glyph(Toggled(items[k])) else screen[location]
  {
    if items != [] {
      var front, last := items[..|items| - 1], items[|items| - 1];
      DrawnAt(screen, front, location);
      var k := First(items, location);
      if k < |front| {
        assert First(front, location) == k;
      } else {
        assert First(front, location) == |front|;
      }
    }
  }

  /** The tasklet keeps the screen faithful while no two elements share a location. */
  lemma {:induction false} TickKeepsFaithful(screen: seq<nat>, items: seq<Blink>)
    requires |screen| == SLOTS && Nodes(items)
    requires Apart(items) && Faithful(screen, items)
    ensures Apart(TickAll(items)) && Faithful(DrawnAll(screen, items), TickAll(items))
  {
    var after := TickAll(items);
    forall i | 0 <= i < |after| ensures DrawnAll(screen, items)[after[i].location] == Glyph(after[i]) {
      DrawnAt(screen, items, items[i].location);
      assert First(items, items[i].location) == i;
    }
  }

  /** The synchronised element is drawn with its off character whatever its status, so the screen stays
      faithful exactly when the copied status is off or the two characters agree. */
  lemma {:induction false} SyncFaithful(screen: seq<nat>, items: seq<Blink>, j: nat, k: nat)
    requires |screen| == SLOTS && Nodes(items)
    requires Apart(items) && Faithful(screen, items) && j < |items| && k < |items|
    ensures Faithful(screen[items[k].location := items[k].offChar], items[k := Synced(items[j], items[k])])
            <==> items[j].status == 0 || items[k].onChar == items[k].offChar
  {
    var after, drawn := items[k := Synced(items[j], items[k])], screen[items[k].location := items[k].offChar];
    assert drawn[after[k].location] == after[k].offChar;
    assert Glyph(after[k]) == after[k].offChar <==> items[j].status == 0 || items[k].onChar == items[k].offChar;
    if Glyph(after[k]) == after[k].offChar {
      forall i | 0 <= i < |after| ensures drawn[after[i].location] == Glyph(after[i]) {
        if i != k {
          assert items[i].location != items[k].location;
        }
      }
    }
  }

  lemma {:induction false} AddFaithful(screen: seq<nat>, items: seq<Blink>, b: Blink)
    requires |screen| == SLOTS && Nodes(items) && Node(Started(b))
    requires Apart(items) && Faithful(screen, items) && First(items, b.location) == |items|
    ensures Apart([Started(b)] + items) && Faithful(screen[b.location := b.onChar], [Started(b)] + items)
  {
  }
}
