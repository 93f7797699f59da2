/** The virtualised real-time clock of rtc.c: one 1024 Hz interrupt source gives every process a rate of its
    own by watching which bits of a 32-bit counter change.
 */
module Rtc {
  import opened Division

  const MAX_RATE := 1024
  const RATES := 10
  const SLOTS := 7
  const WORD := 0x1_0000_0000

  /** The rates a process can ask for. */
  predicate Rate(f: int) {
    || f == 0 || f == 2 || f == 4 || f == 8 || f == 16 || f == 32
    || f == 64 || f == 128 || f == 256 || f == 512 || f == 1024
  }

  /** The number of base interrupts between two notifications at rate f. */
  function Period(f: int): (p: int)
    requires Rate(f) && f != 0
    ensures p >= 1 && p * f == MAX_RATE && WORD % p == 0
  {
    MAX_RATE / f
  }

  /** Some multiple of the period of f lies in (from, to]. */
  ghost predicate DueWithin(f: int, from: nat, to: nat)
    requires Rate(f)
  {
    f != 0 && to / Period(f) > from / Period(f)
  }

  lemma {:induction false} LastMultiple(from: nat, to: nat, p: int) returns (t: int)
    requires p >= 1 && from / p < to / p
    ensures from < t <= to && t % p == 0
  {
    t := p * (to / p);
    assert to == t + to % p && from == p * (from / p) + from % p;
    Scale(from / p + 1, to / p, p);
    Quotient(t, p, to / p);
  }

  lemma {:induction false} MultiplePassed(from: nat, t: nat, to: nat, p: int)
    requires p >= 1 && from < t <= to && t % p == 0
    ensures from / p < to / p
  {
    QuotientStep(t - 1, p);
    QuotientGrows(from, t - 1, p);
    QuotientGrows(t, to, p);
  }

  /** Due means what its name says: a multiple of the period is passed. */
  lemma {:induction false} DueIsMultiple(f: int, from: nat, to: nat)
    requires Rate(f) && f != 0 && from <= to
    ensures DueWithin(f, from, to) <==> exists t :: from < t <= to && t % Period(f) == 0
  {
    hide Rate;
    if DueWithin(f, from, to) {
      var t := LastMultiple(from, to, Period(f));
    }
    if t :| from < t <= to && t % Period(f) == 0 {
      MultiplePassed(from, t, to, Period(f));
    }
  }

  // ----- how often -----

  /** How many of the n interrupts after interrupt t notify a process at rate f. */
  function Notifications(f: int, t: nat, n: nat): nat
    requires Rate(f)
  {
    if n == 0 then 0
    else Notifications(f, t, n - 1) + if f != 0 && (t + n) % Period(f) == 0 then 1 else 0
  }

  lemma {:induction false} NotificationCount(f: int, t: nat, n: nat)
    requires Rate(f)
    ensures Notifications(f, t, n) == if f == 0 then 0 else (t + n) / Period(f) - t / Period(f)
  {
    if n > 0 {
      NotificationCount(f, t, n - 1);
      if f != 0 {
        QuotientStep(t + n - 1, Period(f));
      }
    }
  }

  /** Wherever a window starts, one period holds one notification and 1024 interrupts hold f of them. */
  lemma {:induction false} RateIsExact(f: int, t: nat)
    requires Rate(f)
    ensures f != 0 ==> Notifications(f, t, Period(f)) == 1
    ensures Notifications(f, t, MAX_RATE) == f
  {
    hide Rate, Notifications;
    NotificationCount(f, t, MAX_RATE);
    if f != 0 {
      var p := Period(f);
      NotificationCount(f, t, p);
      QuotientShift(t, p, 1);
      QuotientShift(t, p, f);
    }
  }

  // ----- the bits of the counter -----

  /** The mask of bit i, which is also the period of rate number i. */
  function Mask(i: nat): (m: int)
    ensures m >= 1
  {
    if i == 0 then 1 else 2 * Mask(i - 1)
  }

  lemma {:induction false} Masks()
    ensures Mask(0) == 1 && Mask(1) == 2 && Mask(2) == 4 && Mask(3) == 8 && Mask(4) == 16
    ensures Mask(5) == 32 && Mask(6) == 64 && Mask(7) == 128 && Mask(8) == 256 && Mask(9) == 512
  {
    assert Mask(1) == 2 && Mask(2) == 4;
    assert Mask(3) == 8 && Mask(4) == 16;
    assert Mask(5) == 32 && Mask(6) == 64;
    assert Mask(7) == 128 && Mask(8) == 256;
  }

  /** The rates a process can ask for are 0 and the powers of two up to 1024. */
  lemma {:induction false} RatesArePowers(f: int)
    ensures Rate(f) <==> f == 0 || exists k: nat :: 1 <= k <= RATES && f == Mask(k)
  {
    Masks();
    assert Mask(RATES) == 1024;
    if exists k: nat :: 1 <= k <= RATES && f == Mask(k) {
      var k: nat :| 1 <= k <= RATES && f == Mask(k);
      assert k == 1 || k == 2 || k == 3 || k == 4 || k == 5 || k == 6 || k == 7 || k == 8 || k == 9 || k == 10;
    }
  }

  lemma {:induction false} NextMask(i: nat)
    ensures Mask(0) == 1 && Mask(i + 1) == Mask(i) * 2
  {
  }

  /** Bit i serves the rate whose period is its mask, and no other. */
  lemma {:induction false} BitOfRate(f: int, i: nat)
    requires Rate(f) && i < RATES
    ensures f == MAX_RATE / Mask(i) <==> f != 0 && Period(f) == Mask(i)
    ensures f != 0 ==> (Period(f) < Mask(i + 1) <==> Period(f) < Mask(i) || Period(f) == Mask(i))
    ensures f != 0 ==> Period(f) < Mask(RATES)
  {
    Masks();
    assert Mask(RATES) == 1024;
  }

  lemma {:induction false} MaskDividesWord(i: nat) returns (h: nat)
    requires i < RATES
    ensures WORD == Mask(i) * (2 * h)
  {
    Masks();
    h := if i == 0 then 0x8000_0000 else if i == 1 then 0x4000_0000 else if i == 2 then 0x2000_0000
         else if i == 3 then 0x1000_0000 else if i == 4 then 0x800_0000 else if i == 5 then 0x400_0000
         else if i == 6 then 0x200_0000 else if i == 7 then 0x100_0000 else if i == 8 then 0x80_0000
         else 0x40_0000;
  }

  lemma {:induction false} Regroup(m: int, h: int, k: int)
    ensures (m * (2 * h)) * k == m * (2 * (h * k))
  {
    assert (2 * h) * k == 2 * (h * k);
  }

  lemma {:induction false} SameParity(x: int, n: int)
    ensures (x + 2 * n) % 2 == x % 2
  {
  }

  /** Wrapping around at 32 bits does not disturb the low bits. */
  lemma {:induction false} CounterBit(t: nat, i: nat)
    requires i < RATES
    ensures t % WORD / Mask(i) % 2 == t / Mask(i) % 2
  {
    var m, c, k := Mask(i), t % WORD, t / WORD;
    var h := MaskDividesWord(i);
    Regroup(m, h, k);
    QuotientShift(c, m, 2 * (h * k));
    SameParity(c / m, h * k);
  }

  /** A bit of the wrapping counter changes exactly when the number of interrupts is a multiple of its mask. */
  lemma {:induction false} BitChanges(t: nat, i: nat)
    requires i < RATES
    ensures t % WORD / Mask(i) % 2 != (t + 1) % WORD / Mask(i) % 2 <==> (t + 1) / Mask(i) > t / Mask(i)
  {
    CounterBit(t, i);
    CounterBit(t + 1, i);
    QuotientStep(t, Mask(i));
  }

  /** The interrupt after `t` is due at rate f, and the first `i` bits include the one that serves f. */
  ghost predicate Seen(f: int, t: nat, i: nat)
    requires Rate(f)
  {
    DueWithin(f, t, t + 1) && Period(f) < Mask(i)
  }

  ghost predicate SeenEnds(f: int, t: nat)
    requires Rate(f)
  {
    !Seen(f, t, 0) && (Seen(f, t, RATES) <==> DueWithin(f, t, t + 1))
  }

  lemma {:induction false} SeenBounds(f: int, t: nat)
    requires Rate(f)
    ensures SeenEnds(f, t)
  {
    BitOfRate(f, 0);
    NextMask(0);
  }

  /** Bit i adds the rate it serves, if it changed. */
  ghost predicate SeenMore(f: int, t: nat, i: nat)
    requires Rate(f) && i < RATES
  {
    var served := f == MAX_RATE / Mask(i) && t % WORD / Mask(i) % 2 != (t + 1) % WORD / Mask(i) % 2;
    (Seen(f, t, i + 1) <==> Seen(f, t, i) || served) && !(Seen(f, t, i) && served)
  }

  lemma {:induction false} SeenStep(f: int, t: nat, i: nat)
    requires Rate(f) && i < RATES
    ensures SeenMore(f, t, i)
  {
    BitOfRate(f, i);
    BitChanges(t, i);
  }

  // ----- the driver -----

  /** The buffer handed to rtc_write. */
  datatype Buffer = Null | Holding(rate: int)

  /** The interrupt at which the k-th notification after interrupt t comes. */
  function Later(t: nat, p: int, k: nat): int
    requires p >= 1
  {
    if k == 0 then t else p * (t / p + k)
  }

  lemma {:induction false} NextIsLater(t: nat, p: int)
    requires p >= 1
    ensures t < Later(t, p, 1)
  {
    assert t == p * (t / p) + t % p;
    assert p * (t / p + 1) == p * (t / p) + p;
  }

  function Max(a: int, b: int): int {
    if a >= b then a else b
  }

  /** When a read returns that is made `gap` interrupts after interrupt `t`, where the flag was last looked at. */
  function Returned(t: nat, pending: bool, p: int, gap: nat): (r: nat)
    requires p >= 1
    ensures r >= t + gap
  {
    if pending then t + gap else Max(t + gap, p * (t / p + 1))
  }

  /** When the last of a sequence of reads returns. */
  function Paced(t: nat, pending: bool, p: int, gaps: seq<nat>): nat
    requires p >= 1
    decreases |gaps|
  {
    if gaps == [] then t else Paced(Returned(t, pending, p, gaps[0]), false, p, gaps[1..])
  }

  /** A gap leaves a pending notification or leads into the wait for the next one. */
  lemma {:induction false} ReadAfterGap(t: nat, p: int, gap: nat)
    requires p >= 1
    ensures (t + gap) / p > t / p ==> Returned(t, false, p, gap) == t + gap
    ensures (t + gap) / p == t / p ==> Returned(t, false, p, gap) == Later(t + gap, p, 1)
    ensures (t + gap) / p >= t / p && Later(t + gap, p, 0) == t + gap
  {
    var s := t + gap;
    QuotientGrows(t, s, p);
    NextIsLater(s, p);
    if s / p > t / p {
      Scale(t / p + 1, s / p, p);
      assert s == p * (s / p) + s % p;
    }
  }

  /** A process that reads again within a period gets every notification: n reads take n periods. */
  lemma {:induction false} KeepsPace(t: nat, p: int, gaps: seq<nat>)
    requires p >= 1 && t % p == 0 && forall i :: 0 <= i < |gaps| ==> gaps[i] <= p
    ensures Paced(t, false, p, gaps) == t + p * |gaps|
    decreases |gaps|
  {
    if gaps != [] {
      assert t == p * (t / p);
      assert p * (t / p + 1) == t + p;
      Quotient(t + p, p, t / p + 1);
      KeepsPace(t + p, p, gaps[1..]);
      assert p * |gaps| == p + p * |gaps[1..]|;
    }
  }

  /** The next interrupt is either still before the notification or is the notification. */
  lemma {:induction false} NextReached(from: nat, t: nat, p: int)
    requires p >= 1 && t / p == from / p
    ensures (t + 1) / p > t / p ==> t + 1 == Later(from, p, 1)
    ensures (t + 1) / p == t / p ==> t + 1 < Later(from, p, 1)
    ensures (t + 1) / p >= t / p
  {
    QuotientStep(t, p);
    NextIsLater(t, p);
    assert t + 1 == p * ((t + 1) / p) + (t + 1) % p;
    if (t + 1) / p == t / p {
      NextIsLater(t + 1, p);
    }
  }

  ghost predicate Extends(f: int, from: nat, t: nat)
    requires Rate(f)
  {
    DueWithin(f, from, t + 1) <==> DueWithin(f, from, t) || DueWithin(f, t, t + 1)
  }

  /** One more interrupt adds to the count exactly when it is due. */
  ghost predicate Counts(f: int, from: nat, t: nat)
    requires Rate(f) && from <= t
  {
    Notifications(f, from, t + 1 - from) == Notifications(f, from, t - from) + if DueWithin(f, t, t + 1) then 1 else 0
  }

  lemma {:induction false} CountStep(f: int, from: nat, t: nat)
    requires Rate(f) && from <= t
    ensures Counts(f, from, t)
  {
    NotificationCount(f, from, t - from);
    NotificationCount(f, from, t + 1 - from);
    if f != 0 {
      QuotientStep(t, Period(f));
    }
  }

  lemma {:induction false} DueExtends(f: int, from: nat, t: nat)
    requires Rate(f) && from <= t
    ensures Extends(f, from, t)
  {
    if f != 0 {
      QuotientGrows(from, t, Period(f));
      QuotientGrows(t, t + 1, Period(f));
    }
  }

  class Clock {
    var count: int
    const activeFreq: array<int>
    const interruptFlag: array<int>
    // every interrupt since boot; the counter holds it modulo 2^32
    ghost var ticks: nat
    // how often the flag of each slot was set
    ghost var notified: seq<nat>

    ghost predicate Valid()
      reads this, activeFreq, interruptFlag
    {
      && activeFreq.Length == SLOTS && interruptFlag.Length == SLOTS && activeFreq != interruptFlag
      && count == ticks % WORD && |notified| == SLOTS
      && (forall j :: 0 <= j < SLOTS ==> Rate(activeFreq[j]))
      && (forall j :: 0 <= j < SLOTS ==> interruptFlag[j] == 0 || interruptFlag[j] == 1)
    }

    /** rtc_init */
    constructor ()
      ensures Valid() && ticks == 0 && fresh(activeFreq) && fresh(interruptFlag)
      ensures forall j :: 0 <= j < SLOTS ==> activeFreq[j] == 0 && interruptFlag[j] == 0
    {
      count := 0;
      ticks := 0;
      notified := [0, 0, 0, 0, 0, 0, 0];
      activeFreq := new int[SLOTS](_ => 0);
      interruptFlag := new int[SLOTS](_ => 0);
    }

    /** Sets the flag of every process that listens to one frequency. */
    method Notify(freq: int)
      requires Valid()
      modifies `notified, interruptFlag
      ensures Valid()
      ensures forall j :: 0 <= j < SLOTS ==>
        && interruptFlag[j] == (if activeFreq[j] == freq then 1 else old(interruptFlag[j]))
        && notified[j] == old(notified[j]) + (if activeFreq[j] == freq then 1 else 0)
    {
      var j := 0;
      while j < SLOTS
        invariant 0 <= j <= SLOTS && Valid()
        invariant forall k :: 0 <= k < SLOTS ==>
          && interruptFlag[k] == (if k < j && activeFreq[k] == freq then 1 else old(interruptFlag[k]))
          && notified[k] == old(notified[k]) + (if k < j && activeFreq[k] == freq then 1 else 0)
      {
        if activeFreq[j] == freq {
          interruptFlag[j] := 1;
          notified := notified[j := notified[j] + 1];
        }
        j := j + 1;
      }
    }

    /** rtcHandler: a process is notified, once, exactly when a multiple of its period is reached. */
    method Handler()
      requires Valid()
      modifies this, interruptFlag
      ensures Valid() && ticks == old(ticks) + 1
      ensures forall j :: 0 <= j < SLOTS ==>
        interruptFlag[j] == if DueWithin(activeFreq[j], old(ticks), ticks) then 1 else old(interruptFlag[j])
      ensures forall j :: 0 <= j < SLOTS ==>
        notified[j] == old(notified[j]) + if DueWithin(activeFreq[j], old(ticks), ticks) then 1 else 0
    {
      hide Rate, Seen, Mask;
      var oldCount := count;
      count := (count + 1) % WORD;
      ticks := ticks + 1;
      var mask, i := 1, 0;
      NextMask(0);
      forall j | 0 <= j < SLOTS ensures SeenEnds(activeFreq[j], old(ticks)) {
        SeenBounds(activeFreq[j], old(ticks));
      }
      while i < RATES
        invariant 0 <= i <= RATES && mask == Mask(i) && Valid()
        invariant ticks == old(ticks) + 1 && count == ticks % WORD
        invariant forall j :: 0 <= j < SLOTS ==>
          interruptFlag[j] == if Seen(activeFreq[j], old(ticks), i) then 1 else old(interruptFlag[j])
        invariant forall j :: 0 <= j < SLOTS ==>
          notified[j] == old(notified[j]) + if Seen(activeFreq[j], old(ticks), i) then 1 else 0
      {
        NextMask(i);
        forall j | 0 <= j < SLOTS ensures SeenMore(activeFreq[j], old(ticks), i) {
          SeenStep(activeFreq[j], old(ticks), i);
        }
        if oldCount / mask % 2 != count / mask % 2 {
          Notify(MAX_RATE / mask);
        }
        mask := mask * 2;
        i := i + 1;
      }
    }

    /** rtc_write; the rate is absent when the buffer is null. */
    method Write(cpid: nat, buf: Buffer, nbytes: int) returns (r: int)
      requires Valid() && cpid < SLOTS
      modifies activeFreq
      ensures Valid()
      ensures r == if buf.Holding? && Rate(buf.rate) then nbytes else -1
      ensures activeFreq[..] ==
              if buf.Holding? && Rate(buf.rate) then old(activeFreq[..])[cpid := buf.rate] else old(activeFreq[..])
    {
      if buf.Null? || !Rate(buf.rate) {
        return -1;
      }
      activeFreq[cpid] := buf.rate;
      return nbytes;
    }

    /** rtc_close */
    method Close(cpid: nat)
      requires Valid() && cpid < SLOTS
      modifies activeFreq
      ensures Valid() && activeFreq[..] == old(activeFreq[..])[cpid := 0]
    {
      activeFreq[cpid] := 0;
    }

    /** The other processes were notified of everything that became due in between. */
    twostate predicate OthersNotified(cpid: nat)
      requires old(Valid()) && Valid()
      reads this, activeFreq, interruptFlag
    {
      forall j :: 0 <= j < SLOTS && j != cpid ==>
        interruptFlag[j] ==
        if DueWithin(activeFreq[j], old(ticks), ticks) then 1 else old(interruptFlag[j])
    }

    /** rtc_read: the interrupts that arrive while it waits are the iterations of its loop. */
    method Read(cpid: nat, nbytes: int) returns (r: int)
      requires Valid() && cpid < SLOTS
      modifies this, interruptFlag
      ensures Valid()
      ensures activeFreq[cpid] == 0 ==>
        r == 0 && ticks == old(ticks) && interruptFlag[..] == old(interruptFlag[..])
      ensures activeFreq[cpid] != 0 ==>
        && r == nbytes && interruptFlag[cpid] == 0
        && ticks == Later(old(ticks), Period(activeFreq[cpid]), 1 - old(interruptFlag[cpid]))
      ensures OthersNotified(cpid)
    {
      hide Rate;
      if activeFreq[cpid] == 0 {
        return 0;
      }
      ghost var p := Period(activeFreq[cpid]);
      ghost var next := Later(ticks, p, 1);
      NextIsLater(ticks, p);
      while interruptFlag[cpid] == 0
        invariant Valid() && old(ticks) <= ticks
        invariant old(interruptFlag[cpid]) == 1 ==> interruptFlag[cpid] == 1 && ticks == old(ticks)
        invariant old(interruptFlag[cpid]) == 0 ==>
          if interruptFlag[cpid] == 0 then ticks < next && ticks / p == old(ticks) / p else ticks == next
        invariant OthersNotified(cpid)
        decreases next - ticks
      {
        forall j | 0 <= j < SLOTS ensures Extends(activeFreq[j], old(ticks), ticks) {
          DueExtends(activeFreq[j], old(ticks), ticks);
        }
        NextReached(old(ticks), ticks, p);
        Handler();
      }
      interruptFlag[cpid] := 0;
      return nbytes;
    }

    /** n interrupts: every process is notified as often as its rate says. */
    method Busy(n: nat)
      requires Valid()
      modifies this, interruptFlag
      ensures Valid() && ticks == old(ticks) + n
      ensures forall j :: 0 <= j < SLOTS ==>
        interruptFlag[j] == if DueWithin(activeFreq[j], old(ticks), ticks) then 1 else old(interruptFlag[j])
      ensures forall j :: 0 <= j < SLOTS ==>
        notified[j] == old(notified[j]) + Notifications(activeFreq[j], old(ticks), n)
    {
      hide Rate;
      var i := 0;
      while i < n
        invariant 0 <= i <= n && Valid() && ticks == old(ticks) + i
        invariant forall j :: 0 <= j < SLOTS ==>
          interruptFlag[j] == if DueWithin(activeFreq[j], old(ticks), ticks) then 1 else old(interruptFlag[j])
        invariant forall j :: 0 <= j < SLOTS ==>
          notified[j] == old(notified[j]) + Notifications(activeFreq[j], old(ticks), i)
      {
        forall j | 0 <= j < SLOTS ensures Extends(activeFreq[j], old(ticks), ticks) {
          DueExtends(activeFreq[j], old(ticks), ticks);
        }
        forall j | 0 <= j < SLOTS ensures Counts(activeFreq[j], old(ticks), ticks) {
          CountStep(activeFreq[j], old(ticks), ticks);
        }
        Handler();
        i := i + 1;
      }
    }

    /** One second at the base rate: wherever it starts, a process with rate f is notified f times. */
    method Second()
      requires Valid()
      modifies this, interruptFlag
      ensures Valid() && ticks == old(ticks) + MAX_RATE
      ensures forall j :: 0 <= j < SLOTS ==> notified[j] == old(notified[j]) + activeFreq[j]
    {
      hide Rate, Notifications;
      forall j | 0 <= j < SLOTS ensures Notifications(activeFreq[j], ticks, MAX_RATE) == activeFreq[j] {
        RateIsExact(activeFreq[j], ticks);
      }
      Busy(MAX_RATE);
    }

    /** After rtc_close a process is never notified again, until it sets a rate. */
    method CloseThenBusy(cpid: nat, n: nat)
      requires Valid() && cpid < SLOTS
      modifies this, activeFreq, interruptFlag
      ensures Valid() && notified[cpid] == old(notified[cpid]) && interruptFlag[cpid] == old(interruptFlag[cpid])
    {
      Close(cpid);
      NotificationCount(0, ticks, n);
      Busy(n);
    }

    /** One read in a row for each element of `gaps`, which says how many interrupts arrive before it, as the
        animation loop of fish.c works between its reads. */
    method ReadMany(cpid: nat, gaps: seq<nat>)
      requires Valid() && cpid < SLOTS && activeFreq[cpid] != 0
      modifies this, interruptFlag
      ensures Valid()
      ensures ticks == Paced(old(ticks), old(interruptFlag[cpid]) == 1, Period(activeFreq[cpid]), gaps)
    {
      hide Rate, Later;
      ghost var p := Period(activeFreq[cpid]);
      var i := 0;
      assert gaps[0..] == gaps;
      while i < |gaps|
        invariant 0 <= i <= |gaps| && Valid()
        invariant Paced(ticks, interruptFlag[cpid] == 1, p, gaps[i..])
               == Paced(old(ticks), old(interruptFlag[cpid]) == 1, p, gaps)
      {
        ghost var t := ticks;
        assert gaps[i..][0] == gaps[i] && gaps[i..][1..] == gaps[i + 1..];
        ReadAfterGap(t, p, gaps[i]);
        Busy(gaps[i]);
        var r := Read(cpid, 4);
        i := i + 1;
      }
    }
  }
}
