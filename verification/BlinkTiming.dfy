/** The life of one blinking character of fish/blink.S: how the 16-bit countdown turns two lengths into a
    periodic pattern.
 */
module BlinkTiming {
  import opened Division

  const WORD := 0x1_0000
  const HALF := 0x8000

  datatype Blink = Blink(location: nat, onChar: nat, offChar: nat, onLength: nat, offLength: nat,
                         countdown: nat, status: nat)

  predicate WellFormed(b: Blink) {
    b.onLength < WORD && b.offLength < WORD && b.countdown < WORD && b.status < 2
  }

  /** A word read as a signed number. */
  function Signed(w: nat): int
    requires w < WORD
  {
    if w < HALF then w else w - WORD
  }

  function Decremented(w: nat): (r: nat)
    requires w < WORD
    ensures r < WORD
  {
    (w + WORD - 1) % WORD
  }

  /** Whether the next tick turns the character over. */
  predicate Expires(b: Blink)
    requires WellFormed(b)
  {
    Signed(Decremented(b.countdown)) <= 0
  }

  function Toggled(b: Blink): Blink
    requires WellFormed(b)
  {
    b.(status := 1 - b.status, countdown := if b.status == 1 then b.offLength else b.onLength)
  }

  /** What the tasklet does to one element of the list. */
  function Tick(b: Blink): (r: Blink)
    requires WellFormed(b)
    ensures WellFormed(r)
  {
    if Expires(b) then Toggled(b) else b.(countdown := Decremented(b.countdown))
  }

  /** The character that belongs on the screen. */
  function Glyph(b: Blink): nat {
    if b.status == 1 then b.onChar else b.offChar
  }

  function Ticks(b: Blink, n: nat): (r: Blink)
    requires WellFormed(b)
    ensures WellFormed(r)
  {
    if n == 0 then b else Tick(Ticks(b, n - 1))
  }

  /** The state in which an element enters the list. */
  function Started(b: Blink): Blink {
    b.(status := 1, countdown := b.onLength)
  }

  /** The number of ticks a phase of the given length lasts. */
  function Effective(length: nat): (e: nat)
    ensures e >= 1
  {
    if 1 <= length <= HALF then length else 1
  }

  function Cycle(b: Blink): (c: nat)
    ensures c >= 2
  {
    Effective(b.onLength) + Effective(b.offLength)
  }

  /** b is m ticks into its cycle. */
  predicate InPhase(b: Blink, m: nat) {
    if m < Effective(b.onLength) then b.status == 1 && b.countdown == b.onLength - m
    else b.status == 0 && b.countdown == b.offLength - (m - Effective(b.onLength))
  }

  predicate SameShape(a: Blink, b: Blink) {
    a == b.(countdown := a.countdown, status := a.status)
  }

  lemma {:induction false} PhaseStep(b: Blink, m: nat)
    requires WellFormed(b) && m < Cycle(b) && InPhase(b, m)
    ensures InPhase(Tick(b), if m + 1 == Cycle(b) then 0 else m + 1)
  {
    var on := Effective(b.onLength);
    var length, e := if m < on then b.onLength else b.offLength, if m < on then m else m - on;
    assert b.countdown == length - e && e < Effective(length);
    assert Expires(b) <==> e + 1 == Effective(length);
  }

  lemma {:induction false} TicksKeepShape(b: Blink, n: nat)
    requires WellFormed(b)
    ensures SameShape(Ticks(b, n), b)
  {
    if n > 0 {
      TicksKeepShape(b, n - 1);
    }
  }

  lemma {:induction false} PhaseAfter(b: Blink, n: nat)
    requires WellFormed(Started(b))
    ensures InPhase(Ticks(Started(b), n), n % Cycle(b))
  {
    hide Tick, Effective;
    if n == 0 {
      Quotient(0, Cycle(b), 0);
    } else {
      PhaseAfter(b, n - 1);
      var before := Ticks(Started(b), n - 1);
      TicksKeepShape(Started(b), n - 1);
      PhaseStep(before, (n - 1) % Cycle(b));
      QuotientStep(n - 1, Cycle(b));
    }
  }

  /** For every pair of lengths the character is on for the first phase of each cycle and off for the second. */
  lemma {:induction false} BlinksPeriodically(b: Blink, n: nat)
    requires WellFormed(Started(b))
    ensures Glyph(Ticks(Started(b), n)) ==
            if n % Cycle(b) < Effective(b.onLength) then b.onChar else b.offChar
    ensures Ticks(Started(b), n).status == 1 <==> n % Cycle(b) < Effective(b.onLength)
  {
    PhaseAfter(b, n);
    TicksKeepShape(Started(b), n);
  }

  /** The pattern that the two lengths ask for. */
  ghost predicate Nominal(b: Blink, n: nat) {
    b.onLength > 0 && n % (b.onLength + b.offLength) < b.onLength
  }

  ghost predicate AsAsked(b: Blink, n: nat)
    requires WellFormed(Started(b))
  {
    Ticks(Started(b), n).status == 1 <==> Nominal(b, n)
  }

  /** A tick at which a length that is 0 or above 32768 shows. */
  lemma {:induction false} Deviates(b: Blink) returns (n: nat)
    requires WellFormed(Started(b)) && !(1 <= b.onLength <= HALF && 1 <= b.offLength <= HALF)
    ensures !AsAsked(b, n)
  {
    hide Tick, Ticks, Glyph;
    var on, c := b.onLength, Cycle(b);
    n := if on == 0 then 0 else if on > HALF then 1 else if b.offLength == 0 then on else on + 1;
    BlinksPeriodically(b, n);
    if on > HALF {
      Quotient(1, c, 0);
      Quotient(1, on + b.offLength, 0);
    } else if on > 0 && b.offLength == 0 {
      Quotient(on, c, 0);
      Quotient(on, on, 1);
    } else if on > 0 {
      Quotient(on + 1, c, 1);
      Quotient(on + 1, on + b.offLength, 0);
    }
  }

  /** The lengths are honoured for ever exactly when both are between 1 and 32768. */
  lemma {:induction false} LengthsHonoured(b: Blink)
    requires WellFormed(Started(b))
    ensures (forall n: nat :: AsAsked(b, n)) <==> 1 <= b.onLength <= HALF && 1 <= b.offLength <= HALF
  {
    if 1 <= b.onLength <= HALF && 1 <= b.offLength <= HALF {
      forall n: nat ensures AsAsked(b, n) {
        BlinksPeriodically(b, n);
      }
    } else {
      var n := Deviates(b);
    }
  }

  /** Two elements that blink together. */
  predicate InStep(a: Blink, b: Blink) {
    a.onLength == b.onLength && a.offLength == b.offLength && a.countdown == b.countdown && a.status == b.status
  }

  function Synced(from: Blink, to: Blink): (r: Blink)
    ensures InStep(from, r)
  {
    to.(onLength := from.onLength, offLength := from.offLength, countdown := from.countdown, status := from.status)
  }

  lemma {:induction false} InStepForever(a: Blink, b: Blink, n: nat)
    requires WellFormed(a) && WellFormed(b) && InStep(a, b)
    ensures InStep(Ticks(a, n), Ticks(b, n))
  {
    if n > 0 {
      InStepForever(a, b, n - 1);
    }
  }
}
