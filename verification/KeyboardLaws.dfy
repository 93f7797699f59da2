/** The keyboard over whole scancode sequences: which modifiers are held, and what a key then does. */
module KeyboardLaws {
  import opened Keyboard
  import opened Wrappers

  // ----- modifiers -----

  /** A press or a release of one of these keys. */
  predicate Own(code: nat, keys: set<nat>) {
    code in keys || (code >= KEYBOARD_MASK && code - KEYBOARD_MASK in keys)
  }

  /** The last code of these keys is a press, or there is none and they were held before. */
  ghost predicate Holding(codes: seq<nat>, keys: set<nat>, before: bool) {
    || (before && forall i :: 0 <= i < |codes| ==> !Own(codes[i], keys))
    || exists i :: 0 <= i < |codes| && codes[i] in keys && forall j :: i < j < |codes| ==> !Own(codes[j], keys)
  }

  const SHIFT_KEYS: set<nat> := {LEFT_SHIFT, RIGHT_SHIFT}

  /** Switched once by every press of the caps lock. */
  function Toggled(codes: seq<nat>, before: bool): bool {
    before != (multiset(codes)[CAPS_LOCK] % 2 == 1)
  }

  lemma {:induction false} HeldSplit(m: Modifiers, codes: seq<nat>, last: nat)
    ensures Held(m, codes + [last]) == Update(Held(m, codes), last)
    decreases |codes|
  {
    var all := codes + [last];
    if codes == [] {
      assert all[1..] == [];
    } else {
      assert all[0] == codes[0] && all[1..] == codes[1..] + [last];
      HeldSplit(Update(m, codes[0]), codes[1..], last);
    }
  }

  lemma {:induction false} HoldingSplit(codes: seq<nat>, last: nat, keys: set<nat>, before: bool)
    ensures Holding(codes + [last], keys, before) <==>
      last in keys || (!Own(last, keys) && Holding(codes, keys, before))
  {
    var all := codes + [last];
    assert forall i :: 0 <= i < |codes| ==> all[i] == codes[i];
    if last in keys {
      assert all[|codes|] in keys;
    } else if !Own(last, keys) {
      if Holding(codes, keys, before) {
        if !(before && forall i :: 0 <= i < |codes| ==> !Own(codes[i], keys)) {
          var i :| 0 <= i < |codes| && codes[i] in keys && forall j :: i < j < |codes| ==> !Own(codes[j], keys);
          assert all[i] in keys && forall j :: i < j < |all| ==> !Own(all[j], keys);
        }
      }
    } else {
      assert Own(all[|codes|], keys);
    }
  }

  lemma {:induction false} ToggledSplit(codes: seq<nat>, last: nat, before: bool)
    ensures Toggled(codes + [last], before) == (Toggled(codes, before) != (last == CAPS_LOCK))
  {
    assert multiset(codes + [last]) == multiset(codes) + multiset{last};
  }

  lemma {:induction false} UpdateStep(m: Modifiers, code: nat)
    ensures Update(m, code).caps == (m.caps != (code == CAPS_LOCK))
    ensures Update(m, code).shift <==> code in SHIFT_KEYS || (!Own(code, SHIFT_KEYS) && m.shift)
    ensures Update(m, code).ctrl <==> code in {CTRL} || (!Own(code, {CTRL}) && m.ctrl)
    ensures Update(m, code).alt <==> code in {ALT} || (!Own(code, {ALT}) && m.alt)
  {
  }

  /** Over every scancode sequence the caps lock is switched by each of its presses, and a modifier is held if
      and only if the last code of its own keys is a press, or there is none and it was held before. */
  lemma {:induction false} ModifiersHeld(m: Modifiers, codes: seq<nat>)
    ensures Held(m, codes).caps == Toggled(codes, m.caps)
    ensures Held(m, codes).shift <==> Holding(codes, SHIFT_KEYS, m.shift)
    ensures Held(m, codes).ctrl <==> Holding(codes, {CTRL}, m.ctrl)
    ensures Held(m, codes).alt <==> Holding(codes, {ALT}, m.alt)
    decreases |codes|
  {
    if codes != [] {
      hide Holding, Toggled, Held, Update, Own;
      var front, last := codes[..|codes| - 1], codes[|codes| - 1];
      assert codes == front + [last];
      ModifiersHeld(m, front);
      HeldSplit(m, front, last);
      UpdateStep(Held(m, front), last);
      ToggledSplit(front, last, m.caps);
      HoldingSplit(front, last, SHIFT_KEYS, m.shift);
      HoldingSplit(front, last, {CTRL}, m.ctrl);
      HoldingSplit(front, last, {ALT}, m.alt);
    }
  }

  // ----- characters -----

  /** The keys of a row of the keyboard, from the key with scancode `from` on. */
  predicate InRow(code: nat, from: nat, row: string) {
    from <= code < from + |row|
  }

  const TOP_LETTERS: string := "qwertyui" + "op"
  const MIDDLE_LETTERS: string := "asdfghjk" + "l"
  const BOTTOM_LETTERS: string := "zxcvbnm"
  const DIGITS: string := "12345678" + "90-="
  const SHIFTED_DIGITS: string := "!@#$%^&*" + "()_+"

  /** The letter on a key. */
  function Letter(code: nat): Option<char> {
    if InRow(code, 0x10, TOP_LETTERS) then Some(TOP_LETTERS[code - 0x10])
    else if InRow(code, 0x1E, MIDDLE_LETTERS) then Some(MIDDLE_LETTERS[code - 0x1E])
    else if InRow(code, 0x2C, BOTTOM_LETTERS) then Some(BOTTOM_LETTERS[code - 0x2C])
    else None
  }

  function Capital(c: char): char {
    if 'a' <= c <= 'z' then (c as int - 'a' as int + 'A' as int) as char else c
  }

  /** The characters on a key that has no letter: with and without shift. */
  function Signs(code: nat): Option<(char, char)> {
    if InRow(code, 0x02, DIGITS) then Some((DIGITS[code - 0x02], SHIFTED_DIGITS[code - 0x02]))
    else if code == 0x1A then Some(('[', '{'))
    else if code == 0x1B then Some((']', '}'))
    else if code == 0x27 then Some((';', ':'))
    else if code == 0x28 then Some(('\'', '"'))
    else if code == 0x29 then Some(('`', '~'))
    else if code == 0x2B then Some(('\\', '|'))
    else if code == 0x33 then Some((',', '<'))
    else if code == 0x34 then Some(('.', '>'))
    else if code == 0x35 then Some(('/', '?'))
    else if code == SPACE then Some((' ', ' '))
    else None
  }

  /** What a key types: a letter is a capital if exactly one of shift and caps lock holds, and the caps lock does
      not matter to the other keys. */
  function Types(code: nat, shift: bool, caps: bool): Option<char> {
    if Letter(code).Some? then Some(if shift != caps then Capital(Letter(code).value) else Letter(code).value)
    else if Signs(code).Some? then Some(if shift then Signs(code).value.1 else Signs(code).value.0)
    else None
  }

  /** The table that is selected has at `code` what the key types. */
  predicate Agrees(m: Modifiers, code: nat)
    requires code < 64
  {
    Types(code, m.shift, m.caps) == if Table(m)[code] == '\0' then None else Some(Table(m)[code])
  }

  lemma {:induction false} Codes00(m: Modifiers)
    ensures Agrees(m, 0x00) && Agrees(m, 0x01) && Agrees(m, 0x02) && Agrees(m, 0x03) && Agrees(m, 0x04)
  {
  }

  lemma {:induction false} Codes05(m: Modifiers)
    ensures Agrees(m, 0x05) && Agrees(m, 0x06) && Agrees(m, 0x07) && Agrees(m, 0x08) && Agrees(m, 0x09)
  {
  }

  lemma {:induction false} Codes0A(m: Modifiers)
    ensures Agrees(m, 0x0A) && Agrees(m, 0x0B) && Agrees(m, 0x0C) && Agrees(m, 0x0D) && Agrees(m, 0x0E)
  {
  }

  lemma {:induction false} Codes0F(m: Modifiers)
    ensures Agrees(m, 0x0F) && Agrees(m, 0x10) && Agrees(m, 0x11) && Agrees(m, 0x12) && Agrees(m, 0x13)
  {
  }

  lemma {:induction false} Codes14(m: Modifiers)
    ensures Agrees(m, 0x14) && Agrees(m, 0x15) && Agrees(m, 0x16) && Agrees(m, 0x17) && Agrees(m, 0x18)
  {
  }

  lemma {:induction false} Codes19(m: Modifiers)
    ensures Agrees(m, 0x19) && Agrees(m, 0x1A) && Agrees(m, 0x1B) && Agrees(m, 0x1C) && Agrees(m, 0x1D)
  {
  }

  lemma {:induction false} Codes1E(m: Modifiers)
    ensures Agrees(m, 0x1E) && Agrees(m, 0x1F) && Agrees(m, 0x20) && Agrees(m, 0x21) && Agrees(m, 0x22)
  {
  }

  lemma {:induction false} Codes23(m: Modifiers)
    ensures Agrees(m, 0x23) && Agrees(m, 0x24) && Agrees(m, 0x25) && Agrees(m, 0x26) && Agrees(m, 0x27)
  {
  }

  lemma {:induction false} Codes28(m: Modifiers)
    ensures Agrees(m, 0x28) && Agrees(m, 0x29) && Agrees(m, 0x2A) && Agrees(m, 0x2B) && Agrees(m, 0x2C)
  {
  }

  lemma {:induction false} Codes2D(m: Modifiers)
    ensures Agrees(m, 0x2D) && Agrees(m, 0x2E) && Agrees(m, 0x2F) && Agrees(m, 0x30) && Agrees(m, 0x31)
  {
  }

  lemma {:induction false} Codes32(m: Modifiers)
    ensures Agrees(m, 0x32) && Agrees(m, 0x33) && Agrees(m, 0x34) && Agrees(m, 0x35)
  {
  }

  lemma {:induction false} Codes36(m: Modifiers)
    ensures Agrees(m, 0x36) && Agrees(m, 0x37) && Agrees(m, 0x38) && Agrees(m, 0x39)
  {
  }

  /** The four tables, row by row. */
  lemma {:induction false} TableTypes(m: Modifiers, code: nat)
    requires code <= SPACE
    ensures Agrees(m, code)
  {
    hide Agrees;
    Codes00(m);
    Codes05(m);
    Codes0A(m);
    Codes0F(m);
    Codes14(m);
    Codes19(m);
    Codes1E(m);
    Codes23(m);
    Codes28(m);
    Codes2D(m);
    Codes32(m);
    Codes36(m);
  }

  lemma {:induction false} NothingElse(code: nat, shift: bool, caps: bool)
    requires code > SPACE || code == BACKSPACE || code == ENTER
    ensures Types(code, shift, caps) == None
  {
  }

  lemma {:induction false} Inserts(m: Modifiers, code: nat, c: char)
    ensures Decode(m, code) == Insert(c) <==>
      Types(code, m.shift, m.caps) == Some(c) && !(m.ctrl && code in {C_KEY, L_KEY})
  {
    hide Types, Table;
    if code > SPACE || code == BACKSPACE || code == ENTER {
      NothingElse(code, m.shift, m.caps);
    } else {
      TableTypes(m, code);
    }
  }

  lemma {:induction false} NoOwn(code: nat)
    requires code < KEYBOARD_MASK && code !in {CAPS_LOCK, CTRL, LEFT_SHIFT, RIGHT_SHIFT, ALT}
    ensures forall m :: Update(m, code) == m
  {
  }

  lemma {:induction false} NoMeaning(m: Modifiers, code: nat)
    requires code >= KEYBOARD_MASK || code in {CAPS_LOCK, CTRL, LEFT_SHIFT, RIGHT_SHIFT, ALT}
    ensures Decode(m, code) == Nothing
  {
    SpecialKeysInsertNothing(m, code);
  }

  /** Main result: what the last key of a scancode sequence does, as a function of the codes before it.  The
      three commands need Ctrl or Alt held, and a key inserts what its row of the keyboard says. */
  lemma {:induction false} WhatKeysDo(m: Modifiers, codes: seq<nat>, code: nat)
    ensures var a := Decode(Held(m, codes + [code]), code);
      var ctrl, alt := Holding(codes, {CTRL}, m.ctrl), Holding(codes, {ALT}, m.alt);
      && (forall t :: a == SwitchTo(t) <==> alt && t < 3 && code == F1 + t)
      && (a == Interrupt <==> ctrl && code == C_KEY)
      && (a == Redraw <==> ctrl && code == L_KEY)
      && (a == Erase <==> code == BACKSPACE)
      && (a == Submit <==> code == ENTER)
      && forall c :: a == Insert(c) <==>
           && Types(code, Holding(codes, SHIFT_KEYS, m.shift), Toggled(codes, m.caps)) == Some(c)
           && !(ctrl && code in {C_KEY, L_KEY})
  {
    hide Types, Holding, Toggled, Update, Held;
    var h := Held(m, codes);
    HeldSplit(m, codes, code);
    ModifiersHeld(m, codes);
    if code >= KEYBOARD_MASK || code in {CAPS_LOCK, CTRL, LEFT_SHIFT, RIGHT_SHIFT, ALT} {
      NoMeaning(Update(h, code), code);
      NoType(code, h.shift, h.caps);
    } else {
      NoOwn(code);
      forall c ensures Decode(h, code) == Insert(c) <==>
        Types(code, h.shift, h.caps) == Some(c) && !(h.ctrl && code in {C_KEY, L_KEY})
      {
        Inserts(h, code, c);
      }
    }
  }

  lemma {:induction false} NoType(code: nat, shift: bool, caps: bool)
    requires code >= KEYBOARD_MASK || code in {CAPS_LOCK, CTRL, LEFT_SHIFT, RIGHT_SHIFT, ALT}
    ensures Types(code, shift, caps) == None
  {
  }
}
