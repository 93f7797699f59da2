/** The keyboard of terminal.c: what a scancode means under the modifier keys, and the line buffer
    of a terminal that the keys edit and terminal_read empties.
 */
module Keyboard {
  const BUFFER_SIZE := 128
  const BACKSPACE := 0x0E
  const ENTER := 0x1C
  const CTRL := 0x1D
  const L_KEY := 0x26
  const LEFT_SHIFT := 0x2A
  const C_KEY := 0x2E
  const RIGHT_SHIFT := 0x36
  const ALT := 0x38
  const SPACE := 0x39
  const CAPS_LOCK := 0x3A
  const F1 := 0x3B
  const F2 := 0x3C
  const F3 := 0x3D
  const KEYBOARD_MASK := 0x80

  // the four character tables of do_reg, in rows of eight scancodes
  const SELF_CHARS: string :=
    ("\0\0123456" + "7890-=\0\0" + "qwertyui" + "op[]\0\0as")
    + ("dfghjkl;" + "'`\0\\zxcv" + "bnm,./\0\0" + "\0 \0\0\0\0\0\0")
  const CAPS_CHARS: string :=
    ("\0\0123456" + "7890-=\0\0" + "QWERTYUI" + "OP[]\0\0AS")
    + ("DFGHJKL;" + "'`\0\\ZXCV" + "BNM,./\0\0" + "\0 \0\0\0\0\0\0")
  const SHIFT_CHARS: string :=
    ("\0\0!@#$%^" + "&*()_+\0\0" + "QWERTYUI" + "OP{}\0\0AS")
    + ("DFGHJKL:" + "\"~\0|ZXCV" + "BNM<>?\0\0" + "\0 \0\0\0\0\0\0")
  const COMBO_CHARS: string :=
    ("\0\0!@#$%^" + "&*()_+\0\0" + "qwertyui" + "op{}\0\0as")
    + ("dfghjkl:" + "\"~\0|zxcv" + "bnm<>?\0\0" + "\0 \0\0\0\0\0\0")

  datatype Modifiers = Modifiers(caps: bool, ctrl: bool, shift: bool, alt: bool)

  /** What a key does once the modifiers are up to date. */
  datatype Action = SwitchTo(terminal: nat) | Interrupt | Redraw | Erase | Submit | Insert(c: char) | Nothing

  /** The table that the shift and caps-lock keys select. */
  function Table(m: Modifiers): (t: string)
    ensures |t| == 64
  {
    if m.shift && m.caps then COMBO_CHARS
    else if m.shift then SHIFT_CHARS
    else if m.caps then CAPS_CHARS
    else SELF_CHARS
  }

  /** The modifiers after a scancode: presses set them, the release code of a key clears its own. */
  function Update(m: Modifiers, scancode: nat): Modifiers {
    if scancode == CAPS_LOCK then m.(caps := !m.caps)
    else if scancode == CTRL then m.(ctrl := true)
    else if scancode == LEFT_SHIFT || scancode == RIGHT_SHIFT then m.(shift := true)
    else if scancode == ALT then m.(alt := true)
    else if scancode == CTRL + KEYBOARD_MASK then m.(ctrl := false)
    else if scancode == LEFT_SHIFT + KEYBOARD_MASK || scancode == RIGHT_SHIFT + KEYBOARD_MASK then m.(shift := false)
    else if scancode == ALT + KEYBOARD_MASK then m.(alt := false)
    else m
  }

  /** What a scancode does under up-to-date modifiers. */
  function Decode(m: Modifiers, scancode: nat): Action {
    if m.alt && F1 <= scancode <= F3 then SwitchTo(scancode - F1)
    else if m.ctrl && scancode == C_KEY then Interrupt
    else if m.ctrl && scancode == L_KEY then Redraw
    else if scancode == BACKSPACE then Erase
    else if scancode == ENTER then Submit
    else if scancode <= SPACE && Table(m)[scancode] != '\0' then Insert(Table(m)[scancode])
    else Nothing
  }

  predicate IsModifierOrSpecial(scancode: nat) {
    scancode in {BACKSPACE, ENTER, CTRL, LEFT_SHIFT, RIGHT_SHIFT, ALT, CAPS_LOCK, F1, F2, F3}
    || scancode >= KEYBOARD_MASK
  }

  /** The line state of a terminal_t. */
  datatype Line = Line(buffer: string, pos: nat, ready: bool)

  predicate ValidLine(l: Line) {
    |l.buffer| == BUFFER_SIZE && l.pos < BUFFER_SIZE
  }

  function Text(l: Line): string
    requires ValidLine(l)
  {
    l.buffer[..l.pos]
  }

  /** The line after an action. */
  function Edit(l: Line, a: Action): (r: Line)
    requires ValidLine(l)
    ensures ValidLine(r)
  {
    match a
    case Insert(c) => if l.pos < BUFFER_SIZE - 1 then l.(buffer := l.buffer[l.pos := c], pos := l.pos + 1) else l
    case Erase => if l.pos == 0 then l else l.(pos := l.pos - 1)
    case Submit => l.(buffer := l.buffer[l.pos := '\n'], ready := true)
    case Interrupt => l.(pos := 0)
    case Redraw => l.(pos := 0)
    case SwitchTo(_) => l
    case Nothing => l
  }

  /** What terminal_read copies out of a line. */
  function ReadOut(l: Line, nbytes: int): (s: string)
    requires ValidLine(l)
  {
    if nbytes <= 0 then ""
    else if nbytes <= l.pos then l.buffer[..nbytes]
    else l.buffer[..l.pos + 1]
  }

  /** The line after terminal_read. */
  function Emptied(l: Line): Line {
    l.(pos := 0, ready := false)
  }

  // ----- an editor without buffer and position -----

  /** A line of text under an action, at most 127 characters long. */
  function EditText(text: string, a: Action): string {
    match a
    case Insert(c) => if |text| < BUFFER_SIZE - 1 then text + [c] else text
    case Erase => if text == "" then text else text[..|text| - 1]
    case Interrupt => ""
    case Redraw => ""
    case _ => text
  }

  /** A line of text under a whole scancode sequence. */
  function TypeText(text: string, m: Modifiers, codes: seq<nat>): string
    decreases |codes|
  {
    if codes == [] then text
    else
      var m' := Update(m, codes[0]);
      TypeText(EditText(text, Decode(m', codes[0])), m', codes[1..])
  }

  /** The line buffer under a whole scancode sequence. */
  function TypeLine(l: Line, m: Modifiers, codes: seq<nat>): (r: Line)
    requires ValidLine(l)
    ensures ValidLine(r)
    decreases |codes|
  {
    if codes == [] then l
    else
      var m' := Update(m, codes[0]);
      TypeLine(Edit(l, Decode(m', codes[0])), m', codes[1..])
  }

  lemma {:induction false} EditKeepsText(l: Line, a: Action)
    requires ValidLine(l)
    ensures Text(Edit(l, a)) == EditText(Text(l), a)
  {
    match a
    case Insert(c) =>
      if l.pos < BUFFER_SIZE - 1 {
        assert Edit(l, a).buffer[..l.pos + 1] == l.buffer[..l.pos] + [c];
      }
    case Erase =>
      if l.pos > 0 {
        assert l.buffer[..l.pos][..l.pos - 1] == l.buffer[..l.pos - 1];
      }
    case Submit =>
      assert Edit(l, a).buffer[..l.pos] == l.buffer[..l.pos];
    case _ =>
  }

  /** Over every scancode sequence the buffer prefix is the fold of the typed characters and erasures. */
  lemma {:induction false} BufferHoldsTypedText(l: Line, m: Modifiers, codes: seq<nat>)
    requires ValidLine(l)
    ensures Text(TypeLine(l, m, codes)) == TypeText(Text(l), m, codes)
    decreases |codes|
  {
    if codes != [] {
      var m' := Update(m, codes[0]);
      EditKeepsText(l, Decode(m', codes[0]));
      BufferHoldsTypedText(Edit(l, Decode(m', codes[0])), m', codes[1..]);
    }
  }

  lemma {:induction false} NoCharacter(t: string)
    requires t in {SELF_CHARS, CAPS_CHARS, SHIFT_CHARS, COMBO_CHARS}
    ensures |t| == 64
    ensures t[BACKSPACE] == t[ENTER] == t[CTRL] == t[LEFT_SHIFT] == t[RIGHT_SHIFT] == t[ALT] == '\0'
  {
  }

  /** Modifier and special keys never add a character, in any of the four tables. */
  lemma {:induction false} SpecialKeysInsertNothing(m: Modifiers, scancode: nat)
    requires IsModifierOrSpecial(scancode)
    ensures !Decode(m, scancode).Insert?
    ensures scancode <= SPACE ==> Table(m)[scancode] == '\0'
  {
    NoCharacter(SELF_CHARS);
    NoCharacter(CAPS_CHARS);
    NoCharacter(SHIFT_CHARS);
    NoCharacter(COMBO_CHARS);
  }

  lemma {:induction false} TypeSplit(l: Line, m: Modifiers, codes: seq<nat>, last: nat)
    requires ValidLine(l)
    ensures TypeLine(l, m, codes + [last]) ==
      Edit(TypeLine(l, m, codes), Decode(Update(Held(m, codes), last), last))
    decreases |codes|
  {
    var all := codes + [last];
    if codes == [] {
      assert all[1..] == [];
    } else {
      var m' := Update(m, codes[0]);
      assert all[0] == codes[0] && all[1..] == codes[1..] + [last];
      TypeSplit(Edit(l, Decode(m', codes[0])), m', codes[1..], last);
    }
  }

  /** The modifiers held after a scancode sequence. */
  function Held(m: Modifiers, codes: seq<nat>): Modifiers
    decreases |codes|
  {
    if codes == [] then m else Held(Update(m, codes[0]), codes[1..])
  }

  /** A text cut to at most `nbytes`. */
  function Cut(line: string, nbytes: int): string {
    if nbytes <= 0 then "" else if nbytes < |line| then line[..nbytes] else line
  }

  /** What Enter leaves to be read. */
  lemma {:induction false} SubmittedLine(l: Line, nbytes: int)
    requires ValidLine(l)
    ensures ReadOut(Edit(l, Submit), nbytes) == Cut(Text(l) + "\n", nbytes)
  {
    var after := Edit(l, Submit);
    assert after.buffer[..l.pos + 1] == Text(l) + "\n";
    if 0 < nbytes <= l.pos {
      assert after.buffer[..nbytes] == (Text(l) + "\n")[..nbytes];
    }
  }

  /** A read with no key after Enter returns the typed line and a newline, cut to `nbytes`. */
  lemma {:induction false} ReadReturnsLine(l: Line, m: Modifiers, codes: seq<nat>, nbytes: int)
    requires ValidLine(l)
    ensures var r := TypeLine(l, m, codes + [ENTER]);
            r.ready && ReadOut(r, nbytes) == Cut(TypeText(Text(l), m, codes) + "\n", nbytes)
  {
    TypeSplit(l, m, codes, ENTER);
    BufferHoldsTypedText(l, m, codes);
    SubmittedLine(TypeLine(l, m, codes), nbytes);
  }
}
