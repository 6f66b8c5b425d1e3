/** Key codes used by the remapper and their decimal text.
    Key codes are opaque numbers to the remapper; the values below are the
    Windows virtual-key codes for the named keys, and four placeholder codes
    for the logical modifiers. Every proof about the remapper relies only on
    these codes being pairwise distinct. */
module Keys {

  type Code = nat

  // Keys whose up/down state the input manager tracks at the OS level.
  const LEFT_SHIFT: Code := 0xA0
  const LEFT_CTRL: Code := 0xA2
  const LEFT_ALT: Code := 0xA4

  // Other keys the controller treats specially.
  const RIGHT_CTRL: Code := 0xA3
  const TAB: Code := 0x09
  const F4: Code := 0x73

  // The logical (virtual) modifiers: what the user is holding.
  const V_COMMAND: Code := 0x1001
  const V_CONTROL: Code := 0x1002
  const V_OPTION: Code := 0x1003
  const V_SHIFT: Code := 0x1004

  // Keys that appear in the binding table.
  const BACK: Code := 0x08
  const RETURN: Code := 0x0D
  const ESCAPE: Code := 0x1B
  const NONCONVERT: Code := 0x1D
  const SPACE: Code := 0x20
  const PRIOR: Code := 0x21
  const NEXT: Code := 0x22
  const END: Code := 0x23
  const HOME: Code := 0x24
  const LEFT: Code := 0x25
  const UP: Code := 0x26
  const RIGHT: Code := 0x27
  const DOWN: Code := 0x28
  const INSERT: Code := 0x2D
  const DELETE: Code := 0x2E
  const A: Code := 0x41
  const B: Code := 0x42
  const D: Code := 0x44
  const E: Code := 0x45
  const F: Code := 0x46
  const G: Code := 0x47
  const H: Code := 0x48
  const I: Code := 0x49
  const M: Code := 0x4D
  const N: Code := 0x4E
  const P: Code := 0x50
  const Q: Code := 0x51
  const S: Code := 0x53
  const U: Code := 0x55
  const V: Code := 0x56
  const W: Code := 0x57
  const F12: Code := 0x7B
  const OEM_COMMA: Code := 0xBC
  const OEM_PERIOD: Code := 0xBE
  const OEM_102: Code := 0xE2
  const HIRAGANA_KATAKANA: Code := 0xF2

  /** The tracked OS modifiers, in the order they are synchronised. */
  const TRACKED: seq<Code> := [LEFT_CTRL, LEFT_ALT, LEFT_SHIFT]
  const TRACKED_SET: set<Code> := {LEFT_CTRL, LEFT_ALT, LEFT_SHIFT}

  /** The logical modifiers, the keys of the controller's modifier map. */
  const LOGICAL: set<Code> := {V_COMMAND, V_CONTROL, V_OPTION, V_SHIFT}

  predicate IsDigit(c: char) {
    '0' <= c <= '9'
  }

  predicate AllDigits(s: string) {
    forall i :: 0 <= i < |s| ==> IsDigit(s[i])
  }

  function DigitChar(d: nat): (c: char)
    requires d < 10
    ensures IsDigit(c) && c as int - '0' as int == d
  {
    ('0' as int + d) as char
  }

  /** The decimal text of a key code, as Python's str() writes a
      non-negative integer. */
  function KeyText(n: Code): (s: string)
    ensures s != [] && AllDigits(s)
    decreases n
  {
    if n < 10 then [DigitChar(n)] else KeyText(n / 10) + [DigitChar(n % 10)]
  }

  /** The number a string of decimal digits denotes. */
  function DigitsValue(s: string): nat
    requires AllDigits(s)
    decreases |s|
  {
    if s == [] then 0
    else DigitsValue(s[..|s| - 1]) * 10 + (s[|s| - 1] as int - '0' as int)
  }

  /** Reading the decimal text back gives the key code. */
  lemma {:induction false} KeyTextRoundTrip(n: Code)
    ensures DigitsValue(KeyText(n)) == n
  {
    var s := KeyText(n);
    if n >= 10 {
      KeyTextRoundTrip(n / 10);
      assert s[..|s| - 1] == KeyText(n / 10);
    }
  }

  /** Different key codes have different texts. */
  lemma KeyTextInjective(m: Code, n: Code)
    requires KeyText(m) == KeyText(n)
    ensures m == n
  {
    KeyTextRoundTrip(m);
    KeyTextRoundTrip(n);
  }
}
