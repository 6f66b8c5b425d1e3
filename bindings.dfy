/** Bindings, the string keys they are looked up by, and the binding table. */
module Bindings {
  import opened Keys

  /** A key to synthesize and the OS modifiers it must be sent under. */
  datatype Binding = Binding(key: Code, ctrl: bool, alt: bool, shift: bool)

  /** Which logical modifiers are held. */
  datatype Held = Held(command: bool, control: bool, option: bool, shift: bool)

  datatype Option<T> = None | Some(value: T)

  /** What a binding key says: the held modifiers and the pressed key. */
  datatype Parsed = Parsed(held: Held, key: Code)

  type Table = map<string, seq<Binding>>

  /** The held set a logical modifier map describes. */
  function HeldOf(mods: map<Code, bool>): Held
    requires LOGICAL <= mods.Keys
  {
    Held(mods[V_COMMAND], mods[V_CONTROL], mods[V_OPTION], mods[V_SHIFT])
  }

  function Prefix(held: bool, p: string): string {
    if held then p else ""
  }

  /** The lookup key: the prefix of every held modifier, always in the order
      command, control, option, shift, then the key's decimal text. */
  function BindingKey(h: Held, key: Code): string {
    Prefix(h.command, "command-") + Prefix(h.control, "control-")
      + Prefix(h.option, "option-") + Prefix(h.shift, "shift-") + KeyText(key)
  }

  /** The binding an unmapped key passes through as: command is an alias
      for ctrl, option stands for alt. */
  function PassThrough(h: Held, key: Code): Binding
  {
    Binding(key, h.command || h.control, h.option, h.shift)
  }

  /** The bindings a key press runs: the table's list on a hit, the
      pass-through binding on a miss. */
  function Resolve(table: Table, h: Held, key: Code): seq<Binding>
  {
    var k := BindingKey(h, key);
    if k in table then table[k] else [PassThrough(h, key)]
  }

  datatype Stripped = Stripped(found: bool, rest: string)

  function StripPrefix(p: string, s: string): (r: Stripped)
    ensures r.found ==> s == p + r.rest
    ensures !r.found ==> r.rest == s
  {
    if p <= s then Stripped(true, s[|p|..]) else Stripped(false, s)
  }

  /** Reads a binding key back, accepting the modifier prefixes only in the
      order command, control, option, shift. */
  function ParseBindingKey(s: string): Option<Parsed> {
    var command := StripPrefix("command-", s);
    var control := StripPrefix("control-", command.rest);
    var option := StripPrefix("option-", control.rest);
    var shift := StripPrefix("shift-", option.rest);
    if shift.rest != [] && AllDigits(shift.rest) then
      Some(Parsed(Held(command.found, control.found, option.found, shift.found), DigitsValue(shift.rest)))
    else
      None
  }

  /** One layer of the parse: a held prefix is stripped, and an absent one
      is left alone as long as the rest does not start with it. */
  lemma StripLayer(held: bool, p: string, t: string)
    requires held || !(p <= t)
    ensures StripPrefix(p, Prefix(held, p) + t) == Stripped(held, t)
  {
    if held {
      assert (p + t)[..|p|] == p;
      assert (p + t)[|p|..] == t;
    } else {
      assert Prefix(held, p) + t == t;
    }
  }

  /** A string that differs from p at some position inside both does not
      start with p. */
  lemma NotPrefixAt(p: string, s: string, i: nat)
    requires i < |p| && i < |s| && p[i] != s[i]
    ensures !(p <= s)
  {
  }

  /** A digit string starts with no modifier prefix. */
  lemma DigitsStartNoPrefix(p: string, s: string)
    requires p != [] && !IsDigit(p[0]) && s != [] && AllDigits(s)
    ensures !(p <= s)
  {
    NotPrefixAt(p, s, 0);
  }

  /** Every binding key reads back as the held set and key it was built
      from: the key records exactly the held modifiers, in the fixed order. */
  lemma BindingKeyRoundTrip(h: Held, key: Code)
    ensures ParseBindingKey(BindingKey(h, key)) == Some(Parsed(h, key))
  {
    var t := KeyText(key);
    KeyTextRoundTrip(key);
    Regroup(Prefix(h.command, "command-"), Prefix(h.control, "control-"),
      Prefix(h.option, "option-"), Prefix(h.shift, "shift-"), t);
    ParseOfPrefixed(h, t);
  }

  lemma Regroup(a: string, b: string, c: string, d: string, t: string)
    ensures a + b + c + d + t == a + (b + (c + (d + t)))
  {
  }

  /** Parsing the prefixes of h in order, then a digit string t. */
  lemma ParseOfPrefixed(h: Held, t: string)
    requires t != [] && AllDigits(t)
    ensures ParseBindingKey(Prefix(h.command, "command-") + (Prefix(h.control, "control-")
      + (Prefix(h.option, "option-") + (Prefix(h.shift, "shift-") + t))))
      == Some(Parsed(h, DigitsValue(t)))
  {
    var t3 := Prefix(h.shift, "shift-") + t;
    var t2 := Prefix(h.option, "option-") + t3;
    var t1 := Prefix(h.control, "control-") + t2;
    var t0 := Prefix(h.command, "command-") + t1;
    StripShift(h.shift, t);
    StripOption(h.option, t3, h.shift, t);
    StripControl(h.control, t2, h.option, t3, h.shift, t);
    StripCommand(h.command, t1, h.control, t2, h.option, t3, h.shift, t);
    ParseOfStripped(t0, t1, t2, t3, t, h);
  }

  lemma StripShift(shift: bool, t: string)
    requires t != [] && AllDigits(t)
    ensures StripPrefix("shift-", Prefix(shift, "shift-") + t) == Stripped(shift, t)
  {
    DigitsStartNoPrefix("shift-", t);
    StripLayer(shift, "shift-", t);
  }

  lemma StripOption(option: bool, t3: string, shift: bool, t: string)
    requires t != [] && AllDigits(t) && t3 == Prefix(shift, "shift-") + t
    ensures StripPrefix("option-", Prefix(option, "option-") + t3) == Stripped(option, t3)
  {
    if shift {
      NotPrefixAt("option-", t3, 0);
    } else {
      assert t3 == t;
      DigitsStartNoPrefix("option-", t);
    }
    StripLayer(option, "option-", t3);
  }

  lemma StripControl(control: bool, t2: string, option: bool, t3: string, shift: bool, t: string)
    requires t != [] && AllDigits(t) && t3 == Prefix(shift, "shift-") + t
    requires t2 == Prefix(option, "option-") + t3
    ensures StripPrefix("control-", Prefix(control, "control-") + t2) == Stripped(control, t2)
  {
    if option {
      NotPrefixAt("control-", t2, 0);
    } else if shift {
      assert t2 == t3;
      NotPrefixAt("control-", t2, 0);
    } else {
      assert t2 == t3 == t;
      DigitsStartNoPrefix("control-", t);
    }
    StripLayer(control, "control-", t2);
  }

  lemma StripCommand(command: bool, t1: string, control: bool, t2: string, option: bool, t3: string,
                     shift: bool, t: string)
    requires t != [] && AllDigits(t) && t3 == Prefix(shift, "shift-") + t
    requires t2 == Prefix(option, "option-") + t3 && t1 == Prefix(control, "control-") + t2
    ensures StripPrefix("command-", Prefix(command, "command-") + t1) == Stripped(command, t1)
  {
    if control {
      NotPrefixAt("command-", t1, 2);
    } else if option {
      assert t1 == t2;
      NotPrefixAt("command-", t1, 0);
    } else if shift {
      assert t1 == t2 == t3;
      NotPrefixAt("command-", t1, 0);
    } else {
      assert t1 == t2 == t3 == t;
      DigitsStartNoPrefix("command-", t);
    }
    StripLayer(command, "command-", t1);
  }

  /** The parse, given what each layer strips. */
  lemma ParseOfStripped(t0: string, t1: string, t2: string, t3: string, t: string, h: Held)
    requires StripPrefix("command-", t0) == Stripped(h.command, t1)
    requires StripPrefix("control-", t1) == Stripped(h.control, t2)
    requires StripPrefix("option-", t2) == Stripped(h.option, t3)
    requires StripPrefix("shift-", t3) == Stripped(h.shift, t)
    requires t != [] && AllDigits(t)
    ensures ParseBindingKey(t0) == Some(Parsed(h, DigitsValue(t)))
  {
  }

  /** Two lookups hit the same table entry only for the same held set and
      the same key: the string key is as exact as a structured key. */
  lemma BindingKeyInjective(h1: Held, k1: Code, h2: Held, k2: Code)
    requires BindingKey(h1, k1) == BindingKey(h2, k2)
    ensures h1 == h2 && k1 == k2
  {
    BindingKeyRoundTrip(h1, k1);
    BindingKeyRoundTrip(h2, k2);
  }

  /** The modifier prefixes, in the order a binding key carries them. */
  const NAMES: seq<string> := ["command-", "control-", "option-", "shift-"]

  /** The rank in NAMES of the last held modifier, or -1 when none is held. */
  function LastHeld(h: Held): (r: int)
    ensures -1 <= r < |NAMES|
    ensures r == -1 <==> !h.command && !h.control && !h.option && !h.shift
  {
    if h.shift then 3 else if h.option then 2
    else if h.control then 1 else if h.command then 0 else -1
  }

  /** The prefixes of the modifiers held in h, in order, followed by t. */
  function Prefixed(h: Held, t: string): string {
    Prefix(h.command, "command-") + (Prefix(h.control, "control-")
      + (Prefix(h.option, "option-") + (Prefix(h.shift, "shift-") + t)))
  }

  /** Two different modifier prefixes: a string that starts with one does
      not start with the other. */
  lemma NamesDiffer(a: nat, b: nat, rest: string)
    requires a < |NAMES| && b < |NAMES| && a != b
    ensures !(NAMES[a] <= NAMES[b] + rest)
  {
    var i := if a + b == 1 then 2 else 0;
    assert (NAMES[b] + rest)[i] == NAMES[b][i];
    NotPrefixAt(NAMES[a], NAMES[b] + rest, i);
  }

  /** The parse, given what each layer strips, rejects a remainder that is
      not a digit string. */
  lemma ParseRejects(t0: string, t1: string, t2: string, t3: string, t: string, h: Held)
    requires StripPrefix("command-", t0) == Stripped(h.command, t1)
    requires StripPrefix("control-", t1) == Stripped(h.control, t2)
    requires StripPrefix("option-", t2) == Stripped(h.option, t3)
    requires StripPrefix("shift-", t3) == Stripped(h.shift, t)
    requires !AllDigits(t)
    ensures ParseBindingKey(t0) == None
  {
  }

  /** A key whose prefixes are out of order reads as nothing: the prefixes
      of h in order, then a prefix NAMES[j] that is not later than the last
      of them ("control-command-", "shift-option-", "option-option-"), then
      anything. Every string of prefixes not in strictly increasing order
      starts this way. */
  lemma OutOfOrderRejected(h: Held, j: nat, rest: string)
    requires j < |NAMES| && j <= LastHeld(h)
    ensures ParseBindingKey(Prefixed(h, NAMES[j] + rest)) == None
  {
    var t := NAMES[j] + rest;
    var t3 := Prefix(h.shift, "shift-") + t;
    var t2 := Prefix(h.option, "option-") + t3;
    var t1 := Prefix(h.control, "control-") + t2;
    var t0 := Prefix(h.command, "command-") + t1;
    OutOfOrderShift(h, j, rest, t);
    OutOfOrderOption(h, j, rest, t, t3);
    OutOfOrderControl(h, j, rest, t, t3, t2);
    OutOfOrderCommand(h, j, rest, t, t3, t2, t1);
    NameNotDigits(j, rest);
    ParseRejects(t0, t1, t2, t3, t, h);
    assert Prefixed(h, t) == t0;
  }

  /** A string that starts with a modifier prefix is not a digit string. */
  lemma NameNotDigits(j: nat, rest: string)
    requires j < |NAMES|
    ensures !AllDigits(NAMES[j] + rest)
  {
    assert (NAMES[j] + rest)[0] == NAMES[j][0];
  }

  lemma OutOfOrderShift(h: Held, j: nat, rest: string, t: string)
    requires j < |NAMES| && j <= LastHeld(h) && t == NAMES[j] + rest
    ensures StripPrefix("shift-", Prefix(h.shift, "shift-") + t) == Stripped(h.shift, t)
  {
    if !h.shift {
      NamesDiffer(3, j, rest);
    }
    StripLayer(h.shift, "shift-", t);
  }

  lemma OutOfOrderOption(h: Held, j: nat, rest: string, t: string, t3: string)
    requires j < |NAMES| && j <= LastHeld(h) && t == NAMES[j] + rest
    requires t3 == Prefix(h.shift, "shift-") + t
    ensures StripPrefix("option-", Prefix(h.option, "option-") + t3) == Stripped(h.option, t3)
  {
    if !h.option {
      if h.shift { NamesDiffer(2, 3, t); } else { NamesDiffer(2, j, rest); }
    }
    StripLayer(h.option, "option-", t3);
  }

  lemma OutOfOrderControl(h: Held, j: nat, rest: string, t: string, t3: string, t2: string)
    requires j < |NAMES| && j <= LastHeld(h) && t == NAMES[j] + rest
    requires t3 == Prefix(h.shift, "shift-") + t && t2 == Prefix(h.option, "option-") + t3
    ensures StripPrefix("control-", Prefix(h.control, "control-") + t2) == Stripped(h.control, t2)
  {
    if !h.control {
      if h.option { NamesDiffer(1, 2, t3); }
      else if h.shift { NamesDiffer(1, 3, t); }
      else { NamesDiffer(1, j, rest); }
    }
    StripLayer(h.control, "control-", t2);
  }

  lemma OutOfOrderCommand(h: Held, j: nat, rest: string, t: string, t3: string, t2: string, t1: string)
    requires j < |NAMES| && j <= LastHeld(h) && t == NAMES[j] + rest
    requires t3 == Prefix(h.shift, "shift-") + t && t2 == Prefix(h.option, "option-") + t3
    requires t1 == Prefix(h.control, "control-") + t2
    ensures StripPrefix("command-", Prefix(h.command, "command-") + t1) == Stripped(h.command, t1)
  {
    if !h.command {
      if h.control { NamesDiffer(0, 1, t2); }
      else if h.option { NamesDiffer(0, 2, t3); }
      else if h.shift { NamesDiffer(0, 3, t); }
      else { assert false; }
    }
    StripLayer(h.command, "command-", t1);
  }

  /** A string the parse rejects is never built as a lookup key. */
  lemma UnparsedNeverBuilt(h: Held, key: Code, s: string)
    requires ParseBindingKey(s) == None
    ensures BindingKey(h, key) != s
  {
    BindingKeyRoundTrip(h, key);
  }

  /** A key with its prefixes out of order ("control-command-65",
      "shift-command-65", "control-shift-command-65") is never built, so a
      table entry written that way can never match. */
  lemma OutOfOrderNeverBuilt(h: Held, key: Code, order: Held, j: nat, rest: string)
    requires j < |NAMES| && j <= LastHeld(order)
    ensures BindingKey(h, key) != Prefixed(order, NAMES[j] + rest)
  {
    OutOfOrderRejected(order, j, rest);
    UnparsedNeverBuilt(h, key, Prefixed(order, NAMES[j] + rest));
  }

  /** A table whose every key is the lookup key of some held set and key,
      the form the table's keys are written in. */
  ghost predicate Canonical(table: Table) {
    forall s :: s in table ==> exists h: Held, key: Code :: s == BindingKey(h, key)
  }

  /** Looking a key press up by its string key is looking it up by the
      parsed entries of a canonical table: the entry that reads as this held
      set and key is run when there is one, and the pass-through binding
      when no entry reads that way. */
  lemma ResolveByParse(table: Table, h: Held, key: Code)
    requires Canonical(table)
    ensures forall s :: s in table && ParseBindingKey(s) == Some(Parsed(h, key)) ==>
      Resolve(table, h, key) == table[s]
    ensures (forall s :: s in table ==> ParseBindingKey(s) != Some(Parsed(h, key))) ==>
      Resolve(table, h, key) == [PassThrough(h, key)]
  {
    BindingKeyRoundTrip(h, key);
    forall s | s in table && ParseBindingKey(s) == Some(Parsed(h, key))
      ensures s == BindingKey(h, key)
    {
      var h', key' :| s == BindingKey(h', key');
      BindingKeyRoundTrip(h', key');
    }
  }

  /** The binding table of the remapper, keyed by BindingKey text.
      Each line's comment names the keys; the texts are their codes. */
  const BINDINGS: Table := map[
    "226" := [Binding(OEM_102, false, false, true)],             // OEM_102
    "45" := [Binding(F12, false, false, false)],                 // INSERT
    "command-86" := [Binding(INSERT, false, false, true)],       // command-V
    "command-81" := [Binding(F4, false, true, false)],           // command-Q
    "control-32" := [Binding(U, true, false, false)],            // control-SPACE
    "control-65" := [Binding(HOME, false, false, false)],        // control-A
    "control-66" := [Binding(LEFT, false, false, false)],        // control-B
    "control-68" := [Binding(DELETE, false, false, false)],      // control-D
    "control-69" := [Binding(END, false, false, false)],         // control-E
    "control-70" := [Binding(RIGHT, false, false, false)],       // control-F
    "control-71" := [Binding(ESCAPE, false, false, false)],      // control-G
    "control-72" := [Binding(BACK, false, false, false)],        // control-H
    "control-73" := [Binding(TAB, false, false, false)],         // control-I
    "control-77" := [Binding(RETURN, false, false, false)],      // control-M
    "control-78" := [Binding(DOWN, false, false, false)],        // control-N
    "control-80" := [Binding(UP, false, false, false)],          // control-P
    "control-81" := [Binding(PRIOR, false, false, false)],       // control-Q
    "control-83" := [Binding(A, true, false, false)],            // control-S
    "control-87" := [Binding(NEXT, false, false, false)],        // control-W
    "control-190" := [Binding(END, true, false, false)],         // control-OEM_PERIOD
    "control-188" := [Binding(HOME, true, false, false)],        // control-OEM_COMMA
    "command-control-65" := [Binding(HOME, false, false, true)], // command-control-A
    "command-control-66" := [Binding(LEFT, false, false, true)], // command-control-B
    "command-control-69" := [Binding(END, false, false, true)],  // command-control-E
    "command-control-70" := [Binding(RIGHT, false, false, true)], // command-control-F
    "command-control-78" := [Binding(DOWN, false, false, true)], // command-control-N
    "command-control-80" := [Binding(UP, false, false, true)],   // command-control-P
    "command-control-68" := [Binding(DELETE, true, false, false)], // command-control-D
    "command-control-72" := [Binding(BACK, true, false, false)], // command-control-H
    "242" := [Binding(LEFT, false, true, false)],                // HIRAGANA_KATAKANA
    "29" := [Binding(W, true, false, false)]                     // NONCONVERT
  ]

  /** A table text under no modifier names the lookup key of its key. */
  lemma PlainKey(key: Code, t: string, s: string)
    requires KeyText(key) == t && s == t
    ensures s == BindingKey(Held(false, false, false, false), key)
  {
  }

  /** A table text under command alone names the lookup key of its key. */
  lemma CommandKey(key: Code, t: string, s: string)
    requires KeyText(key) == t && s == "command-" + t
    ensures s == BindingKey(Held(true, false, false, false), key)
  {
  }

  /** A table text under control alone names the lookup key of its key. */
  lemma ControlKey(key: Code, t: string, s: string)
    requires KeyText(key) == t && s == "control-" + t
    ensures s == BindingKey(Held(false, true, false, false), key)
  {
  }

  /** A table text under command and control names the lookup key of its key. */
  lemma CommandControlKey(key: Code, t: string, s: string)
    requires KeyText(key) == t && s == "command-control-" + t
    ensures s == BindingKey(Held(true, true, false, false), key)
  {
  }

  /** Every key of the remapper's table is the lookup key of the held set
      and key its text names, so the string lookup of a key press finds an
      entry exactly when the entry reads as the held set and key pressed. */
  lemma BindingsCanonical()
    ensures Canonical(BINDINGS)
  {
    forall s | s in BINDINGS
      ensures exists h: Held, key: Code :: s == BindingKey(h, key)
    {
      if s in {"226", "45", "242", "29"} {
        PlainEntries(s);
      } else if s in {"command-86", "command-81"} {
        CommandEntries(s);
      } else if s in {"control-32", "control-65", "control-66", "control-68"} {
        ControlEntriesA(s);
      } else if s in {"control-69", "control-70", "control-71", "control-72"} {
        ControlEntriesB(s);
      } else if s in {"control-73", "control-77", "control-78", "control-80"} {
        ControlEntriesC(s);
      } else if s in {"control-81", "control-83", "control-87", "control-190", "control-188"} {
        ControlEntriesD(s);
      } else if s in {"command-control-65", "command-control-66", "command-control-69",
            "command-control-70"} {
        CommandControlEntriesA(s);
      } else {
        CommandControlEntriesB(s);
      }
    }
  }

  /** The remapper's own lookup: a key press runs the table entry that
      reads as its held set and key, and passes through when none does. */
  lemma ResolveBindings(h: Held, key: Code)
    ensures forall s :: s in BINDINGS && ParseBindingKey(s) == Some(Parsed(h, key)) ==>
      Resolve(BINDINGS, h, key) == BINDINGS[s]
    ensures (forall s :: s in BINDINGS ==> ParseBindingKey(s) != Some(Parsed(h, key))) ==>
      Resolve(BINDINGS, h, key) == [PassThrough(h, key)]
  {
    BindingsCanonical();
    ResolveByParse(BINDINGS, h, key);
  }

  /** The table keys with no modifier. */
  lemma PlainEntries(s: string)
    requires s in {"226", "45", "242", "29"}
    ensures exists h: Held, key: Code :: s == BindingKey(h, key)
  {
    if s == "226" {
      PlainKey(OEM_102, "226", s);
    } else if s == "45" {
      PlainKey(INSERT, "45", s);
    } else if s == "242" {
      PlainKey(HIRAGANA_KATAKANA, "242", s);
    } else if s == "29" {
      PlainKey(NONCONVERT, "29", s);
    }
  }

  /** The table keys under command alone. */
  lemma CommandEntries(s: string)
    requires s in {"command-86", "command-81"}
    ensures exists h: Held, key: Code :: s == BindingKey(h, key)
  {
    if s == "command-86" {
      CommandKey(V, "86", s);
    } else if s == "command-81" {
      CommandKey(Q, "81", s);
    }
  }

  /** The first table keys under control. */
  lemma ControlEntriesA(s: string)
    requires s in {"control-32", "control-65", "control-66", "control-68"}
    ensures exists h: Held, key: Code :: s == BindingKey(h, key)
  {
    if s == "control-32" {
      ControlKey(SPACE, "32", s);
    } else if s == "control-65" {
      ControlKey(A, "65", s);
    } else if s == "control-66" {
      ControlKey(B, "66", s);
    } else if s == "control-68" {
      ControlKey(D, "68", s);
    }
  }

  /** The next table keys under control. */
  lemma ControlEntriesB(s: string)
    requires s in {"control-69", "control-70", "control-71", "control-72"}
    ensures exists h: Held, key: Code :: s == BindingKey(h, key)
  {
    if s == "control-69" {
      ControlKey(E, "69", s);
    } else if s == "control-70" {
      ControlKey(F, "70", s);
    } else if s == "control-71" {
      ControlKey(G, "71", s);
    } else if s == "control-72" {
      ControlKey(H, "72", s);
    }
  }

  /** The next table keys under control. */
  lemma ControlEntriesC(s: string)
    requires s in {"control-73", "control-77", "control-78", "control-80"}
    ensures exists h: Held, key: Code :: s == BindingKey(h, key)
  {
    if s == "control-73" {
      ControlKey(I, "73", s);
    } else if s == "control-77" {
      ControlKey(M, "77", s);
    } else if s == "control-78" {
      ControlKey(N, "78", s);
    } else if s == "control-80" {
      ControlKey(P, "80", s);
    }
  }

  /** The last table keys under control. */
  lemma ControlEntriesD(s: string)
    requires s in {"control-81", "control-83", "control-87", "control-190", "control-188"}
    ensures exists h: Held, key: Code :: s == BindingKey(h, key)
  {
    if s == "control-81" {
      ControlKey(Q, "81", s);
    } else if s == "control-83" {
      ControlKey(S, "83", s);
    } else if s == "control-87" {
      ControlKey(W, "87", s);
    } else if s == "control-190" {
      ControlKey(OEM_PERIOD, "190", s);
    } else if s == "control-188" {
      ControlKey(OEM_COMMA, "188", s);
    }
  }

  /** The first table keys under command and control. */
  lemma CommandControlEntriesA(s: string)
    requires s in {"command-control-65", "command-control-66", "command-control-69",
          "command-control-70"}
    ensures exists h: Held, key: Code :: s == BindingKey(h, key)
  {
    if s == "command-control-65" {
      CommandControlKey(A, "65", s);
    } else if s == "command-control-66" {
      CommandControlKey(B, "66", s);
    } else if s == "command-control-69" {
      CommandControlKey(E, "69", s);
    } else if s == "command-control-70" {
      CommandControlKey(F, "70", s);
    }
  }

  /** The last table keys under command and control. */
  lemma CommandControlEntriesB(s: string)
    requires s in {"command-control-78", "command-control-80", "command-control-68",
          "command-control-72"}
    ensures exists h: Held, key: Code :: s == BindingKey(h, key)
  {
    if s == "command-control-78" {
      CommandControlKey(N, "78", s);
    } else if s == "command-control-80" {
      CommandControlKey(P, "80", s);
    } else if s == "command-control-68" {
      CommandControlKey(D, "68", s);
    } else if s == "command-control-72" {
      CommandControlKey(H, "72", s);
    }
  }
}
