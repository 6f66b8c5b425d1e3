/** The remapper's binding table end to end: what the OS receives for a few
    key presses from the start state. */
module Scenarios {
  import opened Keys
  import opened Bindings
  import opened Input
  import opened Control
  import opened Behaviour

  /** A binding sent under exactly the modifiers the OS already has sends
      its key down and up and nothing else. */
  lemma ExecUnderOwnMods(os: Mods, b: Binding)
    requires os.Keys == TRACKED_SET && b.key !in TRACKED_SET && BindingMods(b) == os
    ensures ExecEvents(os, b, true) == [Event(b.key, true), Event(b.key, false)]
  {
    ExecUndoesFixes(os, b, true);
    SyncUpToNothing(os, BindingMods(b), |TRACKED|);
    assert Undo([]) == [];
  }

  /** A binding that needs alt alone, sent with every modifier up: alt goes
      down around the key press. */
  lemma ExecUnderAlt(b: Binding)
    requires b.key !in TRACKED_SET && !b.ctrl && b.alt && !b.shift
    ensures ExecEvents(AllUp(), b, true)
      == [Event(LEFT_ALT, true), Event(b.key, true), Event(b.key, false), Event(LEFT_ALT, false)]
  {
    var os := AllUp();
    ExecUndoesFixes(os, b, true);
    SyncEventsShape(os, BindingMods(b));
    assert SyncEvents(os, BindingMods(b)) == [Event(LEFT_ALT, true)];
  }

  /** Running one binding list of a single binding. */
  lemma ExecAllOne(os: Mods, b: Binding)
    requires os.Keys == TRACKED_SET
    ensures ExecAll(os, [b]) == ExecEvents(os, b, true)
  {
    assert [b][..0] == [];
  }

  /** A plain key press in a running state runs the bindings it resolves
      to and changes no state. */
  lemma PlainKeyRun(s: CtlState, table: Table, key: Code)
    requires Coherent(s) && !s.halted && key !in LOGICAL && key != F4 && key != TAB
    ensures Run(s, table, [Down(key)])
      == Reaction(s, ExecAll(s.os, Resolve(table, HeldOf(s.mods), key)))
  {
    RunOne(s, table, Down(key));
    NormalKeyDownKeepsState(s, table, key);
  }

  /** Pressing a logical modifier in a running state holds it, forwarding
      its key-down unless it is control. */
  lemma ModifierRun(s: CtlState, table: Table, key: Code)
    requires Coherent(s) && !s.halted && key in LOGICAL
    ensures Run(s, table, [Down(key)])
      == Reaction(s.(mods := s.mods[key := true]), if key != V_CONTROL then [Event(key, true)] else [])
  {
    RunOne(s, table, Down(key));
    ApplyUntracked(s.os, if key != V_CONTROL then [Event(key, true)] else []);
  }

  /** The start state: running, nothing held, every OS modifier up. */
  predicate Fresh(s: CtlState) {
    Coherent(s) && !s.halted && !s.taskSwitch && s.os == AllUp() &&
    forall c :: c in LOGICAL ==> !s.mods[c]
  }

  lemma InitialFresh()
    ensures Fresh(Initial())
  {
    InitialCoherent();
  }

  lemma ControlALookup(h: Held)
    requires h == Held(false, true, false, false)
    ensures Resolve(BINDINGS, h, A) == [Binding(HOME, false, false, false)]
  {
    assert KeyText(A) == "65";
    assert BindingKey(h, A) == "control-65";
  }

  lemma CommandQLookup(h: Held)
    requires h == Held(true, false, false, false)
    ensures Resolve(BINDINGS, h, Q) == [Binding(F4, false, true, false)]
  {
    assert KeyText(Q) == "81";
    assert BindingKey(h, Q) == "command-81";
  }

  lemma PlainBLookup(h: Held)
    requires h == Held(false, false, false, false)
    ensures Resolve(BINDINGS, h, B) == [Binding(B, false, false, false)]
  {
    assert KeyText(B) == "66";
    assert BindingKey(h, B) == "66";
    assert "66" !in BINDINGS;
  }

  /** Holding control and pressing A sends Home, with ctrl never touched at
      the OS level: control itself is not forwarded and Home wants no
      modifier. */
  lemma ControlAIsHome(s: CtlState)
    requires Fresh(s)
    ensures Run(s, BINDINGS, [Down(V_CONTROL), Down(A)]).events
      == [Event(HOME, true), Event(HOME, false)]
  {
    RunAppend(s, BINDINGS, [Down(V_CONTROL)], [Down(A)]);
    ModifierRun(s, BINDINGS, V_CONTROL);
    ModDownCoherent(s, V_CONTROL);
    PressAUnderControl(s.(mods := s.mods[V_CONTROL := true]));
  }

  lemma PressAUnderControl(held: CtlState)
    requires Coherent(held) && !held.halted && held.os == AllUp()
    requires HeldOf(held.mods) == Held(false, true, false, false)
    ensures Run(held, BINDINGS, [Down(A)]).events == [Event(HOME, true), Event(HOME, false)]
  {
    PlainKeyRun(held, BINDINGS, A);
    var home := Binding(HOME, false, false, false);
    ControlALookup(HeldOf(held.mods));
    ExecAllOne(AllUp(), home);
    SameTracked(BindingMods(home), AllUp());
    ExecUnderOwnMods(AllUp(), home);
  }

  /** Holding command and pressing Q closes the window: command is
      forwarded, then alt goes down around an F4 press. */
  lemma CommandQIsAltF4(s: CtlState)
    requires Fresh(s)
    ensures Run(s, BINDINGS, [Down(V_COMMAND), Down(Q)]).events
      == [Event(V_COMMAND, true), Event(LEFT_ALT, true), Event(F4, true), Event(F4, false),
          Event(LEFT_ALT, false)]
  {
    RunAppend(s, BINDINGS, [Down(V_COMMAND)], [Down(Q)]);
    ModifierRun(s, BINDINGS, V_COMMAND);
    ModDownCoherent(s, V_COMMAND);
    PressQUnderCommand(s.(mods := s.mods[V_COMMAND := true]));
  }

  lemma PressQUnderCommand(held: CtlState)
    requires Coherent(held) && !held.halted && held.os == AllUp()
    requires HeldOf(held.mods) == Held(true, false, false, false)
    ensures Run(held, BINDINGS, [Down(Q)]).events
      == [Event(LEFT_ALT, true), Event(F4, true), Event(F4, false), Event(LEFT_ALT, false)]
  {
    PlainKeyRun(held, BINDINGS, Q);
    var altF4 := Binding(F4, false, true, false);
    CommandQLookup(HeldOf(held.mods));
    ExecAllOne(AllUp(), altF4);
    ExecUnderAlt(altF4);
  }

  /** With nothing held, a key the table does not map passes through as a
      plain press. */
  lemma UnmappedKeyPassesThrough(s: CtlState)
    requires Fresh(s)
    ensures Run(s, BINDINGS, [Down(B)]).events == [Event(B, true), Event(B, false)]
  {
    PlainKeyRun(s, BINDINGS, B);
    var plain := Binding(B, false, false, false);
    PlainBLookup(HeldOf(s.mods));
    ExecAllOne(AllUp(), plain);
    SameTracked(BindingMods(plain), AllUp());
    ExecUnderOwnMods(AllUp(), plain);
  }
}
