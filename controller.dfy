/** The controller: it tracks the logical modifiers the user holds, resolves
    key presses against the binding table, runs the command+Tab task-switch
    gesture, and hands bindings to the input manager. */
module Control {
  import opened Keys
  import opened Bindings
  import opened Input

  /** The controller's state together with the input manager's cache. */
  datatype CtlState = CtlState(mods: Mods, taskSwitch: bool, halted: bool, os: Mods)

  /** What handling one hook event does: the next state and the events
      injected into the OS, in order. */
  datatype Reaction = Reaction(next: CtlState, events: seq<Event>)

  predicate WellFormed(s: CtlState) {
    s.mods.Keys == LOGICAL && s.os.Keys == TRACKED_SET
  }

  /** The state the remapper starts in. */
  function Initial(): (s: CtlState)
    ensures WellFormed(s)
  {
    CtlState(map[V_COMMAND := false, V_CONTROL := false, V_OPTION := false, V_SHIFT := false],
             false, false, AllUp())
  }

  /** A reaction that injects es: the cache follows the events. */
  function Emit(s: CtlState, es: seq<Event>): Reaction {
    Reaction(s.(os := Apply(s.os, es)), es)
  }

  /** Everything executing a list of bindings sends, each with restore;
      every execution starts from the same cache (see ExecRestores). */
  function ExecAll(os: Mods, bs: seq<Binding>): seq<Event>
    requires os.Keys == TRACKED_SET
    decreases |bs|
  {
    if bs == [] then [] else ExecAll(os, bs[..|bs| - 1]) + ExecEvents(os, bs[|bs| - 1], true)
  }

  /** A non-modifier, non-Tab key press: run what the table maps it to. */
  function NormalKeyDown(s: CtlState, table: Table, key: Code): Reaction
    requires WellFormed(s)
  {
    Emit(s, ExecAll(s.os, Resolve(table, HeldOf(s.mods), key)))
  }

  /** Tab: a normal key unless command is held; under command, the first
      Tab releases right ctrl and holds alt, and every Tab sends Tab down. */
  function TabDown(s: CtlState, table: Table): Reaction
    requires WellFormed(s)
  {
    if !s.mods[V_COMMAND] then NormalKeyDown(s, table, TAB)
    else
      var start := if s.taskSwitch then [] else [Event(RIGHT_CTRL, false), Event(LEFT_ALT, true)];
      Emit(s.(taskSwitch := true), start + [Event(TAB, true)])
  }

  /** A logical modifier goes down; it is forwarded unless it is control. */
  function ModDown(s: CtlState, key: Code): Reaction
    requires WellFormed(s) && key in LOGICAL
  {
    Emit(s.(mods := s.mods[key := true]), if key != V_CONTROL then [Event(key, true)] else [])
  }

  /** A logical modifier goes up. Releasing a held command during a task
      switch first lets alt go and ends the task switch. */
  function ModUp(s: CtlState, key: Code): Reaction
    requires WellFormed(s) && key in LOGICAL
  {
    var ending := key == V_COMMAND && s.mods[V_COMMAND] && s.taskSwitch;
    Emit(s.(mods := s.mods[key := false], taskSwitch := if ending then false else s.taskSwitch),
         (if ending then [Event(LEFT_ALT, false)] else []) + [Event(key, false)])
  }

  /** The exit key: release every tracked modifier and halt. */
  function ExitStep(s: CtlState): Reaction {
    Emit(s.(halted := true), Releases(TRACKED))
  }

  /** A key-down from the hook. */
  function KeyDown(s: CtlState, table: Table, key: Code): Reaction
    requires WellFormed(s)
  {
    if s.halted then Reaction(s, [])
    else if key == F4 then ExitStep(s)
    else if key in s.mods then ModDown(s, key)
    else if key == TAB then TabDown(s, table)
    else NormalKeyDown(s, table, key)
  }

  /** A key-up from the hook: only modifiers react. */
  function KeyUp(s: CtlState, key: Code): Reaction
    requires WellFormed(s)
  {
    if s.halted then Reaction(s, [])
    else if key in s.mods then ModUp(s, key)
    else Reaction(s, [])
  }

  /** The OS modifiers while the remapper runs: ctrl and shift up, alt
      down exactly during a task switch. */
  function Idle(alt: bool): Mods {
    map[LEFT_CTRL := false, LEFT_ALT := alt, LEFT_SHIFT := false]
  }

  /** The controller's invariant: while running, the cache holds ctrl and
      shift up and alt down exactly during a task switch, and a task switch
      happens only with command held. */
  predicate Coherent(s: CtlState) {
    WellFormed(s) &&
    (!s.halted ==> s.os == Idle(s.taskSwitch) && (s.taskSwitch ==> s.mods[V_COMMAND]))
  }

  lemma InitialCoherent()
    ensures Coherent(Initial())
  {
  }

  /** Executing any list of bindings leaves the cache as it was. */
  lemma {:induction false} ExecAllRestores(os: Mods, bs: seq<Binding>)
    requires os.Keys == TRACKED_SET
    ensures Apply(os, ExecAll(os, bs)) == os
    decreases |bs|
  {
    if bs != [] {
      var init := bs[..|bs| - 1];
      ExecAllRestores(os, init);
      ApplyAppend(os, ExecAll(os, init), ExecEvents(os, bs[|bs| - 1], true));
      ExecRestores(os, bs[|bs| - 1], true);
    }
  }

  lemma ApplyOne(os: Mods, e: Event)
    ensures Apply(os, [e]) == Send(os, e)
  {
    assert Apply(os, [e]) == Apply(Send(os, e), []);
  }

  /** Releasing every tracked modifier leaves them all up. */
  lemma {:induction false} ApplyReleases(os: Mods, codes: seq<Code>)
    ensures var r := Apply(os, Releases(codes));
      r.Keys == os.Keys && forall c :: c in os ==> r[c] == (c !in codes && os[c])
    decreases |codes|
  {
    if codes != [] {
      var first := Event(codes[0], false);
      assert Releases(codes) == [first] + Releases(codes[1..]);
      ApplyAppend(os, [first], Releases(codes[1..]));
      ApplyOne(os, first);
      ApplyReleases(Send(os, first), codes[1..]);
      forall c | c in os
        ensures Apply(os, Releases(codes))[c] == (c !in codes && os[c])
      {
        assert c in codes <==> c == codes[0] || c in codes[1..];
      }
    }
  }

  /** Sending a key that is not tracked leaves the cache alone. */
  lemma ApplyUntracked(os: Mods, es: seq<Event>)
    requires forall i :: 0 <= i < |es| ==> es[i].code !in os
    ensures Apply(os, es) == os
    decreases |es|
  {
    if es != [] {
      assert Send(os, es[0]) == os;
      ApplyUntracked(os, es[1..]);
    }
  }

  /** A non-modifier key press changes no controller state and leaves the
      OS modifiers as they were: it only emits the bindings' events. */
  lemma NormalKeyDownKeepsState(s: CtlState, table: Table, key: Code)
    requires WellFormed(s)
    ensures NormalKeyDown(s, table, key) == Reaction(s, ExecAll(s.os, Resolve(table, HeldOf(s.mods), key)))
  {
    ExecAllRestores(s.os, Resolve(table, HeldOf(s.mods), key));
  }

  lemma NormalKeyDownCoherent(s: CtlState, table: Table, key: Code)
    requires Coherent(s)
    ensures Coherent(NormalKeyDown(s, table, key).next)
  {
    NormalKeyDownKeepsState(s, table, key);
  }

  lemma TabDownCoherent(s: CtlState, table: Table)
    requires Coherent(s)
    ensures Coherent(TabDown(s, table).next)
  {
    if !s.mods[V_COMMAND] {
      NormalKeyDownCoherent(s, table, TAB);
    } else if !s.halted {
      var start := if s.taskSwitch then [] else [Event(RIGHT_CTRL, false), Event(LEFT_ALT, true)];
      var es := start + [Event(TAB, true)];
      if s.taskSwitch {
        ApplyUntracked(s.os, es);
      } else {
        assert es == [Event(RIGHT_CTRL, false)] + ([Event(LEFT_ALT, true)] + [Event(TAB, true)]);
        ApplyUntracked(s.os, [Event(RIGHT_CTRL, false)]);
        ApplyUntracked(s.os[LEFT_ALT := true], [Event(TAB, true)]);
        ApplyAppend(s.os, [Event(RIGHT_CTRL, false)], [Event(LEFT_ALT, true)] + [Event(TAB, true)]);
        ApplyAppend(s.os, [Event(LEFT_ALT, true)], [Event(TAB, true)]);
        assert Apply(s.os, [Event(LEFT_ALT, true)]) == s.os[LEFT_ALT := true];
        assert s.os[LEFT_ALT := true] == Idle(true);
      }
    }
  }

  lemma ModDownCoherent(s: CtlState, key: Code)
    requires Coherent(s) && key in LOGICAL
    ensures Coherent(ModDown(s, key).next)
  {
    ApplyUntracked(s.os, if key != V_CONTROL then [Event(key, true)] else []);
  }

  lemma ModUpCoherent(s: CtlState, key: Code)
    requires Coherent(s) && key in LOGICAL
    ensures Coherent(ModUp(s, key).next)
  {
    var ending := key == V_COMMAND && s.mods[V_COMMAND] && s.taskSwitch;
    if s.halted {
    } else if ending {
      ApplyAppend(s.os, [Event(LEFT_ALT, false)], [Event(key, false)]);
      assert Apply(s.os, [Event(LEFT_ALT, false)]) == s.os[LEFT_ALT := false];
      ApplyUntracked(s.os[LEFT_ALT := false], [Event(key, false)]);
      assert s.os[LEFT_ALT := false] == Idle(false);
    } else {
      assert ([] + [Event(key, false)]) == [Event(key, false)];
      ApplyUntracked(s.os, [Event(key, false)]);
    }
  }

  /** Every key-down keeps the controller's invariant. */
  lemma KeyDownCoherent(s: CtlState, table: Table, key: Code)
    requires Coherent(s)
    ensures Coherent(KeyDown(s, table, key).next)
  {
    if s.halted || key == F4 {
    } else if key in s.mods {
      ModDownCoherent(s, key);
    } else if key == TAB {
      TabDownCoherent(s, table);
    } else {
      NormalKeyDownCoherent(s, table, key);
    }
  }

  /** Every key-up keeps the controller's invariant. */
  lemma KeyUpCoherent(s: CtlState, key: Code)
    requires Coherent(s)
    ensures Coherent(KeyUp(s, key).next)
  {
    if !s.halted && key in s.mods {
      ModUpCoherent(s, key);
    }
  }

  /** One hook callback. */
  datatype HookEvent = Down(key: Code) | Up(key: Code)

  function Handle(s: CtlState, table: Table, h: HookEvent): (r: Reaction)
    requires Coherent(s)
    ensures Coherent(r.next)
  {
    match h
    case Down(key) => KeyDownCoherent(s, table, key); KeyDown(s, table, key)
    case Up(key) => KeyUpCoherent(s, key); KeyUp(s, key)
  }

  /** Handling a sequence of hook callbacks in order: the final state and
      everything injected on the way. */
  function Run(s: CtlState, table: Table, hs: seq<HookEvent>): (r: Reaction)
    requires Coherent(s)
    ensures Coherent(r.next)
    decreases |hs|
  {
    if hs == [] then Reaction(s, [])
    else
      var first := Handle(s, table, hs[0]);
      var rest := Run(first.next, table, hs[1..]);
      Reaction(rest.next, first.events + rest.events)
  }

  /** The task-switch invariant over every run from the start: while the
      remapper runs, alt is down at the OS exactly during a task switch,
      and ctrl and shift are up. */
  lemma ReachableAltIffTaskSwitch(table: Table, hs: seq<HookEvent>)
    ensures var s := Run(Initial(), table, hs).next;
      !s.halted ==> (s.os[LEFT_ALT] <==> s.taskSwitch) && !s.os[LEFT_CTRL] && !s.os[LEFT_SHIFT]
  {
    InitialCoherent();
  }

  /** Running one more binding appends that binding's events. */
  lemma ExecAllSnoc(os: Mods, bs: seq<Binding>, i: nat)
    requires os.Keys == TRACKED_SET && i < |bs|
    ensures ExecAll(os, bs[..i + 1]) == ExecAll(os, bs[..i]) + ExecEvents(os, bs[i], true)
  {
    assert bs[..i + 1][..i] == bs[..i];
  }

  /** The lookup key of a key press, built prefix by prefix in the fixed
      order command, control, option, shift. */
  method LookupKey(mods: Mods, key: Code) returns (binding: string)
    requires LOGICAL <= mods.Keys
    ensures binding == BindingKey(HeldOf(mods), key)
  {
    binding := "";
    if mods[V_COMMAND] {
      binding := binding + "command-";
    }
    assert binding == Prefix(mods[V_COMMAND], "command-");
    if mods[V_CONTROL] {
      binding := binding + "control-";
    }
    assert binding == Prefix(mods[V_COMMAND], "command-") + Prefix(mods[V_CONTROL], "control-");
    if mods[V_OPTION] {
      binding := binding + "option-";
    }
    assert binding == Prefix(mods[V_COMMAND], "command-") + Prefix(mods[V_CONTROL], "control-")
      + Prefix(mods[V_OPTION], "option-");
    if mods[V_SHIFT] {
      binding := binding + "shift-";
    }
    binding := binding + KeyText(key);
  }

  /** Runs each binding of a list in turn, as the key-down handler does. */
  method ExecBindings(manager: InputManager, bindings: seq<Binding>)
    requires manager.Valid()
    modifies manager
    ensures manager.Valid() && manager.osMods == old(manager.osMods)
    ensures manager.trace == old(manager.trace) + ExecAll(old(manager.osMods), bindings)
  {
    ghost var os0 := manager.osMods;
    ghost var done: seq<Event> := [];
    for i := 0 to |bindings|
      invariant manager.Valid() && manager.osMods == os0
      invariant manager.trace == old(manager.trace) + done
      invariant done == ExecAll(os0, bindings[..i])
    {
      ExecAllSnoc(os0, bindings, i);
      ghost var step := ExecEvents(os0, bindings[i], true);
      manager.ExecBindingDown(bindings[i], true);
      AppendAssoc(old(manager.trace), done, step);
      done := done + step;
    }
    assert bindings[..|bindings|] == bindings;
  }

  class Controller {
    const manager: InputManager
    /** Whether each logical modifier is held. */
    var mods: Mods
    /** Whether a command+Tab task switch is in progress. */
    var taskSwitch: bool
    /** Set by the exit key: no further events are handled. */
    var halted: bool
    const bindingMap: Table

    ghost function State(): CtlState
      reads this, manager
    {
      CtlState(mods, taskSwitch, halted, manager.osMods)
    }

    ghost predicate Valid()
      reads this, manager
    {
      manager.Valid() && Coherent(State())
    }

    constructor ()
      ensures Valid() && fresh(manager)
      ensures State() == Initial() && manager.trace == [] && bindingMap == BINDINGS
    {
      manager := new InputManager();
      mods := map[V_COMMAND := false, V_CONTROL := false, V_OPTION := false, V_SHIFT := false];
      taskSwitch := false;
      halted := false;
      bindingMap := BINDINGS;
    }

    method OnKeyDown(key: Code) returns (consumed: bool)
      requires Valid()
      modifies this, manager
      ensures Valid() && consumed
      ensures State() == KeyDown(old(State()), bindingMap, key).next
      ensures manager.trace == old(manager.trace) + KeyDown(old(State()), bindingMap, key).events
    {
      consumed := true;
      if halted {
        return;
      }
      if key == F4 {
        Exit();
        return;
      }
      if key in mods {
        consumed := OnModDown(key);
        return;
      }
      if key == TAB {
        consumed := OnTabDown();
        return;
      }
      consumed := OnNormalKeyDown(key);
    }

    method OnModDown(key: Code) returns (consumed: bool)
      requires Valid() && key in LOGICAL
      modifies this, manager
      ensures Valid() && consumed
      ensures State() == ModDown(old(State()), key).next
      ensures manager.trace == old(manager.trace) + ModDown(old(State()), key).events
    {
      ModDownCoherent(State(), key);
      mods := mods[key := true];
      if key != V_CONTROL {
        manager.SendKey(key, true);
        ApplyOne(old(manager.osMods), Event(key, true));
      }
      consumed := true;
    }

    method OnNormalKeyDown(key: Code) returns (consumed: bool)
      requires Valid()
      modifies manager
      ensures Valid() && consumed
      ensures State() == NormalKeyDown(old(State()), bindingMap, key).next
      ensures manager.trace == old(manager.trace) + NormalKeyDown(old(State()), bindingMap, key).events
    {
      NormalKeyDownKeepsState(State(), bindingMap, key);
      var binding := LookupKey(mods, key);
      var bindings: seq<Binding>;
      if binding in bindingMap {
        bindings := bindingMap[binding];
      } else {
        bindings := [Binding(key, mods[V_COMMAND] || mods[V_CONTROL], mods[V_OPTION], mods[V_SHIFT])];
      }
      assert bindings == Resolve(bindingMap, HeldOf(mods), key);
      ExecBindings(manager, bindings);
      consumed := true;
    }

    method OnTabDown() returns (consumed: bool)
      requires Valid()
      modifies this, manager
      ensures Valid() && consumed
      ensures State() == TabDown(old(State()), bindingMap).next
      ensures manager.trace == old(manager.trace) + TabDown(old(State()), bindingMap).events
    {
      TabDownCoherent(State(), bindingMap);
      if !mods[V_COMMAND] {
        consumed := OnNormalKeyDown(TAB);
        return;
      }
      ghost var os0, t0 := manager.osMods, manager.trace;
      ghost var start: seq<Event> := [];
      if !taskSwitch {
        manager.SendKey(RIGHT_CTRL, false);
        manager.SendKey(LEFT_ALT, true);
        taskSwitch := true;
        start := [Event(RIGHT_CTRL, false), Event(LEFT_ALT, true)];
        assert manager.trace == t0 + start;
        ApplyAppend(os0, [Event(RIGHT_CTRL, false)], [Event(LEFT_ALT, true)]);
        ApplyOne(os0, Event(RIGHT_CTRL, false));
        ApplyOne(Send(os0, Event(RIGHT_CTRL, false)), Event(LEFT_ALT, true));
      } else {
        assert manager.trace == t0 + start;
      }
      ghost var os1, t1 := manager.osMods, manager.trace;
      manager.SendKey(TAB, true);
      AppendAssoc(t0, start, [Event(TAB, true)]);
      ApplyAppend(os0, start, [Event(TAB, true)]);
      ApplyOne(os1, Event(TAB, true));
      assert State() == TabDown(old(State()), bindingMap).next;
      consumed := true;
    }

    method OnKeyUp(key: Code) returns (consumed: bool)
      requires Valid()
      modifies this, manager
      ensures Valid() && consumed
      ensures State() == KeyUp(old(State()), key).next
      ensures manager.trace == old(manager.trace) + KeyUp(old(State()), key).events
    {
      consumed := true;
      if halted {
        return;
      }
      if key in mods {
        consumed := OnModUp(key);
      }
    }

    method OnModUp(key: Code) returns (consumed: bool)
      requires Valid() && key in LOGICAL
      modifies this, manager
      ensures Valid() && consumed
      ensures State() == ModUp(old(State()), key).next
      ensures manager.trace == old(manager.trace) + ModUp(old(State()), key).events
    {
      ModUpCoherent(State(), key);
      ghost var os0, t0 := manager.osMods, manager.trace;
      ghost var first: seq<Event> := [];
      if key == V_COMMAND && mods[V_COMMAND] {
        if taskSwitch {
          manager.SendKey(LEFT_ALT, false);
          taskSwitch := false;
          first := [Event(LEFT_ALT, false)];
          ApplyOne(os0, Event(LEFT_ALT, false));
        }
      }
      assert manager.trace == t0 + first;
      ghost var os1 := manager.osMods;
      mods := mods[key := false];
      manager.SendKey(key, false);
      AppendAssoc(t0, first, [Event(key, false)]);
      ApplyAppend(os0, first, [Event(key, false)]);
      ApplyOne(os1, Event(key, false));
      assert State() == ModUp(old(State()), key).next;
      consumed := true;
    }

    /** Releases every tracked modifier and stops handling events. */
    method Exit()
      requires Valid()
      modifies this, manager
      ensures Valid()
      ensures State() == ExitStep(old(State())).next
      ensures manager.trace == old(manager.trace) + ExitStep(old(State())).events
    {
      ghost var os0 := manager.osMods;
      manager.Reset();
      halted := true;
      ApplyReleases(os0, TRACKED);
      SameTracked(manager.osMods, Apply(os0, Releases(TRACKED)));
    }
  }
}
