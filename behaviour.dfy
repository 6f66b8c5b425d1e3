/** Properties of whole runs of the remapper: the task-switch gesture, press
    order, the exit key, and a few bindings of the table end to end. */
module Behaviour {
  import opened Keys
  import opened Bindings
  import opened Input
  import opened Control

  /** Handling a + b is handling a, then b from where a left off. */
  lemma {:induction false} RunAppend(s: CtlState, table: Table, a: seq<HookEvent>, b: seq<HookEvent>)
    requires Coherent(s)
    ensures var first := Run(s, table, a);
      var second := Run(first.next, table, b);
      Run(s, table, a + b) == Reaction(second.next, first.events + second.events)
    decreases |a|
  {
    if a == [] {
      assert a + b == b;
    } else {
      var h := Handle(s, table, a[0]);
      assert (a + b)[0] == a[0];
      assert (a + b)[1..] == a[1..] + b;
      RunAppend(h.next, table, a[1..], b);
      var restA := Run(h.next, table, a[1..]);
      var second := Run(restA.next, table, b);
      assert Run(s, table, a) == Reaction(restA.next, h.events + restA.events);
      assert Run(s, table, a + b) == Reaction(second.next, h.events + (restA.events + second.events));
      AppendAssoc(h.events, restA.events, second.events);
    }
  }

  /** n key-downs of Tab. */
  function Tabs(n: nat): (hs: seq<HookEvent>)
    ensures |hs| == n && forall i :: 0 <= i < n ==> hs[i] == Down(TAB)
  {
    seq(n, i => Down(TAB))
  }

  /** n injected Tab key-downs. */
  function TabDowns(n: nat): (es: seq<Event>)
    ensures |es| == n && forall i :: 0 <= i < n ==> es[i] == Event(TAB, true)
  {
    seq(n, i => Event(TAB, true))
  }

  /** Once a task switch is under way, every further Tab sends one Tab
      key-down and nothing else, and changes no state. */
  lemma {:induction false} RepeatedTabs(s: CtlState, table: Table, n: nat)
    requires Coherent(s) && !s.halted && s.mods[V_COMMAND] && s.taskSwitch
    ensures Run(s, table, Tabs(n)) == Reaction(s, TabDowns(n))
    decreases n
  {
    if n > 0 {
      var h := Handle(s, table, Down(TAB));
      ApplyUntracked(s.os, [Event(TAB, true)]);
      assert h == Reaction(s, [Event(TAB, true)]);
      assert Tabs(n)[1..] == Tabs(n - 1);
      RepeatedTabs(s, table, n - 1);
      assert [Event(TAB, true)] + TabDowns(n - 1) == TabDowns(n);
    }
  }

  /** Handling a single event. */
  lemma RunOne(s: CtlState, table: Table, h: HookEvent)
    requires Coherent(s)
    ensures Run(s, table, [h]) == Handle(s, table, h)
  {
    var r := Handle(s, table, h);
    assert [h][1..] == [];
    assert r.events + [] == r.events;
  }

  /** The first Tab under command starts the task switch: right ctrl up,
      alt down, then the Tab key-down. */
  lemma FirstTab(s: CtlState, table: Table)
    requires Coherent(s) && !s.halted && s.mods[V_COMMAND] && !s.taskSwitch
    ensures Run(s, table, [Down(TAB)])
      == Reaction(s.(taskSwitch := true, os := Idle(true)),
                  [Event(RIGHT_CTRL, false), Event(LEFT_ALT, true), Event(TAB, true)])
  {
    RunOne(s, table, Down(TAB));
    TabDownCoherent(s, table);
    assert [Event(RIGHT_CTRL, false), Event(LEFT_ALT, true)] + [Event(TAB, true)]
      == [Event(RIGHT_CTRL, false), Event(LEFT_ALT, true), Event(TAB, true)];
  }

  /** Releasing command during a task switch lets alt go first. */
  lemma ReleaseCommand(t: CtlState, table: Table)
    requires Coherent(t) && !t.halted && t.taskSwitch
    ensures Run(t, table, [Up(V_COMMAND)])
      == Reaction(t.(mods := t.mods[V_COMMAND := false], taskSwitch := false, os := Idle(false)),
                  [Event(LEFT_ALT, false), Event(V_COMMAND, false)])
  {
    RunOne(t, table, Up(V_COMMAND));
    ModUpCoherent(t, V_COMMAND);
    assert [Event(LEFT_ALT, false)] + [Event(V_COMMAND, false)]
      == [Event(LEFT_ALT, false), Event(V_COMMAND, false)];
  }

  /** The command+Tab gesture: holding command, pressing Tab n >= 1 times
      and releasing command releases right ctrl and holds alt once, sends
      one Tab key-down per press and never a Tab key-up, then lets alt go
      before forwarding command's release. The OS modifiers end as they
      started and the task switch is over. */
  lemma TaskSwitchGesture(s: CtlState, table: Table, n: nat)
    requires Coherent(s) && !s.halted && s.mods[V_COMMAND] && !s.taskSwitch && n >= 1
    ensures var r := Run(s, table, Tabs(n) + [Up(V_COMMAND)]);
      r.events == [Event(RIGHT_CTRL, false), Event(LEFT_ALT, true)] + TabDowns(n)
                  + [Event(LEFT_ALT, false), Event(V_COMMAND, false)]
      && r.next == s.(mods := s.mods[V_COMMAND := false])
  {
    var t := s.(taskSwitch := true, os := Idle(true));
    TabsUnderCommand(s, table, n);
    ReleaseCommand(t, table);
    RunAppend(s, table, Tabs(n), [Up(V_COMMAND)]);
    assert Idle(false) == s.os;
  }

  /** n >= 1 Tabs under command: the task switch starts once, then one Tab
      key-down per press. */
  lemma TabsUnderCommand(s: CtlState, table: Table, n: nat)
    requires Coherent(s) && !s.halted && s.mods[V_COMMAND] && !s.taskSwitch && n >= 1
    ensures Run(s, table, Tabs(n))
      == Reaction(s.(taskSwitch := true, os := Idle(true)),
                  [Event(RIGHT_CTRL, false), Event(LEFT_ALT, true)] + TabDowns(n))
  {
    var t := s.(taskSwitch := true, os := Idle(true));
    FirstTab(s, table);
    assert Tabs(n) == [Down(TAB)] + Tabs(n - 1);
    RepeatedTabs(t, table, n - 1);
    RunAppend(s, table, [Down(TAB)], Tabs(n - 1));
    assert [Event(RIGHT_CTRL, false), Event(LEFT_ALT, true), Event(TAB, true)] + TabDowns(n - 1)
      == [Event(RIGHT_CTRL, false), Event(LEFT_ALT, true)] + TabDowns(n);
  }

  /** Key-downs of the given keys, in order. */
  function Downs(ks: seq<Code>): (hs: seq<HookEvent>)
    ensures |hs| == |ks| && forall i :: 0 <= i < |ks| ==> hs[i] == Down(ks[i])
  {
    seq(|ks|, i requires 0 <= i < |ks| => Down(ks[i]))
  }

  /** Pressing logical modifiers holds exactly the ones pressed, on top of
      those already held, and changes nothing else the controller keeps. */
  lemma {:induction false} PressModifiers(s: CtlState, table: Table, ks: seq<Code>)
    requires Coherent(s) && !s.halted
    requires forall i :: 0 <= i < |ks| ==> ks[i] in LOGICAL
    ensures var r := Run(s, table, Downs(ks)).next;
      r.taskSwitch == s.taskSwitch && !r.halted && r.os == s.os &&
      r.mods.Keys == LOGICAL &&
      forall c :: c in LOGICAL ==> r.mods[c] == (s.mods[c] || c in ks)
    decreases |ks|
  {
    if ks != [] {
      var k := ks[0];
      var h := Handle(s, table, Down(k));
      ModDownCoherent(s, k);
      ApplyUntracked(s.os, if k != V_CONTROL then [Event(k, true)] else []);
      assert h.next == s.(mods := s.mods[k := true]);
      assert Downs(ks)[1..] == Downs(ks[1..]);
      PressModifiers(h.next, table, ks[1..]);
      forall c | c in LOGICAL
        ensures c in ks <==> c == k || c in ks[1..]
      {
        assert ks == [k] + ks[1..];
      }
    }
  }

  /** The lookup key depends only on which modifiers are held, not on the
      order they were pressed in. */
  lemma LookupKeyIgnoresPressOrder(s: CtlState, table: Table, ks1: seq<Code>, ks2: seq<Code>, key: Code)
    requires Coherent(s) && !s.halted
    requires forall i :: 0 <= i < |ks1| ==> ks1[i] in LOGICAL
    requires forall i :: 0 <= i < |ks2| ==> ks2[i] in LOGICAL
    requires forall c :: c in ks1 <==> c in ks2
    ensures BindingKey(HeldOf(Run(s, table, Downs(ks1)).next.mods), key)
         == BindingKey(HeldOf(Run(s, table, Downs(ks2)).next.mods), key)
  {
    PressModifiers(s, table, ks1);
    PressModifiers(s, table, ks2);
  }

  /** Once halted, the remapper ignores every event. */
  lemma {:induction false} HaltedIgnoresAll(s: CtlState, table: Table, hs: seq<HookEvent>)
    requires Coherent(s) && s.halted
    ensures Run(s, table, hs) == Reaction(s, [])
    decreases |hs|
  {
    if hs != [] {
      HaltedIgnoresAll(s, table, hs[1..]);
    }
  }

  /** The exit key releases the three tracked modifiers, leaves every one of
      them up, and nothing after it has any effect. */
  lemma ExitIsFinal(s: CtlState, table: Table, hs: seq<HookEvent>)
    requires Coherent(s) && !s.halted
    ensures var r := Run(s, table, [Down(F4)] + hs);
      r.events == [Event(LEFT_CTRL, false), Event(LEFT_ALT, false), Event(LEFT_SHIFT, false)]
      && r.next.halted && r.next.os == AllUp()
  {
    var h := Handle(s, table, Down(F4));
    ApplyReleases(s.os, TRACKED);
    SameTracked(h.next.os, AllUp());
    assert Releases(TRACKED) == [Event(LEFT_CTRL, false), Event(LEFT_ALT, false), Event(LEFT_SHIFT, false)];
    HaltedIgnoresAll(h.next, table, hs);
    RunOne(s, table, Down(F4));
    RunAppend(s, table, [Down(F4)], hs);
    assert h.events + [] == h.events;
  }
}
