/** The input manager: it injects key events into the OS and keeps a cache of
    the up/down state it last told the OS for the three tracked modifiers. */
module Input {
  import opened Keys
  import opened Bindings

  /** One injected key event. */
  datatype Event = Event(code: Code, down: bool)

  /** Up/down state per modifier code. */
  type Mods = map<Code, bool>

  /** The cache as the manager starts: every tracked modifier up. */
  function AllUp(): (m: Mods)
    ensures m.Keys == TRACKED_SET
    ensures forall c :: c in m ==> !m[c]
  {
    map[LEFT_CTRL := false, LEFT_ALT := false, LEFT_SHIFT := false]
  }

  /** What sending one event does to the cache: only a tracked code's
      entry changes, and it becomes the event's direction. */
  function Send(os: Mods, e: Event): Mods {
    if e.code in os then os[e.code := e.down] else os
  }

  /** The cache after a sequence of events, sent in order. */
  function Apply(os: Mods, es: seq<Event>): (r: Mods)
    ensures r.Keys == os.Keys
    decreases |es|
  {
    if es == [] then os else Apply(Send(os, es[0]), es[1..])
  }

  /** Reference definition of the cache: for each code, the direction of
      the last event for it, or its starting state if there was none. */
  function LastDown(os: Mods, es: seq<Event>, c: Code): bool
    requires c in os
    decreases |es|
  {
    if es == [] then os[c]
    else if es[|es| - 1].code == c then es[|es| - 1].down
    else LastDown(os, es[..|es| - 1], c)
  }

  lemma {:induction false} ApplyAppend(os: Mods, a: seq<Event>, b: seq<Event>)
    ensures Apply(os, a + b) == Apply(Apply(os, a), b)
    decreases |a|
  {
    if a != [] {
      assert (a + b)[0] == a[0];
      assert (a + b)[1..] == a[1..] + b;
      ApplyAppend(Send(os, a[0]), a[1..], b);
    } else {
      assert a + b == b;
    }
  }

  /** The cache holds, for every tracked code, the last direction sent. */
  lemma {:induction false} ApplyIsLastDown(os: Mods, es: seq<Event>, c: Code)
    requires c in os
    ensures Apply(os, es)[c] == LastDown(os, es, c)
    decreases |es|
  {
    if es != [] {
      var init := es[..|es| - 1];
      var last := es[|es| - 1];
      assert es == init + [last];
      ApplyAppend(os, init, [last]);
      ApplyIsLastDown(os, init, c);
    }
  }

  /** The event that moves code c toward want[c], if it is not there yet. */
  function Toward(os: Mods, want: Mods, c: Code): seq<Event>
    requires c in os && c in want
  {
    if os[c] != want[c] then [Event(c, want[c])] else []
  }

  /** The events a synchronisation sends for the first n tracked codes,
      each decided on the cache as the earlier events left it. */
  function SyncUpTo(os: Mods, want: Mods, n: nat): seq<Event>
    requires TRACKED_SET <= os.Keys && TRACKED_SET <= want.Keys && n <= |TRACKED|
  {
    if n == 0 then []
    else
      var earlier := SyncUpTo(os, want, n - 1);
      earlier + Toward(Apply(os, earlier), want, TRACKED[n - 1])
  }

  /** The events that drive the tracked modifiers to want. */
  function SyncEvents(os: Mods, want: Mods): seq<Event>
    requires TRACKED_SET <= os.Keys && TRACKED_SET <= want.Keys
  {
    SyncUpTo(os, want, |TRACKED|)
  }

  lemma ApplyToward(os: Mods, want: Mods, c: Code)
    requires c in os && c in want
    ensures Apply(os, Toward(os, want, c)) == os[c := want[c]]
  {
    if os[c] == want[c] {
      assert os[c := want[c]] == os;
    } else {
      assert Apply(os, [Event(c, want[c])]) == Apply(Send(os, Event(c, want[c])), []);
    }
  }

  /** After synchronising the first n tracked codes, each of them has its
      wanted state and every other entry is as it was. */
  lemma {:induction false} SyncUpToReaches(os: Mods, want: Mods, n: nat)
    requires TRACKED_SET <= os.Keys && TRACKED_SET <= want.Keys && n <= |TRACKED|
    ensures var r := Apply(os, SyncUpTo(os, want, n));
      r.Keys == os.Keys &&
      forall c :: c in os ==> r[c] == if c in TRACKED[..n] then want[c] else os[c]
  {
    if n > 0 {
      var earlier := SyncUpTo(os, want, n - 1);
      var mid := Apply(os, earlier);
      var c := TRACKED[n - 1];
      SyncUpToReaches(os, want, n - 1);
      ApplyAppend(os, earlier, Toward(mid, want, c));
      ApplyToward(mid, want, c);
      var r := Apply(os, SyncUpTo(os, want, n));
      assert r == mid[c := want[c]];
      forall d | d in os
        ensures r[d] == if d in TRACKED[..n] then want[d] else os[d]
      {
        assert TRACKED[..n] == TRACKED[..n - 1] + [c];
        assert d in TRACKED[..n] <==> d in TRACKED[..n - 1] || d == c;
      }
    }
  }

  /** Synchronising puts every tracked modifier in its wanted state. */
  lemma SyncReaches(os: Mods, want: Mods)
    requires os.Keys == TRACKED_SET && TRACKED_SET <= want.Keys
    ensures var r := Apply(os, SyncEvents(os, want));
      r.Keys == TRACKED_SET && forall c :: c in TRACKED_SET ==> r[c] == want[c]
  {
    SyncUpToReaches(os, want, |TRACKED|);
    assert TRACKED[..|TRACKED|] == TRACKED;
  }

  /** With every tracked code already in its wanted state, synchronising
      any prefix of them sends nothing. */
  lemma {:induction false} SyncUpToNothing(os: Mods, want: Mods, n: nat)
    requires TRACKED_SET <= os.Keys && TRACKED_SET <= want.Keys && n <= |TRACKED|
    requires forall c :: c in TRACKED_SET ==> os[c] == want[c]
    ensures SyncUpTo(os, want, n) == []
  {
    if n > 0 {
      SyncUpToNothing(os, want, n - 1);
      assert Apply(os, []) == os;
    }
  }

  /** Synchronising twice to the same state: the second time sends nothing. */
  lemma SyncIdempotent(os: Mods, want: Mods)
    requires os.Keys == TRACKED_SET && TRACKED_SET <= want.Keys
    ensures SyncEvents(Apply(os, SyncEvents(os, want)), want) == []
  {
    SyncReaches(os, want);
    SyncUpToNothing(Apply(os, SyncEvents(os, want)), want, |TRACKED|);
  }

  /** Synchronising sends exactly one event per tracked code whose state
      differs, carrying the wanted state, in the order ctrl, alt, shift. */
  lemma SyncEventsShape(os: Mods, want: Mods)
    requires TRACKED_SET <= os.Keys && TRACKED_SET <= want.Keys
    ensures SyncEvents(os, want)
      == Toward(os, want, LEFT_CTRL) + Toward(os, want, LEFT_ALT) + Toward(os, want, LEFT_SHIFT)
  {
    var e1 := SyncUpTo(os, want, 1);
    var e2 := SyncUpTo(os, want, 2);
    SyncUpToReaches(os, want, 1);
    SyncUpToReaches(os, want, 2);
    assert TRACKED[..1] == [LEFT_CTRL] && TRACKED[..2] == [LEFT_CTRL, LEFT_ALT];
    assert Apply(os, []) == os;
    assert e1 == Toward(os, want, LEFT_CTRL);
    assert e2 == e1 + Toward(os, want, LEFT_ALT);
  }

  /** The OS modifiers a binding must be sent under. */
  function BindingMods(b: Binding): (m: Mods)
    ensures m.Keys == TRACKED_SET
  {
    map[LEFT_CTRL := b.ctrl, LEFT_ALT := b.alt, LEFT_SHIFT := b.shift]
  }

  /** The key press of a binding: down, and up too when asked. */
  function Press(b: Binding, up: bool): seq<Event> {
    [Event(b.key, true)] + if up then [Event(b.key, false)] else []
  }

  /** The cache after a key press, sent event by event. */
  lemma ApplyPress(os: Mods, b: Binding, up: bool)
    ensures Apply(os, Press(b, up)) ==
      var pressed := Send(os, Event(b.key, true));
      if up then Send(pressed, Event(b.key, false)) else pressed
  {
    var pressed := Send(os, Event(b.key, true));
    if up {
      assert Press(b, up) == [Event(b.key, true), Event(b.key, false)];
      assert Press(b, up)[1..] == [Event(b.key, false)];
      assert Apply(pressed, [Event(b.key, false)]) == Apply(Send(pressed, Event(b.key, false)), []);
    } else {
      assert Press(b, up) == [Event(b.key, true)];
    }
  }

  /** Two caches over the tracked codes that agree on each are equal. */
  lemma SameTracked(a: Mods, b: Mods)
    requires a.Keys == TRACKED_SET && b.Keys == TRACKED_SET
    requires forall c :: c in TRACKED_SET ==> a[c] == b[c]
    ensures a == b
  {
  }

  /** Everything executing a binding sends: the modifier fixes toward the
      binding, the key press, then the restores toward the saved cache.
      The fixes leave the cache equal to the binding's modifiers (see
      SyncReaches), so the restores start from those after the press. */
  function ExecEvents(os: Mods, b: Binding, up: bool): seq<Event>
    requires os.Keys == TRACKED_SET
  {
    SyncEvents(os, BindingMods(b)) + Press(b, up)
      + SyncEvents(Apply(BindingMods(b), Press(b, up)), os)
  }

  /** The fixes of a binding leave the cache at the binding's modifiers. */
  lemma FixesReachBinding(os: Mods, b: Binding)
    requires os.Keys == TRACKED_SET
    ensures Apply(os, SyncEvents(os, BindingMods(b))) == BindingMods(b)
  {
    SyncReaches(os, BindingMods(b));
    SameTracked(Apply(os, SyncEvents(os, BindingMods(b))), BindingMods(b));
  }

  /** Executing a binding leaves the cache exactly as it found it, for any
      binding, even one whose key is a tracked modifier. */
  lemma ExecRestores(os: Mods, b: Binding, up: bool)
    requires os.Keys == TRACKED_SET
    ensures Apply(os, ExecEvents(os, b, up)) == os
  {
    var fixes := SyncEvents(os, BindingMods(b));
    var pressed := Apply(BindingMods(b), Press(b, up));
    var restores := SyncEvents(pressed, os);
    FixesReachBinding(os, b);
    ApplyAppend(os, fixes, Press(b, up));
    ApplyAppend(os, fixes + Press(b, up), restores);
    SyncReaches(pressed, os);
    SameTracked(Apply(pressed, restores), os);
  }

  /** The same events with every direction reversed, in the same order. */
  function Undo(es: seq<Event>): (r: seq<Event>)
    ensures |r| == |es|
    ensures forall i :: 0 <= i < |es| ==> r[i] == Event(es[i].code, !es[i].down)
  {
    seq(|es|, i requires 0 <= i < |es| => Event(es[i].code, !es[i].down))
  }

  lemma UndoAppend(a: seq<Event>, b: seq<Event>)
    ensures Undo(a + b) == Undo(a) + Undo(b)
  {
  }

  /** Moving back from want to os, for a code that reached want, sends the
      reverse of the event that moved it forward. */
  lemma TowardBack(os: Mods, want: Mods, fixed: Mods, c: Code)
    requires c in os && c in want && c in fixed && fixed[c] == want[c]
    ensures Toward(fixed, os, c) == Undo(Toward(os, want, c))
  {
  }

  /** Pressing a key that is not tracked leaves the cache alone. */
  lemma PressUntracked(os: Mods, b: Binding, up: bool)
    requires b.key !in os
    ensures Apply(os, Press(b, up)) == os
  {
    assert Send(os, Event(b.key, true)) == os;
    assert Send(os, Event(b.key, false)) == os;
    if up {
      assert Press(b, up) == [Event(b.key, true), Event(b.key, false)];
      assert Apply(os, [Event(b.key, false)]) == Apply(os, []);
    } else {
      assert Press(b, up) == [Event(b.key, true)];
    }
  }

  /** For a binding whose key is not a tracked modifier, the restores undo
      exactly the fixes, in the same order ctrl, alt, shift. */
  lemma ExecUndoesFixes(os: Mods, b: Binding, up: bool)
    requires os.Keys == TRACKED_SET && b.key !in TRACKED_SET
    ensures var fixes := SyncEvents(os, BindingMods(b));
      ExecEvents(os, b, up) == fixes + Press(b, up) + Undo(fixes)
  {
    var want := BindingMods(b);
    var fixes := SyncEvents(os, want);
    var fixed := want;
    PressUntracked(fixed, b, up);
    SyncReaches(os, want);
    SyncEventsShape(os, want);
    SyncEventsShape(fixed, os);
    var f1, f2, f3 := Toward(os, want, LEFT_CTRL), Toward(os, want, LEFT_ALT), Toward(os, want, LEFT_SHIFT);
    TowardBack(os, want, fixed, LEFT_CTRL);
    TowardBack(os, want, fixed, LEFT_ALT);
    TowardBack(os, want, fixed, LEFT_SHIFT);
    UndoAppend(f1, f2);
    UndoAppend(f1 + f2, f3);
  }

  lemma AppendAssoc<T>(a: seq<T>, b: seq<T>, c: seq<T>)
    ensures (a + b) + c == a + (b + c)
  {
  }

  lemma Regroup4<T>(a: seq<T>, b: seq<T>, c: seq<T>, d: seq<T>)
    ensures a + b + c + d == a + (b + c + d)
  {
  }

  /** The releases reset sends, one per code in order. */
  function Releases(codes: seq<Code>): (r: seq<Event>)
    ensures |r| == |codes|
    ensures forall i :: 0 <= i < |codes| ==> r[i] == Event(codes[i], false)
  {
    seq(|codes|, i requires 0 <= i < |codes| => Event(codes[i], false))
  }

  class InputManager {
    /** The up/down state last sent to the OS per tracked modifier. */
    var osMods: Mods
    /** Every event injected into the OS so far, oldest first. */
    ghost var trace: seq<Event>

    /** The cache tracks exactly the three modifiers, and it is a cache of
        what was sent: each entry is the last direction sent for it. */
    ghost predicate Valid()
      reads this
    {
      osMods.Keys == TRACKED_SET && osMods == Apply(AllUp(), trace)
    }

    constructor ()
      ensures Valid() && osMods == AllUp() && trace == []
    {
      osMods := AllUp();
      trace := [];
    }

    /** Injects one event; a tracked modifier's cache entry follows it. */
    method SendKey(key: Code, down: bool)
      requires Valid()
      modifies this
      ensures Valid()
      ensures trace == old(trace) + [Event(key, down)]
      ensures key in TRACKED_SET ==> osMods == old(osMods)[key := down]
      ensures key !in TRACKED_SET ==> osMods == old(osMods)
      ensures osMods == Send(old(osMods), Event(key, down))
    {
      ApplyAppend(AllUp(), trace, [Event(key, down)]);
      trace := trace + [Event(key, down)];
      if key in osMods {
        osMods := osMods[key := down];
      }
    }

    /** Drives the tracked modifiers to want, in the order ctrl, alt, shift,
        sending an event only for a modifier that differs. */
    method SyncModifiers(want: Mods)
      requires Valid() && TRACKED_SET <= want.Keys
      modifies this
      ensures Valid()
      ensures trace == old(trace) + SyncEvents(old(osMods), want)
      ensures forall c :: c in TRACKED_SET ==> osMods[c] == want[c]
    {
      ghost var os0, trace0 := osMods, trace;
      for i := 0 to |TRACKED|
        invariant Valid()
        invariant trace == trace0 + SyncUpTo(os0, want, i)
        invariant osMods == Apply(os0, SyncUpTo(os0, want, i))
      {
        var code := TRACKED[i];
        ghost var earlier := SyncUpTo(os0, want, i);
        ghost var step := Toward(osMods, want, code);
        assert SyncUpTo(os0, want, i + 1) == earlier + step;
        ApplyAppend(os0, earlier, step);
        ApplyToward(osMods, want, code);
        ghost var traceBefore := trace;
        if osMods[code] != want[code] {
          SendKey(code, want[code]);
        } else {
          assert osMods[code := want[code]] == osMods;
        }
        assert trace == traceBefore + step;
        assert trace == trace0 + (earlier + step);
      }
      SyncReaches(os0, want);
    }

    /** Sends a binding's key under the binding's modifiers, then puts the
        modifiers back as they were. */
    method ExecBindingDown(b: Binding, up: bool)
      requires Valid()
      modifies this
      ensures Valid()
      ensures osMods == old(osMods)
      ensures trace == old(trace) + ExecEvents(old(osMods), b, up)
    {
      var saved := osMods;
      ghost var trace0 := trace;
      ghost var fixes := SyncEvents(saved, BindingMods(b));
      SyncModifiers(BindingMods(b));
      SameTracked(osMods, BindingMods(b));
      ghost var trace1 := trace;
      SendKey(b.key, true);
      if up {
        SendKey(b.key, false);
      }
      assert trace == trace1 + Press(b, up);
      ghost var pressed := Apply(BindingMods(b), Press(b, up));
      ApplyPress(BindingMods(b), b, up);
      assert osMods == pressed;
      ghost var restores := SyncEvents(pressed, saved);
      SyncModifiers(saved);
      SameTracked(osMods, saved);
      Regroup4(trace0, fixes, Press(b, up), restores);
    }

    /** Releases every tracked modifier, whatever its state. */
    method Reset()
      requires Valid()
      modifies this
      ensures Valid()
      ensures osMods == AllUp()
      ensures trace == old(trace) + Releases(TRACKED)
    {
      for i := 0 to |TRACKED|
        invariant Valid()
        invariant trace == old(trace) + Releases(TRACKED[..i])
        invariant forall j :: 0 <= j < i ==> !osMods[TRACKED[j]]
      {
        SendKey(TRACKED[i], false);
      }
      assert TRACKED[..|TRACKED|] == TRACKED;
      assert !osMods[TRACKED[0]] && !osMods[TRACKED[1]] && !osMods[TRACKED[2]];
    }
  }
}
