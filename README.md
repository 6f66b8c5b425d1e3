# Keyboard remapper model

A Dafny model of `minimal.py`, a keyboard remapper for Windows. The OS hook
sends it every physical key-down and key-up. It keeps its own record of which
logical modifiers the user holds: command, control, option and shift. It
looks each key press up in a binding table and injects the resulting key
events. Each binding is sent under the OS modifiers it asks for, and the
modifiers are put back afterwards. Command+Tab runs a task-switch gesture on
top of this. F4 exits the remapper.

The model has four parts.

- `Keys` (keys.dfy) holds the key codes and `KeyText`. `KeyText` writes a code
  as decimal text, the way Python's `str()` does, and it is proved to read back
  exactly.
- `Bindings` (bindings.dfy) holds `Binding`, the string lookup key
  (`BindingKey`), the fallback binding, the lookup (`Resolve`) and the binding
  table `BINDINGS`. The table copies all 31 entries of `minimal.py:79-111`.
- `Input` (input_manager.dfy) holds the class `InputManager`.
  - Its field `osMods` is the cache of what the OS was last told about left
    ctrl, alt and shift.
  - Its ghost field `trace` records every injected event.
  - The pure functions `Send`, `Apply`, `SyncEvents` and `ExecEvents` specify
    its methods.
- `Control` (controller.dfy) holds the class `Controller`.
  - Its fields are the logical modifiers `mods`, the task-switch flag and the
    constant table.
  - It also has a `halted` flag, which stands in for `sys.exit`.
  - Every handler is proved against a pure step function over `CtlState`, the
    controller's state together with the cache. `Run` folds these step
    functions over a sequence of hook events.
  - The invariant `Coherent` holds while the remapper runs. Ctrl and shift are
    up at the OS, alt is down exactly during a task switch, and a task switch
    only happens with command held.

`Behaviour` (behaviour.dfy) and `Scenarios` (scenarios.dfy) prove properties
of whole runs: the command+Tab gesture, press order, the exit key, and three
table lookups end to end.

Key codes are plain numbers to the remapper. The named keys use their Windows
virtual-key values. The four logical modifiers get the placeholder codes
0x1001 to 0x1004. The proofs use only the fact that these codes are pairwise
distinct, plus the decimal texts of the keys in the table.

Under command, each Tab press sends only a Tab key-down (minimal.py:168),
never a key-up, and the model does the same.

## Model

| member | source | states |
|---|---|---|
| `Keys.KeyTextRoundTrip` | minimal.py:143 | the decimal text of a key code reads back as that code |
| `Keys.KeyTextInjective` | minimal.py:143 | two different key codes never have the same text |
| `Bindings.BindingKeyRoundTrip` | minimal.py:133-143 | parsing a built lookup key gives back exactly the held modifiers and the key, with the prefixes accepted only in the order command, control, option, shift |
| `Bindings.BindingKeyInjective` | minimal.py:133-146 | two key presses hit the same table entry only when they have the same held set and the same key |
| `Bindings.OutOfOrderRejected` | minimal.py:78 | a string whose prefixes are out of order (the held prefixes in order, then a prefix that is not later than the last of them, then anything) never reads back as a held set and key |
| `Bindings.OutOfOrderNeverBuilt` | minimal.py:78 | no held set and key ever builds a key whose prefixes are out of order, such as control before command or shift before command |
| `Bindings.ResolveByParse` | minimal.py:144-155 | for a table whose every key is a built lookup key, a key press runs the entry that reads back as its held set and key when there is one, and otherwise one pass-through binding, where ctrl means command or control is held, alt means option is held, and shift means shift is held |
| `Bindings.BindingsCanonical` | minimal.py:79-111 | every key of the remapper's table is the lookup key of some held set and key |
| `Bindings.ResolveBindings` | minimal.py:144-155 | with the remapper's own table, a key press runs the entry that reads back as its held set and key, and passes through when no entry does |
| `Input.ApplyIsLastDown` | minimal.py:51-58 | after any events, each cached entry is the direction of the last event sent for that code, or its old value when there was none |
| `Input.SyncReaches` | minimal.py:28-31 | after synchronising, every tracked modifier has the wanted state |
| `Input.SyncEventsShape` | minimal.py:28-31 | synchronising sends one event per tracked modifier that differs, carrying the wanted direction, in the order ctrl, alt, shift |
| `Input.SyncIdempotent` | minimal.py:28-31 | synchronising again to the same state sends nothing |
| `Input.ExecRestores` | minimal.py:33-49 | executing any binding, even one whose key is a tracked modifier, leaves the cache as it found it |
| `Input.ExecUndoesFixes` | minimal.py:36-49 | when the key is not a tracked modifier, the restores are the fixes reversed, event by event, in the same order ctrl, alt, shift |
| `Input.InputManager.constructor` | minimal.py:20-26 | the manager starts with every tracked modifier up and nothing sent |
| `Input.InputManager.SendKey` | minimal.py:51-58 | appends exactly this event to the trace; the cache changes only for a tracked key, and only that entry |
| `Input.InputManager.SyncModifiers` | minimal.py:28-31 | appends the synchronising events to the trace, and the cache then equals the wanted state on all three modifiers |
| `Input.InputManager.ExecBindingDown` | minimal.py:33-49 | the cache ends as it started; the trace gains the fixes toward the binding's modifiers, then the key's down event, then its up event when asked, then the restores |
| `Input.InputManager.Reset` | minimal.py:60-62 | sends ctrl-up, alt-up and shift-up whatever their state, and leaves every cached entry up |
| `Control.LookupKey` | minimal.py:133-143 | the key string built step by step is the lookup key of the held set, so it depends on which modifiers are held and nothing else |
| `Control.ExecBindings` | minimal.py:156-157 | runs the bindings in list order, each with its restores; the cache ends as it started |
| `Control.ExecAllRestores` | minimal.py:156-157 | any list of bindings leaves the cache as it found it |
| `Control.NormalKeyDownKeepsState` | minimal.py:132-158 | a non-modifier key press changes neither the logical modifiers, nor the task switch, nor the OS modifiers; it only injects events |
| `Control.TabDownCoherent` | minimal.py:160-169 | a Tab press keeps the invariant: alt is held at the OS exactly while a task switch runs, and only under command |
| `Control.ModDownCoherent` | minimal.py:126-130 | a modifier press keeps the invariant |
| `Control.ModUpCoherent` | minimal.py:178-187 | a modifier release keeps the invariant; releasing command ends the task switch and lets alt go |
| `Control.KeyDownCoherent` | minimal.py:113-124 | every key-down keeps the invariant |
| `Control.KeyUpCoherent` | minimal.py:171-176 | every key-up keeps the invariant |
| `Control.Run` | minimal.py:196-197 | every sequence of hook events from a coherent state ends in a coherent state |
| `Control.ReachableAltIffTaskSwitch` | minimal.py:160-187 | in every running state reachable from the start, alt is down at the OS if and only if a task switch is under way, and ctrl and shift are up |
| `Control.Controller.constructor` | minimal.py:65-111 | starts with nothing held, no task switch, every OS modifier up, nothing sent, and the binding table |
| `Control.Controller.OnKeyDown` | minimal.py:113-124 | F4 exits; a logical modifier goes to the modifier handler; Tab goes to the Tab handler; any other key goes to the normal handler. The event is always consumed, and the new state and injected events are those of `KeyDown` |
| `Control.Controller.OnModDown` | minimal.py:126-130 | holds the modifier and forwards its key-down unless it is control |
| `Control.Controller.OnNormalKeyDown` | minimal.py:132-158 | runs what the lookup resolves to, in order, and leaves every field as it was |
| `Control.Controller.OnTabDown` | minimal.py:160-169 | without command held, behaves as a normal key. Under command, the first Tab sends right-ctrl-up and alt-down and starts the task switch, and every Tab sends a Tab key-down |
| `Control.Controller.OnKeyUp` | minimal.py:171-176 | a modifier release goes to the modifier handler; any other key-up changes nothing and sends nothing |
| `Control.Controller.OnModUp` | minimal.py:178-187 | releases the modifier and forwards its key-up, control included; releasing a held command during a task switch first sends exactly one alt-up and ends the switch |
| `Control.Controller.Exit` | minimal.py:189-191 | releases all three OS modifiers and halts |
| `Behaviour.RunAppend` | minimal.py:196-197 | handling two event sequences back to back is handling their concatenation |
| `Behaviour.FirstTab` | minimal.py:164-168 | the first Tab under command sends right-ctrl-up, alt-down and Tab-down, and leaves alt held |
| `Behaviour.RepeatedTabs` | minimal.py:164-168 | during a task switch, n more Tabs send n Tab key-downs and no key-up, and change no state |
| `Behaviour.TabsUnderCommand` | minimal.py:160-169 | n >= 1 Tabs under command start the switch once, then send one Tab key-down per press |
| `Behaviour.ReleaseCommand` | minimal.py:179-186 | releasing command during a task switch sends alt-up and then command-up, and ends the switch |
| `Behaviour.TaskSwitchGesture` | minimal.py:160-187 | the whole gesture (command held, n Tabs, command up) holds alt exactly once and releases it exactly once. The OS modifiers end where they started |
| `Behaviour.PressModifiers` | minimal.py:126-130 | pressing logical modifiers holds exactly the ones pressed, on top of those already held, and changes nothing else |
| `Behaviour.LookupKeyIgnoresPressOrder` | minimal.py:133-143 | two press orders of the same modifiers give the same lookup key |
| `Behaviour.HaltedIgnoresAll` | minimal.py:191 | once halted, no event has any effect |
| `Behaviour.ExitIsFinal` | minimal.py:115-116 | F4 sends ctrl-up, alt-up and shift-up, leaves every OS modifier up, and nothing after it has any effect |
| `Scenarios.ExecUnderOwnMods` | minimal.py:33-49 | a binding sent under the modifiers the OS already has sends only its key down and up |
| `Scenarios.ExecUnderAlt` | minimal.py:33-49 | a binding that wants alt alone, sent with every modifier up, sends alt-down, key-down, key-up, alt-up |
| `Scenarios.ControlAIsHome` | minimal.py:85 | control+A sends Home down and up, and ctrl is never touched at the OS |
| `Scenarios.CommandQIsAltF4` | minimal.py:83 | command+Q forwards command, then sends alt-down, F4-down, F4-up, alt-up |
| `Scenarios.UnmappedKeyPassesThrough` | minimal.py:147-155 | with nothing held, a key missing from the table (B) is sent as a plain press |

## Left out

- The hook object, the message loop and the `sys.path` setup (minimal.py:5-8, 195, 199) are left out. The callbacks the hook is given (minimal.py:196-197) become calls to `OnKeyDown` and `OnKeyUp`, and `Run` folds them over a sequence of hook events.
- Event injection (`pyauto.Input.send`) becomes an append to the ghost `trace`. Injected events are not fed back into the hook.
- The hook callbacks' `scan` argument is not modelled, because the code never reads it.
- `sys.exit(0)` becomes the `halted` flag. After it, every handler changes nothing and sends nothing. Process termination itself is not modelled.
- `Binding.__str__` (minimal.py:16-17) is not modelled. It is debugging output only.
- The `Key` module is not part of this model. The key codes use their Windows virtual-key values, and the four logical modifiers get the placeholder codes 0x1001 to 0x1004.
- The table's texts `str(Key.X)` are written out as the decimal texts of those values.
- Python exceptions inside a handler are not modelled, other than the `SystemExit` that `sys.exit(0)` raises at minimal.py:191, which the `halted` flag models. No other exception can arise once the modifier maps hold their four and three keys, as the class invariants require.
