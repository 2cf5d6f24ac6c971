# Finite-state machine engine, verified model

This project models the `FSM` class of `src/fsm.js`, a small finite-state-machine engine, and proves properties of that model. The engine:

- holds a current state and a fixed initial state;
- moves between states either directly (`changeState`) or through an event of a transition table (`trigger`);
- records its moves on two stacks so they can be undone and redone;
- gates undo and redo by a one-way "pristine" latch, which is on until the first successful move.

Files:

- `fsm_model.dfy`, module `FsmModel`. The engine's fields other than the table form a `Machine` value. Each state-changing operation is a function from the old `Machine` to the new one. `Op` and `Run` describe a sequence of calls, and `Timeline` is the history read in order.
- `fsm.dfy`, module `Fsm`. Class `FSM` has the source's fields. `table` and `initial` are `const`, because the source never reassigns them. `state`, `pristine`, `prev` and `next` are updated in place. Each mutating method states its new fields and equals the matching `FsmModel` function on `Snapshot()`. `Create` models the constructor's refusal of a missing configuration. `HungryFullScenario` steps a two-state table hungry --eat--> full --rest--> hungry through trigger, undo, redo, trigger, a refused redo and a refused changeState to an unknown name, using only the contracts.
- `fsm_properties.dfy`, module `FsmProperties`. Lemmas about the model:
  - the undo/redo round trips;
  - undo and redo only move a cursor along an unchanged timeline, and a forward move cuts off the redo branch;
  - the latch never comes back on, and while it is on the machine is exactly as constructed;
  - with a closed table and a starting configuration inside it, every state the machine reaches or records is a state of the table.

Two JavaScript truthiness quirks are modelled as written:

- `transitions[event]` with an empty-string destination counts as "no transition" (`HasTransition`). This affects both `trigger` and `getStates(event)`.
- `getStates("")` behaves like `getStates()`, because `""` is falsy (`Listed`, and the first clause of `GetStates`).

The thrown `Error`s become failure values: `Outcome.Fail` carries `InvalidStateError` or `InvalidTransitionError`, and `Create` returns `Err(ConfigError)`. When `trigger` is called from a state that is not in the table, the source throws a `TypeError`. The model treats it as the same `InvalidTransitionError`.

Two facts about the code that callers may not expect:

- `trigger` does not check that its destination is a state of the table, so the machine can move out of the table (`TriggerMayLeaveTable`). `RunKeepsKnown` proves it stays inside when every transition leads to a state and the starting configuration is inside the table.
- Neither stack is bounded.

## Model

| member | source | states |
|---|---|---|
| Fsm.FSM.constructor | src/fsm.js:6-14 | initial and state are config.initial, the latch is on, both stacks are empty, the table is config.states |
| Fsm.Create | src/fsm.js:6-14 | fails with ConfigError exactly when the configuration is missing; otherwise a fresh engine in the initial configuration |
| Fsm.FSM.GetState | src/fsm.js:20-22 | returns the current state and changes nothing |
| FsmModel.ChangeState | src/fsm.js:28-37 | succeeds iff the target is a state of the table; on success pushes the old state, empties the redo stack, moves to the target and closes the latch; on failure InvalidStateError and the machine is unchanged |
| Fsm.FSM.ChangeState | src/fsm.js:28-37 | the same effects on the object's fields, equal to FsmModel.ChangeState on the snapshot |
| FsmModel.Trigger | src/fsm.js:43-52 | succeeds iff the current state has a non-empty destination for the event; the new state is that destination, with the same stack and latch effects as changeState; otherwise InvalidTransitionError and nothing changes |
| Fsm.FSM.Trigger | src/fsm.js:43-52 | the same effects on the object's fields, equal to FsmModel.Trigger on the snapshot |
| FsmModel.Reset | src/fsm.js:58-60 | the state becomes the initial state; latch and both stacks are unchanged |
| Fsm.FSM.Reset | src/fsm.js:58-60 | only the state field changes, to the initial state |
| Fsm.FSM.GetStates | src/fsm.js:68-79 | with no event (or the falsy empty event) lists exactly the table's states; with an event lists exactly the states having a transition for it; no state twice; changes nothing |
| FsmModel.Undo | src/fsm.js:86-91 | moves iff the latch is off and the undo stack is non-empty; then pushes the old state on the redo stack and pops the undo stack into the state; otherwise unchanged; total history size preserved |
| Fsm.FSM.Undo | src/fsm.js:86-91 | the same effects on the object's fields, equal to FsmModel.Undo on the snapshot |
| FsmModel.Redo | src/fsm.js:98-106 | the mirror image of Undo, over the redo stack |
| Fsm.FSM.Redo | src/fsm.js:98-106 | the same effects on the object's fields, equal to FsmModel.Redo on the snapshot |
| FsmModel.ClearHistory | src/fsm.js:111-114 | both stacks empty; state, initial state and latch unchanged |
| Fsm.FSM.ClearHistory | src/fsm.js:111-114 | the same on the object's fields |
| FsmProperties.ForwardMoveClearsRedo | src/fsm.js:28-37 | after a successful changeState redo refuses, and undo moves back to the state that was left |
| FsmProperties.TriggerIsChangeStateToDestination | src/fsm.js:43-52 | a successful trigger to a table state has exactly the effect of changeState to that destination |
| FsmProperties.UndoThenRedo | src/fsm.js:86-106 | a successful undo followed by redo restores state, both stacks and the latch exactly |
| FsmProperties.RedoThenUndo | src/fsm.js:86-106 | a successful redo followed by undo restores the configuration exactly |
| FsmProperties.UndoPastBottom | src/fsm.js:86-91 | once undo refuses, repeating it refuses again and changes nothing |
| FsmProperties.ClearHistoryDisablesUndoRedo | src/fsm.js:111-114 | immediately after clearHistory both undo and redo refuse and change nothing |
| FsmProperties.UndoAfterReset | src/fsm.js:58-60 | reset keeps the history: with the latch off, undo after reset pops the top of the undo stack and records the initial state for redo |
| FsmProperties.UndoKeepsTimeline | src/fsm.js:86-91 | a successful undo keeps the timeline and moves the cursor one step back |
| FsmProperties.RedoKeepsTimeline | src/fsm.js:98-106 | a successful redo keeps the timeline and moves the cursor one step forward |
| FsmProperties.ForwardMoveTruncatesTimeline | src/fsm.js:28-37 | a successful changeState keeps the timeline up to the cursor and replaces the rest by the target |
| FsmProperties.UndoGoesBeforeCursor | src/fsm.js:86-91 | a successful undo moves to the timeline entry just before the cursor |
| FsmProperties.RedoGoesAfterCursor | src/fsm.js:98-106 | a successful redo moves to the timeline entry just after the cursor |
| FsmProperties.RedoStackFollowsCursor | src/fsm.js:98-106 | after the cursor the timeline lists the redo stack top first, the order in which successive redo calls pop it |
| FsmProperties.UndoRedoRunKeepsTimeline | src/fsm.js:86-106 | any sequence of undo and redo calls leaves the timeline unchanged |
| FsmProperties.ApplyKeepsInitialAndLatch | src/fsm.js:9 | no single call changes the initial state or turns the latch back on |
| FsmProperties.RunKeepsInitialAndLatch | src/fsm.js:9 | no sequence of calls changes the initial state or turns the latch back on |
| FsmProperties.ApplyWhilePristine | src/fsm.js:33 | from the initial configuration a call either closes the latch or leaves the configuration as it was |
| FsmProperties.PristineMeansUntouched | src/fsm.js:48 | after any sequence of calls, a machine whose latch is still on is exactly the freshly constructed one |
| FsmProperties.ApplyKeepsKnown | src/fsm.js:43-52 | with a closed table and a configuration inside it, one call keeps the current, initial and recorded states inside the table |
| FsmProperties.RunKeepsKnown | src/fsm.js:43-52 | with a closed table and a starting configuration inside it, a sequence of calls keeps every current and recorded state inside the table |
| FsmProperties.TriggerMayLeaveTable | src/fsm.js:47 | the destination of trigger is not checked: for the table a --go--> b, where b is not a state, trigger succeeds and moves to b |

## Left out

- Exception objects and their `'Error'` message text: each thrown error is a failure value. The `TypeError` that `trigger` raises from a state missing from the table is merged into `InvalidTransitionError`.
- GetStates: the order of its result, the table's `for...in` order, is not modelled. The contract states membership and no repetition.
- Keys inherited through JavaScript's prototype chain (`"constructor"`, `"toString"`, ...): the model looks up only the table's own entries, so `changeState("constructor")` fails in the model, while the source finds the inherited property.
- Malformed configurations: each state is assumed to have a `transitions` map, and the configuration has the `{initial, states}` shape. Only a missing (falsy) configuration is modelled.
- The table is shared rather than copied in the source, so a caller could mutate it behind the engine's back. The model stores it as an immutable value.
- `module.exports` (src/fsm.js:117) is module plumbing.
