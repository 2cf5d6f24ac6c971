/** A value-level model of the finite-state-machine engine: the machine's
    configuration as a datatype and every state-changing operation as a
    function from the old configuration to the new one. The class in
    module Fsm keeps the same fields and is specified by these functions. */
module FsmModel {

  datatype Option<T> = None | Some(value: T)

  datatype Result<T, E> = Ok(value: T) | Err(error: E)

  /** The transition table: state name -> (event name -> destination state name). */
  type Table = map<string, map<string, string>>

  /** The configuration object handed to the constructor. */
  datatype Config = Config(initial: string, states: Table)

  /** The three ways in which an operation of the engine refuses. */
  datatype FsmError =
    | ConfigError
    | InvalidStateError(target: string)
    | InvalidTransitionError(from: string, event: string)

  datatype Outcome = Pass | Fail(error: FsmError)

  /** Everything the engine keeps besides its table: the current state, the
      fixed initial state, the pristine latch and the two history stacks
      (top of each stack at the end). */
  datatype Machine = Machine(
    state: string,
    initial: string,
    pristine: bool,
    prev: seq<string>,
    next: seq<string>)

  /** Result of changeState / trigger: success or failure, and the new configuration. */
  datatype Step = Step(outcome: Outcome, after: Machine)

  /** Result of undo / redo: whether it moved, and the new configuration. */
  datatype Move = Move(moved: bool, after: Machine)

  /** The configuration right after construction. */
  function Init(initial: string): Machine {
    Machine(initial, initial, true, [], [])
  }

  /** The truthiness test of `transitions[event]`: the state must be a key,
      the event must be a key of its transitions, and the destination must
      not be the empty string (which is falsy). */
  predicate HasTransition(t: Table, s: string, e: string) {
    s in t && e in t[s] && t[s][e] != ""
  }

  /** The effect shared by a successful changeState and trigger. */
  function Advance(m: Machine, target: string): Machine {
    m.(state := target, pristine := false, prev := m.prev + [m.state], next := [])
  }

  function ChangeState(t: Table, m: Machine, target: string): (r: Step)
    ensures r.outcome.Pass? <==> target in t
    ensures r.outcome.Fail? ==> r.outcome.error == InvalidStateError(target) && r.after == m
    ensures r.outcome.Pass? ==>
      r.after.state == target && !r.after.pristine && r.after.initial == m.initial &&
      r.after.prev == m.prev + [m.state] && r.after.next == []
  {
    if target in t then Step(Pass, Advance(m, target))
    else Step(Fail(InvalidStateError(target)), m)
  }

  function Trigger(t: Table, m: Machine, event: string): (r: Step)
    ensures r.outcome.Pass? <==> HasTransition(t, m.state, event)
    ensures r.outcome.Fail? ==> r.outcome.error == InvalidTransitionError(m.state, event) && r.after == m
    ensures r.outcome.Pass? ==>
      r.after.state == t[m.state][event] && !r.after.pristine && r.after.initial == m.initial &&
      r.after.prev == m.prev + [m.state] && r.after.next == []
  {
    if HasTransition(t, m.state, event) then Step(Pass, Advance(m, t[m.state][event]))
    else Step(Fail(InvalidTransitionError(m.state, event)), m)
  }

  function Reset(m: Machine): (r: Machine)
    ensures r.state == m.initial == r.initial
    ensures r.pristine == m.pristine && r.prev == m.prev && r.next == m.next
  {
    m.(state := m.initial)
  }

  function Undo(m: Machine): (r: Move)
    ensures r.moved <==> !m.pristine && m.prev != []
    ensures !r.moved ==> r.after == m
    ensures r.moved ==>
      r.after.state == m.prev[|m.prev| - 1] && r.after.prev == m.prev[..|m.prev| - 1] &&
      r.after.next == m.next + [m.state]
    ensures r.after.initial == m.initial && r.after.pristine == m.pristine
    ensures |r.after.prev| + |r.after.next| == |m.prev| + |m.next|
  {
    if m.pristine || |m.prev| == 0 then Move(false, m)
    else Move(true, m.(state := m.prev[|m.prev| - 1],
                       prev := m.prev[..|m.prev| - 1],
                       next := m.next + [m.state]))
  }

  function Redo(m: Machine): (r: Move)
    ensures r.moved <==> !m.pristine && m.next != []
    ensures !r.moved ==> r.after == m
    ensures r.moved ==>
      r.after.state == m.next[|m.next| - 1] && r.after.next == m.next[..|m.next| - 1] &&
      r.after.prev == m.prev + [m.state]
    ensures r.after.initial == m.initial && r.after.pristine == m.pristine
    ensures |r.after.prev| + |r.after.next| == |m.prev| + |m.next|
  {
    if m.pristine || |m.next| == 0 then Move(false, m)
    else Move(true, m.(state := m.next[|m.next| - 1],
                       next := m.next[..|m.next| - 1],
                       prev := m.prev + [m.state]))
  }

  function ClearHistory(m: Machine): (r: Machine)
    ensures r.prev == [] && r.next == []
    ensures r.state == m.state && r.initial == m.initial && r.pristine == m.pristine
  {
    m.(prev := [], next := [])
  }

  /** Whether getStates(event) lists state `s` of table `t`: with no event, or
      with the (falsy) empty-string event, every state is listed; otherwise
      only the states with a transition for the event. */
  predicate Listed(t: Table, s: string, event: Option<string>) {
    s in t && (event.None? || event.value == "" || HasTransition(t, s, event.value))
  }

  /** The operations that change the engine's state, as data. */
  datatype Op =
    | ChangeStateOp(target: string)
    | TriggerOp(event: string)
    | ResetOp
    | UndoOp
    | RedoOp
    | ClearHistoryOp

  function Apply(t: Table, m: Machine, op: Op): Machine {
    match op
    case ChangeStateOp(target) => ChangeState(t, m, target).after
    case TriggerOp(event) => Trigger(t, m, event).after
    case ResetOp => Reset(m)
    case UndoOp => Undo(m).after
    case RedoOp => Redo(m).after
    case ClearHistoryOp => ClearHistory(m)
  }

  /** The configuration after a sequence of calls, first call first. */
  function Run(t: Table, m: Machine, ops: seq<Op>): Machine
    decreases |ops|
  {
    if ops == [] then m else Run(t, Apply(t, m, ops[0]), ops[1..])
  }

  function Reversed(s: seq<string>): (r: seq<string>)
    ensures |r| == |s|
    ensures forall k :: 0 <= k < |s| ==> r[k] == s[|s| - 1 - k]
  {
    if s == [] then [] else [s[|s| - 1]] + Reversed(s[..|s| - 1])
  }

  /** The visited states read in order: the undo stack bottom to top, the
      current state, then the redo stack top to bottom. The current state
      sits at index |m.prev|. */
  function Timeline(m: Machine): seq<string> {
    m.prev + [m.state] + Reversed(m.next)
  }
}
