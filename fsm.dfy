/** The engine itself: class FSM of src/fsm.js, with its fields updated in
    place. Each state-changing method states its new fields outright and is
    tied to the matching function of FsmModel, so the lemmas of
    FsmProperties apply to it. */
module Fsm {
  import opened FsmModel

  class FSM {
    /** `_states`: the transition table, stored once and never changed. */
    const table: Table
    /** `_initial`: the state `reset` returns to. */
    const initial: string
    var state: string
    /** `_initial_state`: true until the first successful changeState or trigger. */
    var pristine: bool
    /** `_prevStates`, top at the end. */
    var prev: seq<string>
    /** `_nextStates`, top at the end. */
    var next: seq<string>

    function Snapshot(): Machine
      reads this
    {
      Machine(state, initial, pristine, prev, next)
    }

    constructor (config: Config)
      ensures table == config.states && initial == config.initial
      ensures state == config.initial && pristine && prev == [] && next == []
      ensures Snapshot() == Init(config.initial)
    {
      initial := config.initial;
      pristine := true;
      state := config.initial;
      prev := [];
      next := [];
      table := config.states;
    }

    method GetState() returns (s: string)
      ensures s == state
    {
      s := state;
    }

    method ChangeState(target: string) returns (r: Outcome)
      modifies this
      ensures r.Pass? <==> target in table
      ensures r.Pass? ==>
        state == target && !pristine && prev == old(prev) + [old(state)] && next == []
      ensures r.Fail? ==> r.error == InvalidStateError(target) && Snapshot() == old(Snapshot())
      ensures Step(r, Snapshot()) == FsmModel.ChangeState(table, old(Snapshot()), target)
    {
      if target in table {
        prev := prev + [state];
        next := [];
        state := target;
        if pristine { pristine := false; }
        return Pass;
      }
      return Fail(InvalidStateError(target));
    }

    method Trigger(event: string) returns (r: Outcome)
      modifies this
      ensures r.Pass? <==> HasTransition(table, old(state), event)
      ensures r.Pass? ==>
        state == table[old(state)][event] && !pristine &&
        prev == old(prev) + [old(state)] && next == []
      ensures r.Fail? ==>
        r.error == InvalidTransitionError(old(state), event) && Snapshot() == old(Snapshot())
      ensures Step(r, Snapshot()) == FsmModel.Trigger(table, old(Snapshot()), event)
    {
      if HasTransition(table, state, event) {
        var destination := table[state][event];
        prev := prev + [state];
        next := [];
        state := destination;
        if pristine { pristine := false; }
        return Pass;
      }
      return Fail(InvalidTransitionError(state, event));
    }

    method Reset()
      modifies this
      ensures state == initial
      ensures pristine == old(pristine) && prev == old(prev) && next == old(next)
      ensures Snapshot() == FsmModel.Reset(old(Snapshot()))
    {
      state := initial;
    }

    /** The states listed by getStates(event), each once. The source's order
        (the table's iteration order) is not modelled. */
    method GetStates(event: Option<string>) returns (r: seq<string>)
      ensures event.None? || event.value == "" ==> forall s :: s in r <==> s in table
      ensures event.Some? && event.value != "" ==>
        forall s :: s in r <==> s in table && HasTransition(table, s, event.value)
      ensures forall i, j :: 0 <= i < j < |r| ==> r[i] != r[j]
    {
      r := [];
      var rest := table.Keys;
      while rest != {}
        invariant rest <= table.Keys
        invariant forall s :: s in r <==> s in table.Keys - rest && Listed(table, s, event)
        invariant forall i, j :: 0 <= i < j < |r| ==> r[i] != r[j]
        decreases rest
      {
        var s :| s in rest;
        if event.None? || event.value == "" || HasTransition(table, s, event.value) {
          assert s !in r;
          r := r + [s];
        }
        rest := rest - {s};
      }
    }

    method Undo() returns (moved: bool)
      modifies this
      ensures moved <==> !old(pristine) && old(prev) != []
      ensures moved ==>
        state == old(prev)[|old(prev)| - 1] && prev == old(prev)[..|old(prev)| - 1] &&
        next == old(next) + [old(state)] && pristine == old(pristine)
      ensures !moved ==> Snapshot() == old(Snapshot())
      ensures Move(moved, Snapshot()) == FsmModel.Undo(old(Snapshot()))
    {
      if pristine || |prev| == 0 { return false; }
      next := next + [state];
      state := prev[|prev| - 1];
      prev := prev[..|prev| - 1];
      return true;
    }

    method Redo() returns (moved: bool)
      modifies this
      ensures moved <==> !old(pristine) && old(next) != []
      ensures moved ==>
        state == old(next)[|old(next)| - 1] && next == old(next)[..|old(next)| - 1] &&
        prev == old(prev) + [old(state)] && pristine == old(pristine)
      ensures !moved ==> Snapshot() == old(Snapshot())
      ensures Move(moved, Snapshot()) == FsmModel.Redo(old(Snapshot()))
    {
      if pristine || |next| == 0 { return false; }
      prev := prev + [state];
      state := next[|next| - 1];
      next := next[..|next| - 1];
      return true;
    }

    method ClearHistory()
      modifies this
      ensures prev == [] && next == []
      ensures state == old(state) && pristine == old(pristine)
      ensures Snapshot() == FsmModel.ClearHistory(old(Snapshot()))
    {
      next := [];
      prev := [];
    }
  }

  /** `new FSM(config)`: a missing (falsy) configuration is refused. */
  method Create(config: Option<Config>) returns (r: Result<FSM, FsmError>)
    ensures r.Err? <==> config.None?
    ensures r.Err? ==> r.error == ConfigError
    ensures r.Ok? ==>
      fresh(r.value) && r.value.table == config.value.states &&
      r.value.Snapshot() == Init(config.value.initial)
  {
    if config.None? { return Err(ConfigError); }
    var m := new FSM(config.value);
    return Ok(m);
  }

  /** A two-state table hungry --eat--> full --rest--> hungry: trigger, undo,
      redo, trigger, a refused redo, and a refused changeState to an unknown
      name, concluded from the contracts alone. */
  method HungryFullScenario() {
    var hungry := map["eat" := "full"];
    var full := map["rest" := "hungry"];
    var table := map["hungry" := hungry, "full" := full];
    assert table["hungry"] == hungry && table["full"] == full;
    var fsm := new FSM(Config("hungry", table));
    var s := fsm.GetState();
    assert s == "hungry";
    var r := fsm.Trigger("eat");
    assert r.Pass? && fsm.state == "full";
    var moved := fsm.Undo();
    assert moved && fsm.state == "hungry";
    moved := fsm.Redo();
    assert moved && fsm.state == "full";
    r := fsm.Trigger("rest");
    assert r.Pass? && fsm.state == "hungry";
    moved := fsm.Redo();
    assert !moved;
    r := fsm.ChangeState("unknown");
    assert r.Fail? && fsm.state == "hungry";
  }
}
