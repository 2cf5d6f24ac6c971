/** Properties of the engine model: the undo/redo round trips, the history
    timeline that undo and redo only navigate, the one-way pristine latch,
    and the invariants kept over any sequence of calls. */
module FsmProperties {
  import opened FsmModel

  // ----- single calls -----

  /** A successful forward move leaves nothing to redo and makes undo return
      to the state it left. */
  lemma ForwardMoveClearsRedo(t: Table, m: Machine, target: string)
    requires ChangeState(t, m, target).outcome.Pass?
    ensures !Redo(ChangeState(t, m, target).after).moved
    ensures Undo(ChangeState(t, m, target).after).moved
    ensures Undo(ChangeState(t, m, target).after).after.state == m.state
  {
  }

  /** trigger has exactly the effect of changeState to the destination it resolves. */
  lemma TriggerIsChangeStateToDestination(t: Table, m: Machine, event: string)
    requires HasTransition(t, m.state, event) && t[m.state][event] in t
    ensures Trigger(t, m, event) == ChangeState(t, m, t[m.state][event])
  {
  }

  lemma UndoThenRedo(m: Machine)
    requires Undo(m).moved
    ensures Redo(Undo(m).after) == Move(true, m)
  {
    var n := m.next + [m.state];
    assert n[..|n| - 1] == m.next;
    assert m.prev[..|m.prev| - 1] + [m.prev[|m.prev| - 1]] == m.prev;
  }

  lemma RedoThenUndo(m: Machine)
    requires Redo(m).moved
    ensures Undo(Redo(m).after) == Move(true, m)
  {
    var p := m.prev + [m.state];
    assert p[..|p| - 1] == m.prev;
    assert m.next[..|m.next| - 1] + [m.next[|m.next| - 1]] == m.next;
  }

  /** Once undo has nothing left, calling it again still changes nothing. */
  lemma UndoPastBottom(m: Machine)
    requires !Undo(m).moved
    ensures Undo(Undo(m).after) == Move(false, m)
  {
  }

  lemma ClearHistoryDisablesUndoRedo(m: Machine)
    ensures Undo(ClearHistory(m)) == Move(false, ClearHistory(m))
    ensures Redo(ClearHistory(m)) == Move(false, ClearHistory(m))
  {
  }

  /** reset keeps the history: after a forward move, undo still steps back
      from the initial state to the top of the undo stack. */
  lemma UndoAfterReset(m: Machine)
    requires !m.pristine && m.prev != []
    ensures Undo(Reset(m)).moved
    ensures Undo(Reset(m)).after.state == m.prev[|m.prev| - 1]
    ensures Undo(Reset(m)).after.next == m.next + [m.initial]
  {
  }

  // ----- the timeline -----

  lemma ReversedSnoc(s: seq<string>, x: string)
    ensures Reversed(s + [x]) == [x] + Reversed(s)
  {
    assert (s + [x])[..|s|] == s;
  }

  /** undo moves the cursor one step back along an unchanged timeline. */
  lemma UndoKeepsTimeline(m: Machine)
    requires Undo(m).moved
    ensures Timeline(Undo(m).after) == Timeline(m)
    ensures |Undo(m).after.prev| == |m.prev| - 1
  {
    var k := |m.prev| - 1;
    assert m.prev == m.prev[..k] + [m.prev[k]];
    ReversedSnoc(m.next, m.state);
  }

  /** redo moves the cursor one step forward along an unchanged timeline. */
  lemma RedoKeepsTimeline(m: Machine)
    requires Redo(m).moved
    ensures Timeline(Redo(m).after) == Timeline(m)
    ensures |Redo(m).after.prev| == |m.prev| + 1
  {
    var k := |m.next| - 1;
    assert m.next == m.next[..k] + [m.next[k]];
    ReversedSnoc(m.next[..k], m.next[k]);
  }

  /** undo lands on the timeline entry just before the cursor. */
  lemma UndoGoesBeforeCursor(m: Machine)
    requires Undo(m).moved
    ensures Undo(m).after.state == Timeline(m)[|m.prev| - 1]
  {
  }

  /** redo lands on the timeline entry just after the cursor. */
  lemma RedoGoesAfterCursor(m: Machine)
    requires Redo(m).moved
    ensures Redo(m).after.state == Timeline(m)[|m.prev| + 1]
  {
  }

  /** After the cursor the timeline holds the redo stack, top first: the
      order in which successive redo calls visit it. */
  lemma RedoStackFollowsCursor(m: Machine)
    ensures |Timeline(m)| == |m.prev| + 1 + |m.next|
    ensures forall i :: |m.prev| < i < |Timeline(m)| ==>
      Timeline(m)[i] == m.next[|m.prev| + |m.next| - i]
  {
    forall i | |m.prev| < i < |Timeline(m)|
      ensures Timeline(m)[i] == m.next[|m.prev| + |m.next| - i]
    {
      assert Timeline(m)[i] == Reversed(m.next)[i - |m.prev| - 1];
    }
  }

  /** A successful forward move cuts the timeline after the cursor and
      appends the new state. */
  lemma ForwardMoveTruncatesTimeline(t: Table, m: Machine, target: string)
    requires ChangeState(t, m, target).outcome.Pass?
    ensures Timeline(ChangeState(t, m, target).after) == Timeline(m)[..|m.prev| + 1] + [target]
  {
    assert Timeline(m)[..|m.prev| + 1] == m.prev + [m.state];
  }

  /** Any run of undo and redo calls only moves along the timeline. */
  lemma {:induction false} UndoRedoRunKeepsTimeline(t: Table, m: Machine, ops: seq<Op>)
    requires forall i :: 0 <= i < |ops| ==> ops[i].UndoOp? || ops[i].RedoOp?
    ensures Timeline(Run(t, m, ops)) == Timeline(m)
    decreases |ops|
  {
    if ops != [] {
      var m' := Apply(t, m, ops[0]);
      if ops[0].UndoOp? {
        if Undo(m).moved { UndoKeepsTimeline(m); }
      } else {
        if Redo(m).moved { RedoKeepsTimeline(m); }
      }
      assert Timeline(m') == Timeline(m);
      UndoRedoRunKeepsTimeline(t, m', ops[1..]);
    }
  }

  // ----- the pristine latch and sequences of calls -----

  lemma ApplyKeepsInitialAndLatch(t: Table, m: Machine, op: Op)
    ensures Apply(t, m, op).initial == m.initial
    ensures !m.pristine ==> !Apply(t, m, op).pristine
  {
  }

  /** No sequence of calls changes the initial state or turns the latch back on. */
  lemma {:induction false} RunKeepsInitialAndLatch(t: Table, m: Machine, ops: seq<Op>)
    ensures Run(t, m, ops).initial == m.initial
    ensures !m.pristine ==> !Run(t, m, ops).pristine
    decreases |ops|
  {
    if ops != [] {
      ApplyKeepsInitialAndLatch(t, m, ops[0]);
      RunKeepsInitialAndLatch(t, Apply(t, m, ops[0]), ops[1..]);
    }
  }

  /** From the freshly constructed configuration a single call either leaves
      the configuration as it is or closes the latch. */
  lemma ApplyWhilePristine(t: Table, initial: string, op: Op)
    ensures Apply(t, Init(initial), op).pristine ==> Apply(t, Init(initial), op) == Init(initial)
  {
  }

  /** While the latch is still on, the machine is exactly as constructed:
      at its initial state with both stacks empty. */
  lemma {:induction false} PristineMeansUntouched(t: Table, initial: string, ops: seq<Op>)
    ensures Run(t, Init(initial), ops).pristine ==> Run(t, Init(initial), ops) == Init(initial)
    decreases |ops|
  {
    if ops != [] {
      var m' := Apply(t, Init(initial), ops[0]);
      ApplyWhilePristine(t, initial, ops[0]);
      if m'.pristine {
        PristineMeansUntouched(t, initial, ops[1..]);
      } else {
        RunKeepsInitialAndLatch(t, m', ops[1..]);
      }
    }
  }

  // ----- staying inside the table -----

  /** Every transition of the table leads to a state of the table. */
  ghost predicate Closed(t: Table) {
    forall s, e :: HasTransition(t, s, e) ==> t[s][e] in t
  }

  /** The current, initial and recorded states are all states of the table. */
  ghost predicate Known(t: Table, m: Machine) {
    m.state in t && m.initial in t &&
    (forall x :: x in m.prev ==> x in t) &&
    (forall x :: x in m.next ==> x in t)
  }

  lemma ApplyKeepsKnown(t: Table, m: Machine, op: Op)
    requires Closed(t) && Known(t, m)
    ensures Known(t, Apply(t, m, op))
  {
    match op
    case UndoOp =>
      if Undo(m).moved {
        var k := |m.prev| - 1;
        assert m.prev[k] in m.prev;
        forall x | x in m.prev[..k] ensures x in t {
          assert x in m.prev;
        }
      }
    case RedoOp =>
      if Redo(m).moved {
        var k := |m.next| - 1;
        assert m.next[k] in m.next;
        forall x | x in m.next[..k] ensures x in t {
          assert x in m.next;
        }
      }
    case _ =>
  }

  /** With a closed table and a starting configuration inside the table,
      every state the machine is ever in, or records, is a state of the table. */
  lemma {:induction false} RunKeepsKnown(t: Table, m: Machine, ops: seq<Op>)
    requires Closed(t) && Known(t, m)
    ensures Known(t, Run(t, m, ops))
    decreases |ops|
  {
    if ops != [] {
      ApplyKeepsKnown(t, m, ops[0]);
      RunKeepsKnown(t, Apply(t, m, ops[0]), ops[1..]);
    }
  }

  /** Without a closed table, trigger can leave the table: the engine does not
      check that a destination is a state. */
  lemma TriggerMayLeaveTable()
    ensures var t := map["a" := map["go" := "b"]];
            Trigger(t, Init("a"), "go").outcome.Pass? &&
            Trigger(t, Init("a"), "go").after.state !in t
  {
  }
}
