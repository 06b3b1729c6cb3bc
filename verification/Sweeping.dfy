/** sweep of crates/orchestrator/src/run.rs, and the proof that the step system's sweeper does what it does. */
module Sweeping {
  import opened Wrappers
  import opened OrderMachine
  import opened DriveOrder
  import opened Lifecycle

  /** The rows after driving the open orders of the list one after another, each from its listed copy. */
  function SweptRows(allowBroadcast: bool, rows: map<string, Order>, listed: seq<Order>,
                     inputs: seq<seq<Input>>): map<string, Order>
    requires |inputs| >= |listed|
    decreases |listed|
  {
    if listed == [] then rows
    else
      var after := if listed[0].IsTerminal() then rows
                   else Replay(rows, Pass(allowBroadcast, listed[0], inputs[0]).log);
      SweptRows(allowBroadcast, after, listed[1..], inputs[1..])
  }

  function RowAt(rows: map<string, Order>, id: string): Option<Order> {
    if id in rows then Some(rows[id]) else None
  }

  /** The row that a pass over the listed copy alone leaves under its id. */
  function DrivenAlone(allowBroadcast: bool, rows: map<string, Order>, copy: Order, inputs: seq<Input>): Option<Order> {
    RowAt(Replay(rows, Pass(allowBroadcast, copy, inputs).log), copy.id)
  }

  /** Every listed order that is not terminal has been driven, and its row owes nothing to the others. */
  predicate EachDriven(allowBroadcast: bool, listed: seq<Order>, inputs: seq<seq<Input>>, before: map<string, Order>,
                       after: map<string, Order>)
    requires |inputs| >= |listed|
  {
    forall i :: 0 <= i < |listed| && !listed[i].IsTerminal() ==>
      RowAt(after, listed[i].id) == DrivenAlone(allowBroadcast, before, listed[i], inputs[i])
  }

  /** Rows of no open listed order are as before. */
  ghost predicate OthersKept(listed: seq<Order>, before: map<string, Order>, after: map<string, Order>) {
    forall id: string :: !Open(listed, id) ==> RowAt(after, id) == RowAt(before, id)
  }

  predicate Open(listed: seq<Order>, id: string) {
    exists i :: 0 <= i < |listed| && !listed[i].IsTerminal() && listed[i].id == id
  }

  lemma SweptStep(allowBroadcast: bool, rows: map<string, Order>, listed: seq<Order>, inputs: seq<seq<Input>>, i: nat)
    requires i < |listed| <= |inputs|
    ensures SweptRows(allowBroadcast, rows, listed[i..], inputs[i..]) ==
            SweptRows(allowBroadcast,
                      if listed[i].IsTerminal() then rows
                      else Replay(rows, Pass(allowBroadcast, listed[i], inputs[i]).log),
                      listed[i + 1..], inputs[i + 1..])
  {
    hide Pass, Replay;
    assert listed[i..][1..] == listed[i + 1..] && inputs[i..][1..] == inputs[i + 1..];
  }

  /** sweep: a failing order does not stop the ones after it. */
  method Sweep(allowBroadcast: bool, table: OrderTable, listed: seq<Order>, inputs: seq<seq<Input>>)
    requires |inputs| >= |listed| && forall i :: 0 <= i < |inputs| ==> |inputs[i]| == MAX_TRANSITIONS_PER_PASS
    modifies table
    ensures table.rows == SweptRows(allowBroadcast, old(table.rows), listed, inputs)
    ensures DistinctOrders(listed) ==> EachDriven(allowBroadcast, listed, inputs, old(table.rows), table.rows)
    ensures OthersKept(listed, old(table.rows), table.rows)
  {
    hide Pass, Replay;
    var i := 0;
    while i < |listed|
      invariant 0 <= i <= |listed|
      invariant SweptRows(allowBroadcast, old(table.rows), listed, inputs) ==
                SweptRows(allowBroadcast, table.rows, listed[i..], inputs[i..])
    {
      hide SweptRows;
      SweptStep(allowBroadcast, table.rows, listed, inputs, i);
      if !listed[i].IsTerminal() {
        var order, log, end := DriveOrder.DriveOrder(allowBroadcast, table, listed[i], inputs[i]);
        assert log == Pass(allowBroadcast, listed[i], inputs[i]).log;
      }
      i := i + 1;
    }
    hide EachDriven, OthersKept;
    SweepKeepsOthers(allowBroadcast, old(table.rows), listed, inputs);
    if DistinctOrders(listed) {
      SweepDrivesEach(allowBroadcast, old(table.rows), listed, inputs);
    }
  }

  // ---------------------------------------------------------------- every open order is driven

  predicate WritesOnly(log: seq<Effect>, id: string) {
    forall k :: 0 <= k < |log| && log[k].Wrote? ==> log[k].order.id == id
  }

  /** A pass writes no row but its own. */
  lemma {:induction false} PassWritesOwn(allowBroadcast: bool, order: Order, inputs: seq<Input>)
    ensures WritesOnly(Pass(allowBroadcast, order, inputs).log, order.id)
    decreases |inputs|
  {
    if inputs != [] {
      var i := inputs[0];
      var turn := TurnOf(allowBroadcast, order, i.checkedAt, i.world, i.retryFrom);
      if turn.Persist? {
        hide SwapRetryBackoffSecs, Apply, Perform;
        assert turn.order.id == order.id;
        hide TurnOf;
        PassWritesOwn(allowBroadcast, turn.order, inputs[1..]);
      }
    }
  }

  /** A log that writes one row leaves the others, and what it leaves under its own id depends on that row alone. */
  lemma {:induction false} ReplayIsLocal(rows: map<string, Order>, other: map<string, Order>, log: seq<Effect>,
                                         id: string)
    requires WritesOnly(log, id)
    ensures forall k :: k != id ==> RowAt(Replay(rows, log), k) == RowAt(rows, k)
    ensures RowAt(rows, id) == RowAt(other, id) ==> RowAt(Replay(rows, log), id) == RowAt(Replay(other, log), id)
    decreases |log|
  {
    if log != [] {
      assert WritesOnly(log[1..], id) by {
        assert forall k :: 0 <= k < |log[1..]| ==> log[1..][k] == log[k + 1];
      }
      if log[0].Wrote? {
        ReplayIsLocal(Upsert(rows, log[0].order), Upsert(other, log[0].order), log[1..], id);
      } else {
        ReplayIsLocal(rows, other, log[1..], id);
      }
    }
  }

  lemma DriveIsLocal(allowBroadcast: bool, rows: map<string, Order>, other: map<string, Order>, copy: Order,
                     inputs: seq<Input>)
    ensures var after := Replay(rows, Pass(allowBroadcast, copy, inputs).log);
            forall k :: k != copy.id ==> RowAt(after, k) == RowAt(rows, k)
    ensures RowAt(rows, copy.id) == RowAt(other, copy.id) ==>
              DrivenAlone(allowBroadcast, rows, copy, inputs) == DrivenAlone(allowBroadcast, other, copy, inputs)
  {
    hide Pass, Replay;
    PassWritesOwn(allowBroadcast, copy, inputs);
    ReplayIsLocal(rows, other, Pass(allowBroadcast, copy, inputs).log, copy.id);
  }

  lemma {:induction false} SweepKeepsOthers(allowBroadcast: bool, rows: map<string, Order>, listed: seq<Order>,
                                            inputs: seq<seq<Input>>)
    requires |inputs| >= |listed|
    ensures OthersKept(listed, rows, SweptRows(allowBroadcast, rows, listed, inputs))
    decreases |listed|
  {
    hide Pass, Replay, RowAt;
    if listed != [] {
      var open := !listed[0].IsTerminal();
      var after := if open then Replay(rows, Pass(allowBroadcast, listed[0], inputs[0]).log) else rows;
      DriveIsLocal(allowBroadcast, rows, rows, listed[0], inputs[0]);
      SweepKeepsOthers(allowBroadcast, after, listed[1..], inputs[1..]);
      var end := SweptRows(allowBroadcast, rows, listed, inputs);
      forall id: string | !Open(listed, id) ensures RowAt(end, id) == RowAt(rows, id) {
        OpenHeadOrRest(listed, id);
        assert RowAt(after, id) == RowAt(rows, id);
      }
    }
  }

  lemma OpenHeadOrRest(listed: seq<Order>, id: string)
    requires listed != []
    ensures Open(listed, id) <==> (!listed[0].IsTerminal() && listed[0].id == id) || Open(listed[1..], id)
  {
    if i :| 0 <= i < |listed| && !listed[i].IsTerminal() && listed[i].id == id {
      if i > 0 { assert listed[1..][i - 1] == listed[i]; }
    }
    if i :| 0 <= i < |listed[1..]| && !listed[1..][i].IsTerminal() && listed[1..][i].id == id {
      assert listed[i + 1] == listed[1..][i];
    }
  }

  lemma {:induction false} SweepDrivesEach(allowBroadcast: bool, rows: map<string, Order>, listed: seq<Order>,
                                           inputs: seq<seq<Input>>)
    requires |inputs| >= |listed| && DistinctOrders(listed)
    ensures EachDriven(allowBroadcast, listed, inputs, rows, SweptRows(allowBroadcast, rows, listed, inputs))
    decreases |listed|
  {
    hide Pass, Replay, RowAt, DrivenAlone;
    if listed != [] {
      var after := if listed[0].IsTerminal() then rows
          else Replay(rows, Pass(allowBroadcast, listed[0], inputs[0]).log);
      var end := SweptRows(allowBroadcast, rows, listed, inputs);
      SweepDrivesEach(allowBroadcast, after, listed[1..], inputs[1..]);
      SweepKeepsOthers(allowBroadcast, after, listed[1..], inputs[1..]);
      forall i | 0 <= i < |listed| && !listed[i].IsTerminal()
        ensures RowAt(end, listed[i].id) == DrivenAlone(allowBroadcast, rows, listed[i], inputs[i])
      {
        if i == 0 {
          HeadDriven(allowBroadcast, rows, listed, inputs, end);
        } else {
          assert listed[1..][i - 1] == listed[i] && inputs[1..][i - 1] == inputs[i];
          DriveIsLocal(allowBroadcast, rows, rows, listed[0], inputs[0]);
          DriveIsLocal(allowBroadcast, after, rows, listed[i], inputs[i]);
        }
      }
    }
  }

  /** The first order's row is settled before the others are driven. */
  lemma HeadDriven(allowBroadcast: bool, rows: map<string, Order>, listed: seq<Order>, inputs: seq<seq<Input>>,
                   end: map<string, Order>)
    requires |inputs| >= |listed| && listed != [] && DistinctOrders(listed) && !listed[0].IsTerminal()
    requires OthersKept(listed[1..], Replay(rows, Pass(allowBroadcast, listed[0], inputs[0]).log), end)
    ensures RowAt(end, listed[0].id) == DrivenAlone(allowBroadcast, rows, listed[0], inputs[0])
  {
    hide Pass, Replay, RowAt;
    assert !Open(listed[1..], listed[0].id) by {
      assert forall k :: 0 <= k < |listed[1..]| ==> listed[1..][k] == listed[k + 1];
    }
  }

  // ---------------------------------------------------------------- a pass as steps of the lifecycle

  function TurnEvent(input: Input, reached: bool): Event {
    TakeTurn(input.checkedAt, input.world, input.retryFrom, reached)
  }

  /** The step system can follow these inputs: its answers are honest. */
  predicate PassEnabled(s: System, inputs: seq<Input>, reached: seq<bool>)
    decreases |inputs|
  {
    && s.sweeper.Driving? && s.sweeper.turns == |inputs| == |reached|
    && (inputs != [] ==>
          Enabled(s, TurnEvent(inputs[0], reached[0]))
          && var t := Next(s, TurnEvent(inputs[0], reached[0]));
             t.sweeper.Writing? ==>
               var u := Next(t, Store(inputs[0].fate));
               u.sweeper.Driving? ==> PassEnabled(u, inputs[1..], reached[1..]))
  }

  /** The steps of one pass, nothing interleaved. */
  function PassRun(s: System, inputs: seq<Input>, reached: seq<bool>): System
    requires PassEnabled(s, inputs, reached)
    decreases |inputs|
  {
    hide TurnOf, HonestAnswer;
    if inputs == [] then Next(s, EndPass)
    else
      var t := Next(s, TurnEvent(inputs[0], reached[0]));
      if !t.sweeper.Writing? then t
      else
        var u := Next(t, Store(inputs[0].fate));
        if !u.sweeper.Driving? then u else PassRun(u, inputs[1..], reached[1..])
  }

  lemma TurnStep(s: System, input: Input, reached: bool)
    requires s.sweeper.Driving? && Enabled(s, TurnEvent(input, reached))
    ensures var t := Next(s, TurnEvent(input, reached));
            var turn := TurnOf(s.allowBroadcast, s.sweeper.copy, input.checkedAt, input.world, input.retryFrom);
            && t.rows == s.rows && t.allowBroadcast == s.allowBroadcast
            && t.sweeper == if turn.Persist?
                            then Writing(s.sweeper.copy, turn.order, turn.more, s.sweeper.turns - 1, s.sweeper.queue)
                            else Listed(s.sweeper.queue)
  {
    hide TurnOf, HonestAnswer, NewSignature, NewTransmissions, SendFails, RecordFailure, AttemptOf;
  }

  lemma StoreStep(t: System, fate: WriteFate)
    requires t.sweeper.Writing?
    ensures Enabled(t, Store(fate))
    ensures var u := Next(t, Store(fate));
            && u.rows == (if fate.Lost? then t.rows else Upsert(t.rows, t.sweeper.next))
            && u.allowBroadcast == t.allowBroadcast
            && u.sweeper == if fate.Committed? && t.sweeper.more
                            then Driving(t.sweeper.next, t.sweeper.turns, t.sweeper.queue) else Listed(t.sweeper.queue)
  {
    hide Upsert, CauseOf, AttemptOf, HonestAnswer, ListsOpenRows, DistinctLevels, IsSpent, CoolingDown;
    assert Enabled(t, Store(fate));
  }

  /** Undisturbed, the sweeper's steps over one order leave exactly the rows drive_order leaves. */
  lemma {:induction false} PassIsRun(s: System, inputs: seq<Input>, reached: seq<bool>)
    requires PassEnabled(s, inputs, reached)
    ensures var after := PassRun(s, inputs, reached);
            && after.rows == Replay(s.rows, Pass(s.allowBroadcast, s.sweeper.copy, inputs).log)
            && after.sweeper == Listed(s.sweeper.queue) && after.allowBroadcast == s.allowBroadcast
    decreases |inputs|
  {
    hide TurnOf, Next, Enabled, Upsert, Replay, DriveOrder.Transmission;
    if inputs == [] {
      PassCapped(s);
    } else {
      var i := inputs[0];
      var t := Next(s, TurnEvent(i, reached[0]));
      TurnStep(s, i, reached[0]);
      FirstTurn(s.allowBroadcast, s.rows, s.sweeper.copy, inputs);
      OutcomeFits(s.allowBroadcast, s.sweeper.copy, i.checkedAt, i.world, i.retryFrom);
      if t.sweeper.Writing? {
        StoreStep(t, i.fate);
        var u := Next(t, Store(i.fate));
        if u.sweeper.Driving? {
          PassIsRun(u, inputs[1..], reached[1..]);
        }
      }
    }
  }

  lemma PassCapped(s: System)
    requires s.sweeper.Driving? && s.sweeper.turns == 0
    ensures Enabled(s, EndPass) && Next(s, EndPass).rows == Replay(s.rows, [])
            && Next(s, EndPass).sweeper == Listed(s.sweeper.queue)
            && Next(s, EndPass).allowBroadcast == s.allowBroadcast
  {
    hide TurnOf, HonestAnswer, Upsert;
  }

  /** The rows of a pass by its first turn. */
  lemma FirstTurn(allowBroadcast: bool, rows: map<string, Order>, order: Order, inputs: seq<Input>)
    requires inputs != []
    ensures var i := inputs[0];
            var turn := TurnOf(allowBroadcast, order, i.checkedAt, i.world, i.retryFrom);
            Replay(rows, Pass(allowBroadcast, order, inputs).log) ==
            if !turn.Persist? || i.fate.Lost? then rows
            else if i.fate.Unsure? || !turn.more then Upsert(rows, turn.order)
            else Replay(Upsert(rows, turn.order), Pass(allowBroadcast, turn.order, inputs[1..]).log)
  {
    hide TurnOf, DriveOrder.Transmission, Upsert, Replay;
    var i := inputs[0];
    var turn := TurnOf(allowBroadcast, order, i.checkedAt, i.world, i.retryFrom);
    var sent := DriveOrder.Transmission(allowBroadcast, order, i.checkedAt);
    ReplaySent(rows, allowBroadcast, order, i.checkedAt);
    if turn.Persist? {
      ReplayWrite(rows, turn.order);
      ReplayAppend(rows, sent, [Wrote(turn.order)]);
      ReplayAppend(rows, sent + [Wrote(turn.order)], Pass(allowBroadcast, turn.order, inputs[1..]).log);
    }
  }

  // ---------------------------------------------------------------- a sweep as steps of the lifecycle

  lemma StartStep(s: System)
    requires s.sweeper.Listed? && s.sweeper.queue != []
    ensures Enabled(s, StartNext)
    ensures var t := Next(s, StartNext);
            && t.rows == s.rows && t.allowBroadcast == s.allowBroadcast
            && t.sweeper == Driving(s.sweeper.queue[0], MAX_TRANSITIONS_PER_PASS, s.sweeper.queue[1..])
  {
  }

  lemma FinishStep(s: System)
    requires s.sweeper.Listed? && s.sweeper.queue == []
    ensures Enabled(s, FinishSweep)
    ensures Next(s, FinishSweep).rows == s.rows && Next(s, FinishSweep).sweeper == Resting
  {
  }

  /** The step system can follow these inputs over the whole queue. */
  predicate SweepEnabled(s: System, inputs: seq<seq<Input>>, reached: seq<seq<bool>>)
    decreases |inputs|
  {
    && s.sweeper.Listed? && |s.sweeper.queue| == |inputs| == |reached|
    && (inputs != [] ==>
          PassEnabled(Next(s, StartNext), inputs[0], reached[0])
          && SweepEnabled(PassRun(Next(s, StartNext), inputs[0], reached[0]), inputs[1..], reached[1..]))
  }

  /** The steps of one sweep over the listed orders, nothing interleaved. */
  function SweepRun(s: System, inputs: seq<seq<Input>>, reached: seq<seq<bool>>): System
    requires SweepEnabled(s, inputs, reached)
    decreases |inputs|
  {
    if inputs == [] then
      FinishStep(s);
      Next(s, FinishSweep)
    else
      StartStep(s);
      hide Next, Enabled, PassEnabled, PassRun;
      SweepRun(PassRun(Next(s, StartNext), inputs[0], reached[0]), inputs[1..], reached[1..])
  }

  /** Undisturbed, the step system's sweep over a queue of open orders leaves exactly the rows that sweep leaves, and
      the sweeper at rest. */
  lemma {:induction false} SweepIsRun(s: System, inputs: seq<seq<Input>>, reached: seq<seq<bool>>)
    requires SweepEnabled(s, inputs, reached)
    requires forall i :: 0 <= i < |s.sweeper.queue| ==> !s.sweeper.queue[i].IsTerminal()
    ensures SweepRun(s, inputs, reached).rows == SweptRows(s.allowBroadcast, s.rows, s.sweeper.queue, inputs)
    ensures SweepRun(s, inputs, reached).sweeper == Resting
    decreases |inputs|
  {
    hide Next, Enabled, PassEnabled, PassRun, Pass, Replay;
    if inputs == [] {
      FinishStep(s);
    } else {
      StartStep(s);
      var t := Next(s, StartNext);
      PassIsRun(t, inputs[0], reached[0]);
      SweepIsRun(PassRun(t, inputs[0], reached[0]), inputs[1..], reached[1..]);
    }
  }
}
