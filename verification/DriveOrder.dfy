/** drive_order of crates/orchestrator/src/run.rs over a mutable order table, and resolve_quarantine. */
module DriveOrder {
  import opened Wrappers
  import opened OrderMachine

  /** A write either commits, is lost, or takes effect while the caller sees an error. */
  datatype WriteFate = Committed | Lost | Unsure

  /** INSERT ... ON CONFLICT(id) DO UPDATE: every column but created_at is replaced. */
  function Upsert(rows: map<string, Order>, order: Order): map<string, Order> {
    rows[order.id := if order.id in rows then order.(createdAt := rows[order.id].createdAt) else order]
  }

  datatype Send = Send(step: ExecStep, signedTx: string, txHash: string)

  /** The side effects of a pass, in order. */
  datatype Effect = Wrote(order: Order) | Transmitted(tx: Send)

  /** The table after the writes of a log; transmissions do not touch it. */
  function Replay(rows: map<string, Order>, log: seq<Effect>): map<string, Order>
    decreases |log|
  {
    if log == [] then rows
    else Replay(if log[0].Wrote? then Upsert(rows, log[0].order) else rows, log[1..])
  }

  class OrderTable {
    var rows: map<string, Order>

    constructor ()
      ensures rows == map[]
    {
      rows := map[];
    }

    method UpsertOrder(order: Order, fate: WriteFate) returns (ok: bool)
      modifies this
      ensures rows == (if fate.Lost? then old(rows) else Upsert(old(rows), order))
      ensures !fate.Lost? ==>
                && rows.Keys == old(rows).Keys + {order.id}
                && (forall id :: id in old(rows) && id != order.id ==> rows[id] == old(rows)[id])
                && rows[order.id] == order.(createdAt := if order.id in old(rows) then old(rows)[order.id].createdAt
                                                         else order.createdAt)
      ensures ok <==> fate.Committed?
    {
      if !fate.Lost? {
        var createdAt := if order.id in rows then rows[order.id].createdAt else order.createdAt;
        rows := rows[order.id := order.(createdAt := createdAt)];
      }
      ok := fate.Committed?;
    }

    /** Releases a quarantined order and reports the level it frees; anything else is left untouched. */
    method ResolveQuarantine(orderId: string, fate: WriteFate) returns (r: Result<string, string>)
      requires forall id :: id in rows ==> rows[id].id == id
      modifies this
      ensures r.Ok? <==> orderId in old(rows) && old(rows)[orderId].state.SwapQuarantined? && fate.Committed?
      ensures r.Ok? ==> r.value == old(rows)[orderId].levelId
      ensures orderId !in old(rows) || !old(rows)[orderId].state.SwapQuarantined? || fate.Lost? ==> rows == old(rows)
      ensures orderId in old(rows) && old(rows)[orderId].state.SwapQuarantined? && !fate.Lost? ==>
                && rows.Keys == old(rows).Keys
                && (forall id :: id in rows && id != orderId ==> rows[id] == old(rows)[id])
                && rows[orderId] == Released(old(rows)[orderId])
                && rows[orderId].state == Failed(old(rows)[orderId].state.parkedTx, "quarantine resolved by operator")
                && rows[orderId].swapAttempts == 0 && rows[orderId].swapRetryAfterTs == None
                && rows[orderId] == old(rows)[orderId].(state := rows[orderId].state, swapAttempts := 0,
                                                        swapRetryAfterTs := None)
    {
      if orderId !in rows {
        return Err("no such order");
      }
      var order := rows[orderId];
      var applied := Apply(order, QuarantineResolved);
      if applied.Err? {
        return Err("order is not quarantined");
      }
      if applied.value.None? {
        return Err("releasing a quarantine has to change the state");
      }
      order := order.(state := applied.value.value);
      order := order.(swapAttempts := 0);
      order := order.(swapRetryAfterTs := None);
      var ok := UpsertOrder(order, fate);
      if !ok {
        return Err("cannot upsert order");
      }
      return Ok(order.levelId);
    }
  }

  /** The row an operator release leaves: failed, with the parked hash kept and the retry budget reset. */
  function Released(order: Order): Order
    requires order.state.SwapQuarantined?
  {
    order.(state := Failed(order.state.parkedTx, "quarantine resolved by operator"), swapAttempts := 0,
           swapRetryAfterTs := None)
  }

  /** Everything one turn of the loop meets from outside. */
  datatype Input = Input(checkedAt: int, world: World, retryFrom: int, fate: WriteFate)

  datatype PassEnd = Settled | CapReached | WriteFailed | InvalidTransition

  datatype PassResult = PassResult(order: Order, log: seq<Effect>, end: PassEnd)

  function Transmission(allowBroadcast: bool, order: Order, checkedAt: int): seq<Effect> {
    if Sends(allowBroadcast, order, checkedAt)
    then [Transmitted(Send(order.state.step, order.state.signedTx, order.state.txHash))]
    else []
  }

  /** One pass over an order, one input per permitted turn. */
  function Pass(allowBroadcast: bool, order: Order, inputs: seq<Input>): PassResult
    decreases |inputs|
  {
    if inputs == [] then PassResult(order, [], CapReached)
    else
      var i := inputs[0];
      var sent := Transmission(allowBroadcast, order, i.checkedAt);
      match TurnOf(allowBroadcast, order, i.checkedAt, i.world, i.retryFrom)
      case Stop => PassResult(order, sent, Settled)
      case Invalid => PassResult(order, sent, InvalidTransition)
      case Persist(next, more) =>
        if i.fate.Lost? then PassResult(next, sent, WriteFailed)
        else if i.fate.Unsure? then PassResult(next, sent + [Wrote(next)], WriteFailed)
        else if !more then PassResult(next, sent + [Wrote(next)], Settled)
        else
          var rest := Pass(allowBroadcast, next, inputs[1..]);
          rest.(log := sent + [Wrote(next)] + rest.log)
  }

  lemma {:induction false} ReplayAppend(rows: map<string, Order>, log: seq<Effect>, more: seq<Effect>)
    ensures Replay(rows, log + more) == Replay(Replay(rows, log), more)
    decreases |log|
  {
    if log == [] {
      assert log + more == more;
    } else {
      assert (log + more)[1..] == log[1..] + more;
      ReplayAppend(if log[0].Wrote? then Upsert(rows, log[0].order) else rows, log[1..], more);
    }
  }

  lemma ReplaySent(rows: map<string, Order>, allowBroadcast: bool, order: Order, checkedAt: int)
    ensures Replay(rows, Transmission(allowBroadcast, order, checkedAt)) == rows
  {
  }

  lemma ReplayWrite(rows: map<string, Order>, order: Order)
    ensures Replay(rows, [Wrote(order)]) == Upsert(rows, order)
  {
    assert [Wrote(order)][1..] == [];
  }

  /** What one turn adds to the log, and what that does to the table. */
  lemma ReplayTurn(rows: map<string, Order>, log: seq<Effect>, allowBroadcast: bool, order: Order, checkedAt: int,
                   next: Order)
    ensures var sent := log + Transmission(allowBroadcast, order, checkedAt);
            Replay(rows, sent) == Replay(rows, log)
            && Replay(rows, sent + [Wrote(next)]) == Upsert(Replay(rows, log), next)
  {
    hide Replay, Transmission, Upsert;
    var table, sent := Replay(rows, log), Transmission(allowBroadcast, order, checkedAt);
    ReplaySent(table, allowBroadcast, order, checkedAt);
    ReplayAppend(rows, log, sent);
    ReplayWrite(table, next);
    ReplayAppend(rows, log + sent, [Wrote(next)]);
  }

  function Prefixed(log: seq<Effect>, rest: PassResult): PassResult {
    rest.(log := log + rest.log)
  }

  /** A pass by its first turn, behind what has been logged already. */
  lemma PassByTurns(allowBroadcast: bool, log: seq<Effect>, order: Order, inputs: seq<Input>)
    requires inputs != []
    ensures var i := inputs[0];
            var turn := TurnOf(allowBroadcast, order, i.checkedAt, i.world, i.retryFrom);
            var sent := log + Transmission(allowBroadcast, order, i.checkedAt);
            Prefixed(log, Pass(allowBroadcast, order, inputs)) ==
            if turn.Stop? then PassResult(order, sent, Settled)
            else if turn.Invalid? then PassResult(order, sent, InvalidTransition)
            else if i.fate.Lost? then PassResult(turn.order, sent, WriteFailed)
            else if i.fate.Unsure? then PassResult(turn.order, sent + [Wrote(turn.order)], WriteFailed)
            else if !turn.more then PassResult(turn.order, sent + [Wrote(turn.order)], Settled)
            else Prefixed(sent + [Wrote(turn.order)], Pass(allowBroadcast, turn.order, inputs[1..]))
  {
    hide TurnOf, Transmission;
    var i := inputs[0];
    var turn := TurnOf(allowBroadcast, order, i.checkedAt, i.world, i.retryFrom);
    var sent := Transmission(allowBroadcast, order, i.checkedAt);
    if turn.Persist? {
      var rest := Pass(allowBroadcast, turn.order, inputs[1..]).log;
      assert log + (sent + [Wrote(turn.order)]) == log + sent + [Wrote(turn.order)];
      assert log + (sent + [Wrote(turn.order)] + rest) == log + sent + [Wrote(turn.order)] + rest;
    }
  }

  lemma PassStarts(allowBroadcast: bool, order: Order, inputs: seq<Input>, rows: map<string, Order>)
    ensures Prefixed([], Pass(allowBroadcast, order, inputs)) == Pass(allowBroadcast, order, inputs)
            && Replay(rows, []) == rows
  {
    hide Pass;
    var log := Pass(allowBroadcast, order, inputs).log;
    assert [] + log == log;
  }

  lemma PassEnds(allowBroadcast: bool, log: seq<Effect>, order: Order)
    ensures Prefixed(log, Pass(allowBroadcast, order, [])) == PassResult(order, log, CapReached)
  {
    assert log + [] == log;
  }

  /** Drives the working copy, writing each new state to the table before the next side effect. */
  method DriveOrder(allowBroadcast: bool, table: OrderTable, start: Order, inputs: seq<Input>)
    returns (order: Order, log: seq<Effect>, end: PassEnd)
    requires |inputs| == 12
    modifies table
    ensures PassResult(order, log, end) == Pass(allowBroadcast, start, inputs)
    ensures table.rows == Replay(old(table.rows), log)
  {
    hide TurnOf, Transmission, Replay, Upsert, Pass, Prefixed;
    order := start;
    log := [];
    var i := 0;
    PassStarts(allowBroadcast, start, inputs, table.rows);
    assert inputs[0..] == inputs;
    while i < MAX_TRANSITIONS_PER_PASS
      invariant 0 <= i <= |inputs|
      invariant Pass(allowBroadcast, start, inputs) == Prefixed(log, Pass(allowBroadcast, order, inputs[i..]))
      invariant table.rows == Replay(old(table.rows), log)
    {
      var input := inputs[i];
      PassByTurns(allowBroadcast, log, order, inputs[i..]);
      assert inputs[i..][1..] == inputs[i + 1..];
      var turn := TurnOf(allowBroadcast, order, input.checkedAt, input.world, input.retryFrom);
      ReplayTurn(old(table.rows), log, allowBroadcast, order, input.checkedAt,
                 if turn.Persist? then turn.order else order);
      log := log + Transmission(allowBroadcast, order, input.checkedAt);
      match turn
      case Stop =>
        return order, log, Settled;
      case Invalid =>
        return order, log, InvalidTransition;
      case Persist(next, more) =>
        order := next;
        var ok := table.UpsertOrder(order, input.fate);
        log := if input.fate.Lost? then log else log + [Wrote(order)];
        if !ok {
          return order, log, WriteFailed;
        }
        if !more {
          return order, log, Settled;
        }
      i := i + 1;
    }
    assert inputs[i..] == [];
    PassEnds(allowBroadcast, log, order);
    end := CapReached;
  }

  // ---------------------------------------------------------------- what one pass guarantees

  // ---------------------------------------------------------------- a pass, copy by copy

  function Step(allowBroadcast: bool, order: Order, i: Input): Turn {
    TurnOf(allowBroadcast, order, i.checkedAt, i.world, i.retryFrom)
  }

  predicate Follows(allowBroadcast: bool, order: Order, i: Input, next: Order) {
    var turn := Step(allowBroadcast, order, i);
    turn.Persist? && turn.order == next
  }

  /** The turn changed the copy, the write committed, and the loop goes round again. */
  predicate GoesOn(allowBroadcast: bool, order: Order, i: Input) {
    var turn := Step(allowBroadcast, order, i);
    turn.Persist? && turn.more && i.fate.Committed?
  }

  /** The working copies of a pass, from the first to the last: each is what a turn made of the one before, and all
      but the last turn went on. */
  predicate Copies(allowBroadcast: bool, inputs: seq<Input>, copies: seq<Order>) {
    && 1 <= |copies| <= |inputs| + 1
    && (forall k :: 0 <= k < |copies| - 1 ==> Follows(allowBroadcast, copies[k], inputs[k], copies[k + 1]))
    && (forall k :: 0 <= k < |copies| - 2 ==> GoesOn(allowBroadcast, copies[k], inputs[k]))
  }

  /** Why a pass with these copies is over. */
  predicate EndsAs(allowBroadcast: bool, inputs: seq<Input>, copies: seq<Order>, end: PassEnd)
    requires Copies(allowBroadcast, inputs, copies)
  {
    var n := |copies| - 1;
    if n > 0 && !inputs[n - 1].fate.Committed? then end.WriteFailed?
    else if n > 0 && !GoesOn(allowBroadcast, copies[n - 1], inputs[n - 1]) then end.Settled?
    else if n == |inputs| then end.CapReached?
    else if Step(allowBroadcast, copies[n], inputs[n]).Stop? then end.Settled?
    else Step(allowBroadcast, copies[n], inputs[n]).Invalid? && end.InvalidTransition?
  }

  /** Each copy but the last is transmitted, if its turn sends it, before the next one is written. */
  function EffectsOf(allowBroadcast: bool, inputs: seq<Input>, copies: seq<Order>): seq<Effect>
    requires 1 <= |copies| <= |inputs| + 1
    decreases |copies|
  {
    if |copies| == 1 then []
    else
      (if Sends(allowBroadcast, copies[0], inputs[0].checkedAt)
       then [Transmitted(Send(copies[0].state.step, copies[0].state.signedTx, copies[0].state.txHash))] else [])
      + (if inputs[0].fate.Lost? then [] else [Wrote(copies[1])])
      + EffectsOf(allowBroadcast, inputs[1..], copies[1..])
  }

  lemma IdleTurnSendsNothing(allowBroadcast: bool, order: Order, i: Input)
    requires !Step(allowBroadcast, order, i).Persist?
    ensures Transmission(allowBroadcast, order, i.checkedAt) == []
  {
    OutcomeFits(allowBroadcast, order, i.checkedAt, i.world, i.retryFrom);
  }

  lemma CopiesFromHead(allowBroadcast: bool, inputs: seq<Input>, order: Order, copies: seq<Order>)
    requires inputs != [] && Copies(allowBroadcast, inputs[1..], copies)
    requires Follows(allowBroadcast, order, inputs[0], copies[0])
    requires |copies| > 1 ==> GoesOn(allowBroadcast, order, inputs[0])
    ensures Copies(allowBroadcast, inputs, [order] + copies)
    ensures ([order] + copies)[1..] == copies
  {
    hide Follows, GoesOn;
    var all, later := [order] + copies, inputs[1..];
    forall k | 0 <= k < |all| - 1 ensures Follows(allowBroadcast, all[k], inputs[k], all[k + 1]) {
      if k > 0 {
        assert Follows(allowBroadcast, copies[k - 1], later[k - 1], copies[k]);
      }
    }
    forall k | 0 <= k < |all| - 2 ensures GoesOn(allowBroadcast, all[k], inputs[k]) {
      if k > 0 {
        assert GoesOn(allowBroadcast, copies[k - 1], later[k - 1]);
      }
    }
  }

  /** Every pass is such a succession of copies, with these effects and this end. */
  lemma {:induction false} PassIsCopies(allowBroadcast: bool, order: Order, inputs: seq<Input>)
      returns (copies: seq<Order>)
    ensures Copies(allowBroadcast, inputs, copies) && copies[0] == order
    ensures var r := Pass(allowBroadcast, order, inputs);
            && r.order == copies[|copies| - 1] && EndsAs(allowBroadcast, inputs, copies, r.end)
            && r.log == EffectsOf(allowBroadcast, inputs, copies)
    decreases |inputs|
  {
    hide TurnOf;
    copies := [order];
    if inputs != [] {
      var i := inputs[0];
      var turn := Step(allowBroadcast, order, i);
      if !turn.Persist? {
        IdleTurnSendsNothing(allowBroadcast, order, i);
      } else if GoesOn(allowBroadcast, order, i) {
        var rest := PassIsCopies(allowBroadcast, turn.order, inputs[1..]);
        CopiesFromHead(allowBroadcast, inputs, order, rest);
        EndsFromHead(allowBroadcast, inputs, order, rest, Pass(allowBroadcast, turn.order, inputs[1..]).end);
        copies := [order] + rest;
      } else {
        CopiesFromHead(allowBroadcast, inputs, order, [turn.order]);
        copies := [order] + [turn.order];
        assert EffectsOf(allowBroadcast, inputs[1..], copies[1..]) == [];
      }
    }
  }

  lemma EndsFromHead(allowBroadcast: bool, inputs: seq<Input>, order: Order, copies: seq<Order>, end: PassEnd)
    requires inputs != [] && Copies(allowBroadcast, inputs[1..], copies) && GoesOn(allowBroadcast, order, inputs[0])
    requires Follows(allowBroadcast, order, inputs[0], copies[0])
    requires EndsAs(allowBroadcast, inputs[1..], copies, end)
    ensures Copies(allowBroadcast, inputs, [order] + copies)
    ensures EndsAs(allowBroadcast, inputs, [order] + copies, end)
  {
    hide Step, Follows;
    CopiesFromHead(allowBroadcast, inputs, order, copies);
    var n := |copies|;
    assert ([order] + copies)[n] == copies[n - 1];
    assert n < |inputs| ==> inputs[n] == inputs[1..][n - 1];
    assert n > 1 ==> inputs[n - 1] == inputs[1..][n - 2] && ([order] + copies)[n - 1] == copies[n - 2];
  }

  /** The row a transmission must come from. */
  predicate Carries(order: Order, tx: Send) {
    order.state.Broadcasting? && tx == Send(order.state.step, order.state.signedTx, order.state.txHash)
  }

  lemma TransmitsOwn(allowBroadcast: bool, order: Order, checkedAt: int)
    ensures var sent := Transmission(allowBroadcast, order, checkedAt);
            |sent| <= 1 && (sent != [] ==> sent[0].Transmitted? && Carries(order, sent[0].tx))
  {
  }

  /** Every transmission of a pass comes straight from the row written just before it, or from the row the
      pass started with: nothing is ever sent whose bytes are not already stored. */
  lemma {:induction false} StoredBeforeSent(allowBroadcast: bool, order: Order, inputs: seq<Input>, k: nat)
    requires var log := Pass(allowBroadcast, order, inputs).log; k < |log| && log[k].Transmitted?
    ensures var log := Pass(allowBroadcast, order, inputs).log;
            if k == 0 then Carries(order, log[0].tx) else log[k - 1].Wrote? && Carries(log[k - 1].order, log[k].tx)
    decreases |inputs|
  {
    hide TurnOf, Transmission;
    var i := inputs[0];
    TransmitsOwn(allowBroadcast, order, i.checkedAt);
    var sent := Transmission(allowBroadcast, order, i.checkedAt);
    var turn := TurnOf(allowBroadcast, order, i.checkedAt, i.world, i.retryFrom);
    if k >= |sent| + 1 {
      StoredBeforeSent(allowBroadcast, turn.order, inputs[1..], k - |sent| - 1);
    }
  }

  function SendCount(log: seq<Effect>): nat {
    if log == [] then 0 else (if log[0].Transmitted? then 1 else 0) + SendCount(log[1..])
  }

  lemma {:induction false} SendCountConcat(log: seq<Effect>, more: seq<Effect>)
    ensures SendCount(log + more) == SendCount(log) + SendCount(more)
  {
    if log == [] {
      assert log + more == more;
    } else {
      assert (log + more)[1..] == log[1..] + more;
      SendCountConcat(log[1..], more);
    }
  }

  /** Transmissions possible in `n` more turns from this state. */
  function SendRoom(state: OrderState, n: nat): nat {
    match state
    case Broadcasting(_, _, _, _, _) => (n + 2) / 3
    case SwapReady(_, _, _) => (n + 1) / 3
    case Submitted(_, _, _, _, _) => n / 3
    case _ => 0
  }

  lemma TurnUsesRoom(allowBroadcast: bool, order: Order, checkedAt: int, world: World, retryFrom: int, n: nat)
    ensures SendCount(Transmission(allowBroadcast, order, checkedAt)) <= SendRoom(order.state, n + 1)
    ensures var turn := TurnOf(allowBroadcast, order, checkedAt, world, retryFrom);
            turn.Persist? && turn.more ==>
              SendCount(Transmission(allowBroadcast, order, checkedAt)) + SendRoom(turn.order.state, n)
                  <= SendRoom(order.state, n + 1)
  {
    assert SendCount([]) == 0;
    assert forall e: Effect :: [e][1..] == [];
  }

  lemma {:induction false} PassSendsWithinRoom(allowBroadcast: bool, order: Order, inputs: seq<Input>)
    ensures SendCount(Pass(allowBroadcast, order, inputs).log) <= SendRoom(order.state, |inputs|)
    ensures !Pass(allowBroadcast, order, inputs).end.InvalidTransition?
    decreases |inputs|
  {
    hide TurnOf, Transmission, SendRoom;
    if inputs != [] {
      var i := inputs[0];
      OutcomeFits(allowBroadcast, order, i.checkedAt, i.world, i.retryFrom);
      TurnUsesRoom(allowBroadcast, order, i.checkedAt, i.world, i.retryFrom, |inputs| - 1);
      var sent := Transmission(allowBroadcast, order, i.checkedAt);
      var turn := TurnOf(allowBroadcast, order, i.checkedAt, i.world, i.retryFrom);
      if turn.Persist? {
        SendCountConcat(sent, [Wrote(turn.order)]);
        if turn.more && i.fate.Committed? {
          PassSendsWithinRoom(allowBroadcast, turn.order, inputs[1..]);
          SendCountConcat(sent + [Wrote(turn.order)], Pass(allowBroadcast, turn.order, inputs[1..]).log);
        }
      }
    }
  }

  /** From any state and against any outside world, one pass transmits at most four times and never takes the
      invalid-transition arm. */
  lemma AtMostFourSends(allowBroadcast: bool, order: Order, inputs: seq<Input>)
    requires |inputs| == MAX_TRANSITIONS_PER_PASS
    ensures SendCount(Pass(allowBroadcast, order, inputs).log) <= 4
    ensures !Pass(allowBroadcast, order, inputs).end.InvalidTransition?
  {
    PassSendsWithinRoom(allowBroadcast, order, inputs);
  }

  /** The outside world signs the venue's remaining steps one by one, accepts and confirms everything, and
      every write commits. */
  predicate Smooth(steps: seq<ExecStep>, inputs: seq<Input>) {
    && |inputs| >= 3 * |steps|
    && (forall k :: 0 <= k < |inputs| ==> inputs[k].fate.Committed?)
    && (forall j :: 0 <= j < |steps| ==>
          && inputs[3 * j].world.sign.Ok? && inputs[3 * j].world.sign.value.step == steps[j]
          && inputs[3 * j + 1].world.send.Ok?
          && inputs[3 * j + 2].world.receipt == Ok(Success))
  }

  /** A step list as a venue reports it: allowance steps, then the swap. */
  predicate EndsInSwap(steps: seq<ExecStep>) {
    steps != [] && steps[|steps| - 1].Swap? && forall j :: 0 <= j < |steps| - 1 ==> !steps[j].Swap?
  }

  /** Three turns carry a ready order through one step. */
  lemma OneStep(order: Order, a: Input, b: Input, c: Input)
    requires order.state.SwapReady? && order.swapRetryAfterTs.None?
    requires a.world.sign.Ok? && b.world.send.Ok? && c.world.receipt == Ok(Success)
    ensures var t1 := TurnOf(true, order, a.checkedAt, a.world, a.retryFrom);
            && t1.Persist? && t1.more
            && var t2 := TurnOf(true, t1.order, b.checkedAt, b.world, b.retryFrom);
            && t2.Persist? && t2.more
            && var t3 := TurnOf(true, t2.order, c.checkedAt, c.world, c.retryFrom);
            && t3.Persist? && t3.more && t3.order.swapRetryAfterTs.None?
            && (if a.world.sign.value.step.Swap? then t3.order.state.Filled? else t3.order.state.SwapReady?)
  {
  }

  /** When everything is accepted and confirmed, one pass takes a ready order through at most three steps to
      Filled. */
  lemma {:induction false} SmoothPassFills(order: Order, steps: seq<ExecStep>, inputs: seq<Input>)
    requires order.state.SwapReady? && order.swapRetryAfterTs.None? && EndsInSwap(steps) && Smooth(steps, inputs)
    ensures Pass(true, order, inputs).order.state.Filled?
    decreases |steps|
  {
    hide TurnOf, Transmission, Pass;
    var a, b, c := inputs[0], inputs[1], inputs[2];
    assert a == inputs[3 * 0] && b == inputs[3 * 0 + 1] && c == inputs[3 * 0 + 2];
    OneStep(order, a, b, c);
    var o1 := TurnOf(true, order, a.checkedAt, a.world, a.retryFrom).order;
    var o2 := TurnOf(true, o1, b.checkedAt, b.world, b.retryFrom).order;
    var o3 := TurnOf(true, o2, c.checkedAt, c.world, c.retryFrom).order;
    var rest := inputs[3..];
    assert inputs[1..][1..] == inputs[2..] && inputs[2..][1..] == rest;
    PassByTurns(true, [], order, inputs);
    PassByTurns(true, [], o1, inputs[1..]);
    PassByTurns(true, [], o2, inputs[2..]);
    assert Pass(true, order, inputs).order == Pass(true, o3, rest).order;
    if steps[0].Swap? {
      assert |steps| == 1;
      FilledStays(o3, rest);
    } else {
      SmoothTail(steps, inputs);
      SmoothPassFills(o3, steps[1..], rest);
    }
  }

  /** The j-th step of the remaining inputs is the (j+1)-th of all of them. */
  lemma SmoothStep(steps: seq<ExecStep>, inputs: seq<Input>, j: nat)
    requires Smooth(steps, inputs) && j + 1 < |steps|
    ensures var rest := inputs[3..];
            && |rest| > 3 * j + 2
            && rest[3 * j].world.sign.Ok? && rest[3 * j].world.sign.value.step == steps[j + 1]
            && rest[3 * j + 1].world.send.Ok? && rest[3 * j + 2].world.receipt == Ok(Success)
  {
    var k := j + 1;
    assert inputs[3..][3 * j] == inputs[3 * k];
    assert inputs[3..][3 * j + 1] == inputs[3 * k + 1];
    assert inputs[3..][3 * j + 2] == inputs[3 * k + 2];
  }

  lemma SmoothTail(steps: seq<ExecStep>, inputs: seq<Input>)
    requires EndsInSwap(steps) && !steps[0].Swap? && Smooth(steps, inputs)
    ensures EndsInSwap(steps[1..]) && Smooth(steps[1..], inputs[3..])
  {
    EndsInSwapTail(steps);
    var left, rest := steps[1..], inputs[3..];
    forall j | 0 <= j < |left|
      ensures && rest[3 * j].world.sign.Ok? && rest[3 * j].world.sign.value.step == left[j]
              && rest[3 * j + 1].world.send.Ok? && rest[3 * j + 2].world.receipt == Ok(Success)
    {
      hide Smooth, EndsInSwap;
      SmoothStep(steps, inputs, j);
    }
  }

  lemma EndsInSwapTail(steps: seq<ExecStep>)
    requires EndsInSwap(steps) && !steps[0].Swap?
    ensures EndsInSwap(steps[1..])
  {
    var left := steps[1..];
    assert left[|left| - 1] == steps[|steps| - 1];
  }

  lemma FilledStays(order: Order, inputs: seq<Input>)
    requires order.state.Filled?
    ensures Pass(true, order, inputs).order == order
  {
  }

  /** The pass limit suffices for every venue: the longest step list has three entries. */
  lemma OnePassFills(order: Order, steps: seq<ExecStep>, inputs: seq<Input>)
    requires order.state.SwapReady? && order.swapRetryAfterTs.None?
    requires EndsInSwap(steps) && |steps| <= 3 && |inputs| == MAX_TRANSITIONS_PER_PASS && Smooth(steps, inputs)
    ensures Pass(true, order, inputs).order.state.Filled?
  {
    SmoothPassFills(order, steps, inputs);
  }
}
