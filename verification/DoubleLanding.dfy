/** A run of the daemon in which two different swaps of one level land although no attempt was given up by the
    receipt deadline or released by the operator: the broadcast switch is on, off, and on again. */
module DoubleLanding {
  import opened Wrappers
  import opened OrderMachine
  import opened DriveOrder
  import opened OrderIds
  import opened Lifecycle

  // ---------------------------------------------------------------- paths

  /** The step gives an attempt up by timeout or operator release. */
  predicate GivesUp(s: System, e: Event) {
    e.Release? || (e.Store? && s.sweeper.Writing? && s.sweeper.next.state.Failed?
                   && CauseOf(s.sweeper.base, s.sweeper.next).TimedOut?)
  }

  predicate Allowed(s: System, e: Event) {
    Enabled(s, e) && !GivesUp(s, e)
  }

  /** The events are allowed one after the other and lead from `s` to `t`. */
  predicate Leads(s: System, events: seq<Event>, t: System)
    decreases |events|
  {
    if events == [] then s == t
    else Allowed(s, events[0]) && Leads(Next(s, events[0]), events[1..], t)
  }

  lemma {:induction false} Joins(s: System, first: seq<Event>, t: System, second: seq<Event>, u: System)
    requires Leads(s, first, t) && Leads(t, second, u)
    ensures Leads(s, first + second, u)
    decreases |first|
  {
    hide Enabled, GivesUp, Next;
    if first == [] {
      assert first + second == second;
    } else {
      assert (first + second)[1..] == first[1..] + second;
      Joins(Next(s, first[0]), first[1..], t, second, u);
    }
  }

  lemma Then(s: System, events: seq<Event>, t: System, e: Event)
    requires Leads(s, events, t) && Allowed(t, e)
    ensures Leads(s, events + [e], Next(t, e))
  {
    hide Enabled, GivesUp, Next;
    assert [e][1..] == [];
    Joins(s, events, t, [e], Next(t, e));
  }

  /** A path from the initial state is a run in which nothing is given up. */
  lemma {:induction false} PathStates(s: System, events: seq<Event>, t: System) returns (states: seq<System>)
    requires Leads(s, events, t)
    ensures |states| == |events| + 1 && states[0] == s && states[|events|] == t
    ensures forall i :: 0 <= i < |events| ==>
              Allowed(states[i], events[i]) && states[i + 1] == Next(states[i], events[i])
    decreases |events|
  {
    hide Enabled, GivesUp, Next;
    if events == [] {
      states := [s];
    } else {
      var rest := PathStates(Next(s, events[0]), events[1..], t);
      states := [s] + rest;
    }
  }

  // ---------------------------------------------------------------- what a step changes

  /** The components the witness speaks about. */
  datatype Core = Core(rows: map<string, Order>, trigger: Trigger, sweeper: Sweeper, on: bool, clock: int,
                       signed: map<string, string>, fates: map<string, ChainFate>, sent: set<Transmission>,
                       attemptOf: map<string, nat>, attempts: nat)

  function CoreOf(s: System): Core {
    Core(s.rows, s.trigger, s.sweeper, s.allowBroadcast, s.clock, s.signed, s.fates, s.sent, s.attemptOf,
         |s.attemptLevel|)
  }

  const LEVEL: LevelEntry := LevelEntry("level", 1)

  /** Every stored order is failed and past its cooldown. */
  predicate AllOver(rows: map<string, Order>, now: int) {
    forall id :: id in rows ==> rows[id].state.Failed? && rows[id].createdAt + LEVEL_COOLDOWN_SECS <= now
  }

  lemma Snapshot(s: System, publishedAt: nat, now: int)
    requires s.trigger.Idle? && AllOver(s.rows, now)
    ensures var e := TakeSnapshot([LEVEL], publishedAt, now);
            Allowed(s, e) && CoreOf(Next(s, e)) == CoreOf(s).(trigger := Placing([LEVEL], publishedAt, now))
  {
  }

  lemma Placed(s: System, publishedAt: nat, now: int, id: string)
    requires s.trigger == Placing([LEVEL], publishedAt, now) && id == OrderId(LEVEL.id, publishedAt) && id !in s.rows
    ensures var e := PlaceOrder(true, Committed);
            Allowed(s, e)
            && CoreOf(Next(s, e)) == CoreOf(s).(rows := s.rows[id := NewOrder(id, LEVEL.id, LEVEL.amount, now)],
                                                trigger := Placing([], publishedAt, now),
                                                attemptOf := s.attemptOf[id := |s.attemptLevel|],
                                                attempts := |s.attemptLevel| + 1)
  {
    hide OrderId;
    assert [LEVEL][1..] == [];
  }

  lemma TickDone(s: System)
    requires s.trigger.Placing? && s.trigger.pending == []
    ensures Allowed(s, FinishTick) && CoreOf(Next(s, FinishTick)) == CoreOf(s).(trigger := Idle)
  {
  }

  /** Only the row `row` is still open. */
  predicate OnlyOpen(rows: map<string, Order>, row: Order) {
    row.id in rows && rows[row.id] == row && !row.IsTerminal()
    && forall id :: id in rows && id != row.id ==> rows[id].IsTerminal()
  }

  lemma ListsOne(s: System, row: Order)
    requires s.sweeper.Resting? && OnlyOpen(s.rows, row)
    ensures Allowed(s, ListOpen([row])) && CoreOf(Next(s, ListOpen([row]))) == CoreOf(s).(sweeper := Listed([row]))
  {
  }

  lemma StartsOne(s: System, row: Order)
    requires s.sweeper == Listed([row])
    ensures Allowed(s, StartNext)
            && CoreOf(Next(s, StartNext)) == CoreOf(s).(sweeper := Driving(row, MAX_TRANSITIONS_PER_PASS, []))
  {
    assert [row][1..] == [];
  }

  /** The two sweeper steps that pick up the only open row. */
  lemma PicksUp(s: System, row: Order) returns (t: System)
    requires s.sweeper.Resting? && OnlyOpen(s.rows, row)
    ensures Leads(s, [ListOpen([row]), StartNext], t)
    ensures CoreOf(t) == CoreOf(s).(sweeper := Driving(row, MAX_TRANSITIONS_PER_PASS, []))
  {
    hide Allowed, Next, OnlyOpen;
    ListsOne(s, row);
    var m := Next(s, ListOpen([row]));
    StartsOne(m, row);
    t := Next(m, StartNext);
    Then(s, [], s, ListOpen([row]));
    Then(s, [ListOpen([row])], m, StartNext);
    assert [] + [ListOpen([row])] == [ListOpen([row])];
    assert [ListOpen([row])] + [StartNext] == [ListOpen([row]), StartNext];
  }

  lemma Stores(s: System, base: Order, next: Order, more: bool, turns: nat)
    requires s.sweeper == Writing(base, next, more, turns, [])
    requires next.id in s.rows && s.rows[next.id].createdAt == next.createdAt
    requires next.state.Failed? ==> !CauseOf(base, next).TimedOut?
    ensures Allowed(s, Store(Committed))
            && CoreOf(Next(s, Store(Committed))) ==
               CoreOf(s).(rows := s.rows[next.id := next],
                          sweeper := if more then Driving(next, turns, []) else Listed([]))
  {
    hide CauseOf;
  }

  // ---------------------------------------------------------------- the turns

  function Signing(now: int, wire: string, hash: string): World {
    World(now, Ok(SignedTx(Swap, wire, hash)), "unused", Err("unused"), Err("unused"))
  }

  function Silent(now: int): World {
    World(now, Err("unused"), "dry run unsupported", Err("connection reset"), Err("unused"))
  }

  function SignedOrder(order: Order, wire: string, hash: string): Order {
    order.(state := Broadcasting(Swap, LEVEL.amount, wire, hash, None))
  }

  /** The send reaches the node although the daemon sees an error. */
  function TriedOrder(order: Order, now: int): Order {
    order.(swapAttempts := 1, swapRetryAfterTs := Some(now + 2))
  }

  function BlockedOrder(order: Order): Order {
    order.(state := Failed(None, "broadcast blocked; set MAINNET_SWAP=1 to allow (" + "dry run unsupported" + ")"),
           swapAttempts := 1, swapRetryAfterTs := None)
  }

  lemma TurnSigns(order: Order, on: bool, now: int, wire: string, hash: string)
    requires order.state == SwapReady(Swap, LEVEL.amount, None) && order.swapRetryAfterTs.None?
    ensures TurnOf(on, order, now, Signing(now, wire, hash), now) == Persist(SignedOrder(order, wire, hash), true)
  {
  }

  lemma TurnIsLost(order: Order, now: int)
    requires order.state.Broadcasting? && order.swapRetryAfterTs.None? && order.swapAttempts == 0
    ensures TurnOf(true, order, now, Silent(now), now) == Persist(TriedOrder(order, now), false)
  {
    assert Pow2(0) == 1;
  }

  lemma TurnIsBlocked(order: Order, now: int)
    requires order.state.Broadcasting?
    ensures TurnOf(false, TriedOrder(order, now), now + 2, Silent(now + 2), now + 2)
            == Persist(BlockedOrder(order), true)
  {
  }

  lemma SignStep(s: System, order: Order, wire: string, hash: string)
    requires s.sweeper == Driving(order, MAX_TRANSITIONS_PER_PASS, []) && hash !in s.signed
    requires order.state == SwapReady(Swap, LEVEL.amount, None) && order.swapRetryAfterTs.None?
    ensures var e := TakeTurn(s.clock, Signing(s.clock, wire, hash), s.clock, false);
            Allowed(s, e)
            && CoreOf(Next(s, e)) ==
               CoreOf(s).(sweeper := Writing(order, SignedOrder(order, wire, hash), true, MAX_TRANSITIONS_PER_PASS - 1,
                                             []),
                          signed := s.signed[hash := wire])
  {
    hide TurnOf, SignedOrder, SendFails, RecordFailure;
    TurnSigns(order, s.allowBroadcast, s.clock, wire, hash);
    assert NewTransmissions(s, order, s.clock, false) == {};
    assert s.signed + NewSignature(order, s.clock, Signing(s.clock, wire, hash)) == s.signed[hash := wire];
  }

  lemma LostStep(s: System, order: Order, turns: nat, attempt: nat)
    requires s.sweeper == Driving(order, turns + 1, []) && s.allowBroadcast && order.id in s.attemptOf
             && s.attemptOf[order.id] == attempt
    requires order.state.Broadcasting? && order.swapRetryAfterTs.None? && order.swapAttempts == 0
    ensures var e := TakeTurn(s.clock, Silent(s.clock), s.clock, true);
            Allowed(s, e)
            && CoreOf(Next(s, e)) ==
               CoreOf(s).(sweeper := Writing(order, TriedOrder(order, s.clock), false, turns, []),
                          sent := s.sent + {Transmission(attempt, order.levelId, order.state.step, order.state.signedTx,
                                                         order.state.txHash)})
  {
    hide TurnOf, TriedOrder, SendFails, RecordFailure;
    TurnIsLost(order, s.clock);
    assert s.signed + NewSignature(order, s.clock, Silent(s.clock)) == s.signed;
  }

  lemma BlockedStep(s: System, order: Order, now: int)
    requires s.sweeper == Driving(TriedOrder(order, now), MAX_TRANSITIONS_PER_PASS, []) && !s.allowBroadcast
             && s.clock <= now + 2
    requires order.state.Broadcasting?
    ensures var e := TakeTurn(now + 2, Silent(now + 2), now + 2, false);
            Allowed(s, e)
            && CoreOf(Next(s, e)) ==
               CoreOf(s).(sweeper := Writing(TriedOrder(order, now), BlockedOrder(order), true,
                                             MAX_TRANSITIONS_PER_PASS - 1, []), clock := now + 2)
  {
    hide TurnOf, BlockedOrder, SendFails, RecordFailure;
    TurnIsBlocked(order, now);
    assert NewTransmissions(s, TriedOrder(order, now), now + 2, false) == {};
    assert s.signed + NewSignature(TriedOrder(order, now), now + 2, Silent(now + 2)) == s.signed;
  }

  lemma Lands(s: System, t: Transmission)
    requires t in s.sent && t.wire !in s.fates
    ensures Allowed(s, Settle(t.wire, Landed))
            && CoreOf(Next(s, Settle(t.wire, Landed))) == CoreOf(s).(fates := s.fates[t.wire := Landed])
  {
  }

  lemma Restarts(s: System, on: bool)
    ensures Allowed(s, Restart(on)) && CoreOf(Next(s, Restart(on)))
            == CoreOf(s).(trigger := Idle, sweeper := Resting, on := on)
  {
  }

  // ---------------------------------------------------------------- the phases

  predicate NoRestart(events: seq<Event>) {
    forall i :: 0 <= i < |events| ==> !events[i].Restart?
  }

  /** The daemon places an order for the level. */
  lemma PlacePhase(s: System, publishedAt: nat, now: int, id: string) returns (events: seq<Event>, t: System)
    requires s.trigger.Idle? && AllOver(s.rows, now) && id == OrderId(LEVEL.id, publishedAt) && id !in s.rows
    ensures Leads(s, events, t) && NoRestart(events)
    ensures CoreOf(t) == CoreOf(s).(rows := s.rows[id := NewOrder(id, LEVEL.id, LEVEL.amount, now)],
                                    attemptOf := s.attemptOf[id := |s.attemptLevel|], attempts := |s.attemptLevel| + 1)
  {
    hide Allowed, Next, AllOver, OrderId, NewOrder, Leads;
    Nowhere(s);
    var e1 := TakeSnapshot([LEVEL], publishedAt, now);
    Snapshot(s, publishedAt, now);
    Then(s, [], s, e1);
    var s1 := Next(s, e1);
    Placed(s1, publishedAt, now, id);
    Then(s, [] + [e1], s1, PlaceOrder(true, Committed));
    var s2 := Next(s1, PlaceOrder(true, Committed));
    TickDone(s2);
    Then(s, [] + [e1] + [PlaceOrder(true, Committed)], s2, FinishTick);
    t := Next(s2, FinishTick);
    events := [] + [e1] + [PlaceOrder(true, Committed)] + [FinishTick];
  }

  lemma Nowhere(s: System)
    ensures Leads(s, [], s)
  {
  }

  /** A picked-up order is signed and stored. */
  lemma SignPhase(s: System, order: Order, wire: string, hash: string) returns (events: seq<Event>, t: System)
    requires s.sweeper == Driving(order, MAX_TRANSITIONS_PER_PASS, []) && hash !in s.signed
    requires order.id in s.rows && s.rows[order.id].createdAt == order.createdAt
    requires order.state == SwapReady(Swap, LEVEL.amount, None) && order.swapRetryAfterTs.None?
    ensures Leads(s, events, t) && NoRestart(events)
    ensures var signed := SignedOrder(order, wire, hash);
            CoreOf(t) == CoreOf(s).(rows := s.rows[order.id := signed], signed := s.signed[hash := wire],
                                    sweeper := Driving(signed, MAX_TRANSITIONS_PER_PASS - 1, []))
  {
    hide Allowed, Next, Leads, CauseOf;
    Nowhere(s);
    var e := TakeTurn(s.clock, Signing(s.clock, wire, hash), s.clock, false);
    SignStep(s, order, wire, hash);
    Then(s, [], s, e);
    var turned := Next(s, e);
    Stores(turned, order, SignedOrder(order, wire, hash), true, MAX_TRANSITIONS_PER_PASS - 1);
    Then(s, [] + [e], turned, Store(Committed));
    t := Next(turned, Store(Committed));
    events := [] + [e] + [Store(Committed)];
  }

  /** Its swap is sent, the daemon believing that the send failed, and the failure is stored. */
  lemma SendPhase(s: System, order: Order, turns: nat, attempt: nat) returns (events: seq<Event>, t: System)
    requires s.sweeper == Driving(order, turns + 1, []) && s.allowBroadcast
    requires order.id in s.rows && s.rows[order.id].createdAt == order.createdAt && order.id in s.attemptOf
             && s.attemptOf[order.id] == attempt
    requires order.state.Broadcasting? && order.swapRetryAfterTs.None? && order.swapAttempts == 0
    ensures Leads(s, events, t) && NoRestart(events)
    ensures CoreOf(t) == CoreOf(s).(rows := s.rows[order.id := TriedOrder(order, s.clock)], sweeper := Listed([]),
                                    sent := s.sent + {Transmission(
                                      attempt, order.levelId, order.state.step, order.state.signedTx,
                                      order.state.txHash)})
  {
    hide Allowed, Next, Leads, CauseOf;
    Nowhere(s);
    var e := TakeTurn(s.clock, Silent(s.clock), s.clock, true);
    LostStep(s, order, turns, attempt);
    Then(s, [], s, e);
    var turned := Next(s, e);
    Stores(turned, order, TriedOrder(order, s.clock), false, turns);
    Then(s, [] + [e], turned, Store(Committed));
    t := Next(turned, Store(Committed));
    events := [] + [e] + [Store(Committed)];
  }

  lemma WrittenTwice(rows: map<string, Order>, id: string, first: Order, second: Order)
    ensures rows[id := first][id := second] == rows[id := second]
  {
  }

  /** The order the witness places, once its swap has been sent in vain. */
  function Waiting(publishedAt: nat, now: int, clock: int, wire: string, hash: string): Order {
    var id := OrderId(LEVEL.id, publishedAt);
    TriedOrder(SignedOrder(NewOrder(id, LEVEL.id, LEVEL.amount, now), wire, hash), clock)
  }

  predicate Quiet(s: System) {
    s.trigger.Idle? && s.sweeper.Resting?
  }

  /** From a resting daemon with the switch on: a new order for the level, whose swap lands unnoticed. */
  lemma LandPhase(s: System, publishedAt: nat, now: int, wire: string, hash: string)
      returns (events: seq<Event>, t: System)
    requires Quiet(s) && s.allowBroadcast && AllOver(s.rows, now)
    requires OrderId(LEVEL.id, publishedAt) !in s.rows && hash !in s.signed && wire !in s.fates
    ensures Leads(s, events, t) && NoRestart(events)
    ensures var order := Waiting(publishedAt, now, s.clock, wire, hash);
            CoreOf(t) == CoreOf(s).(rows := s.rows[order.id := order], sweeper := Listed([]),
                                    signed := s.signed[hash := wire],
                                    fates := s.fates[wire := Landed],
                                    sent := s.sent + {Transmission(|s.attemptLevel|, LEVEL.id, Swap, wire, hash)},
                                    attemptOf := s.attemptOf[order.id := |s.attemptLevel|],
                                    attempts := |s.attemptLevel| + 1)
  {
    hide Allowed, Next, Leads, OrderId, AllOver, OnlyOpen;
    var id := OrderId(LEVEL.id, publishedAt);
    var order := NewOrder(id, LEVEL.id, LEVEL.amount, now);
    var placing, placed := PlacePhase(s, publishedAt, now, id);
    NewIsOnlyOpen(s.rows, order, now);
    var picked := PicksUp(placed, order);
    Joins(s, placing, placed, [ListOpen([order]), StartNext], picked);
    var signing, ready := SignPhase(picked, order, wire, hash);
    Joins(s, placing + [ListOpen([order]), StartNext], picked, signing, ready);
    var sending, sent := SendPhase(ready, SignedOrder(order, wire, hash), MAX_TRANSITIONS_PER_PASS - 2,
                                   |s.attemptLevel|);
    var before := placing + [ListOpen([order]), StartNext] + signing;
    Joins(s, before, ready, sending, sent);
    Lands(sent, Transmission(|s.attemptLevel|, LEVEL.id, Swap, wire, hash));
    Then(s, before + sending, sent, Settle(wire, Landed));
    t := Next(sent, Settle(wire, Landed));
    events := before + sending + [Settle(wire, Landed)];
    WrittenTwice(s.rows, id, order, SignedOrder(order, wire, hash));
    WrittenTwice(s.rows, id, SignedOrder(order, wire, hash), Waiting(publishedAt, now, s.clock, wire, hash));
  }

  lemma NewIsOnlyOpen(rows: map<string, Order>, order: Order, now: int)
    requires AllOver(rows, now) && order.state.SwapReady? && order.id !in rows
    ensures OnlyOpen(rows[order.id := order], order)
  {
  }

  /** From a resting daemon with the switch off: the waiting order fails as blocked. */
  lemma BlockPhase(s: System, order: Order, now: int) returns (events: seq<Event>, t: System)
    requires Quiet(s) && !s.allowBroadcast && s.clock <= now + 2 && order.state.Broadcasting?
             && OnlyOpen(s.rows, TriedOrder(order, now))
    ensures Leads(s, events, t) && NoRestart(events)
    ensures CoreOf(t) == CoreOf(s).(rows := s.rows[order.id := BlockedOrder(order)], clock := now + 2,
                                    sweeper := Driving(BlockedOrder(order), MAX_TRANSITIONS_PER_PASS - 1, []))
  {
    hide Allowed, Next, Leads;
    var row := TriedOrder(order, now);
    var picked := PicksUp(s, row);
    var e := TakeTurn(now + 2, Silent(now + 2), now + 2, false);
    BlockedStep(picked, order, now);
    Then(s, [ListOpen([row]), StartNext], picked, e);
    var turned := Next(picked, e);
    Stores(turned, row, BlockedOrder(order), true, MAX_TRANSITIONS_PER_PASS - 1);
    Then(s, [ListOpen([row]), StartNext] + [e], turned, Store(Committed));
    t := Next(turned, Store(Committed));
    events := [ListOpen([row]), StartNext] + [e] + [Store(Committed)];
  }
}
