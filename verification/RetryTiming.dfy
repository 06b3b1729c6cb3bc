/** The retry schedule over whole runs: how many sends of an attempt may fail, how far apart they are, and what a
    receipt timeout means. */
module RetryTiming {
  import opened Wrappers
  import opened OrderMachine
  import opened DriveOrder
  import opened OrderIds
  import opened Lifecycle
  import opened RowInvariant
  import opened LedgerInvariant
  import opened LifecycleTheorems

  // ---------------------------------------------------------------- a pending write comes from a turn

  /** The turn that proposed what the sweeper is about to store. */
  predicate Proposed(s: System, e: Event, writing: Sweeper) {
    e.TakeTurn? && writing.Writing? && s.sweeper.Driving? && s.sweeper.copy == writing.base
    && TurnOf(s.allowBroadcast, writing.base, e.checkedAt, e.world, e.retryFrom) == Persist(writing.next, writing.more)
  }

  lemma TurnProposes(s: System, checkedAt: int, world: World, retryFrom: int, reached: bool)
    requires Enabled(s, TakeTurn(checkedAt, world, retryFrom, reached))
    ensures var e := TakeTurn(checkedAt, world, retryFrom, reached);
            Next(s, e).sweeper.Writing? ==> Proposed(s, e, Next(s, e).sweeper)
  {
    hide Enabled, Next, TurnOf, HonestAnswer, NewSignature, NewTransmissions, SendFails, RecordFailure, AttemptOf;
    TurnFacts(s, checkedAt, world, retryFrom, reached);
  }

  lemma StoreEndsWriting(s: System, fate: WriteFate)
    requires Enabled(s, Store(fate))
    ensures !Next(s, Store(fate)).sweeper.Writing?
  {
    hide Enabled, Next, StoreRow;
    StoreFacts(s, fate);
  }

  lemma PlaceKeepsWriting(s: System, accepted: bool, fate: WriteFate)
    requires Enabled(s, PlaceOrder(accepted, fate))
    ensures var t := Next(s, PlaceOrder(accepted, fate));
            t.sweeper == s.sweeper
  {
    hide Enabled, Next, Upsert, OrderId, NewOrder;
    PlaceFacts(s, accepted, fate);
  }

  lemma ReleaseKeepsWriting(s: System, orderId: string)
    requires Enabled(s, Release(orderId))
    ensures var t := Next(s, Release(orderId));
            t.sweeper == s.sweeper
  {
    hide Enabled, Next, Upsert, Released, AttemptOf;
    ReleaseFacts(s, orderId);
  }

  lemma WritingFrame(s: System, e: Event)
    requires Enabled(s, e) && !e.TakeTurn?
    ensures var t := Next(s, e);
            t.sweeper.Writing? ==> t.sweeper == s.sweeper
  {
    if e.Store? {
      hide Enabled, Next;
      StoreEndsWriting(s, e.stored);
    } else if e.PlaceOrder? {
      hide Enabled, Next;
      PlaceKeepsWriting(s, e.accepted, e.placed);
    } else if e.Release? {
      hide Enabled, Next;
      ReleaseKeepsWriting(s, e.orderId);
    } else {
      hide Enabled, AfterTurn, AfterStore, AfterPlacement, AfterRelease;
    }
  }

  /** Whatever is about to be stored was proposed by a turn of the run. */
  lemma {:induction false} WritingWasProposed(states: seq<System>, events: seq<Event>, k: nat) returns (m: nat)
    requires IsRun(states, events) && k < |states| && states[k].sweeper.Writing?
    ensures m < k && Proposed(states[m], events[m], states[k].sweeper)
  {
    hide Enabled, Next, Proposed;
    var e := events[k - 1];
    if e.TakeTurn? {
      TurnProposes(states[k - 1], e.checkedAt, e.world, e.retryFrom, e.reached);
      m := k - 1;
    } else {
      WritingFrame(states[k - 1], e);
      m := WritingWasProposed(states, events, k - 1);
    }
  }

  lemma TimedOutTurn(allowBroadcast: bool, base: Order, checkedAt: int, world: World, retryFrom: int)
    ensures var turn := TurnOf(allowBroadcast, base, checkedAt, world, retryFrom);
            turn.Persist? && turn.order.state.Failed? && CauseOf(base, turn.order).TimedOut? ==>
              base.state.Submitted? && world.receipt == Ok(Pending)
              && world.now > base.state.submittedAt + RECEIPT_DEADLINE_SECS
  {
    hide SwapRetryBackoffSecs;
  }

  /** An attempt recorded as timed out was given up by a turn of the run which was told that its transaction had
      no receipt, and which read a clock more than half an hour past the time of submission. */
  lemma TimeoutWaitedForDeadline(states: seq<System>, events: seq<Event>, j: nat, a: nat) returns (m: nat)
    requires IsRun(states, events) && j < |events| && EndedBy(states[j], events[j], a, TimedOut)
    ensures m < j && Proposed(states[m], events[m], states[j].sweeper)
    ensures var base, world := states[j].sweeper.base, events[m].world;
            base.state.Submitted? && world.receipt == Ok(Pending)
            && world.now > base.state.submittedAt + RECEIPT_DEADLINE_SECS
  {
    hide Enabled, Next, TurnOf, CauseOf;
    m := WritingWasProposed(states, events, j);
    var e, base := events[m], states[j].sweeper.base;
    TimedOutTurn(states[m].allowBroadcast, base, e.checkedAt, e.world, e.retryFrom);
  }

  // ---------------------------------------------------------------- only a pending send holds a retry deadline

  predicate DeadlineOk(row: Order) {
    row.swapRetryAfterTs.Some? ==> row.state.Broadcasting?
  }

  predicate DeadlinesOk(rows: map<string, Order>) {
    forall id :: id in rows ==> DeadlineOk(rows[id])
  }

  lemma TurnSetsDeadline(allowBroadcast: bool, base: Order, checkedAt: int, world: World, retryFrom: int)
    ensures var turn := TurnOf(allowBroadcast, base, checkedAt, world, retryFrom);
            turn.Persist? ==> DeadlineOk(turn.order)
  {
    hide SwapRetryBackoffSecs;
  }

  lemma ProposedDeadline(s: System, e: Event, writing: Sweeper)
    requires Proposed(s, e, writing)
    ensures DeadlineOk(writing.next)
  {
    hide TurnOf, DeadlineOk;
    TurnSetsDeadline(s.allowBroadcast, writing.base, e.checkedAt, e.world, e.retryFrom);
  }

  lemma UpsertKeepsDeadlines(rows: map<string, Order>, order: Order)
    requires DeadlinesOk(rows) && DeadlineOk(order)
    ensures DeadlinesOk(Upsert(rows, order))
  {
  }

  lemma StepKeepsDeadlines(s: System, e: Event)
    requires DeadlinesOk(s.rows) && Enabled(s, e) && (s.sweeper.Writing? ==> DeadlineOk(s.sweeper.next))
    ensures DeadlinesOk(Next(s, e).rows)
  {
    hide DeadlinesOk, Upsert, TurnOf, CauseOf, AttemptOf, OrderId, HonestAnswer, ListsOpenRows, DistinctLevels;
    match e
    case PlaceOrder(accepted, fate) =>
      var entry := s.trigger.pending[0];
      UpsertKeepsDeadlines(s.rows, NewOrder(OrderId(entry.id, s.trigger.publishedAt), entry.id, entry.amount,
                                            s.trigger.now));
    case Store(fate) => UpsertKeepsDeadlines(s.rows, s.sweeper.next);
    case Release(orderId) => UpsertKeepsDeadlines(s.rows, Released(s.rows[orderId]));
    case _ => OtherStepsFrame(s, e);
  }

  lemma {:induction false} RunKeepsDeadlines(states: seq<System>, events: seq<Event>, k: nat)
    requires IsRun(states, events) && k < |states|
    ensures DeadlinesOk(states[k].rows)
  {
    hide Enabled, Next;
    if k > 0 {
      hide DeadlinesOk, DeadlineOk, Proposed;
      RunKeepsDeadlines(states, events, k - 1);
      if states[k - 1].sweeper.Writing? {
        var m := WritingWasProposed(states, events, k - 1);
        ProposedDeadline(states[m], events[m], states[k - 1].sweeper);
      }
      StepKeepsDeadlines(states[k - 1], events[k - 1]);
    }
  }

  /** Any order a run leaves ready is filled by one pass in which everything is accepted and confirmed. */
  lemma ReachableReadyOrderFills(states: seq<System>, events: seq<Event>, k: nat, id: string, steps: seq<ExecStep>,
                                 inputs: seq<Input>)
    requires IsRun(states, events) && k < |states| && id in states[k].rows && states[k].rows[id].state.SwapReady?
    requires EndsInSwap(steps) && |steps| <= 3 && |inputs| == MAX_TRANSITIONS_PER_PASS && Smooth(steps, inputs)
    ensures Pass(true, states[k].rows[id], inputs).order.state.Filled?
  {
    hide Enabled, Next, Pass, Smooth, EndsInSwap;
    RunKeepsDeadlines(states, events, k);
    OnePassFills(states[k].rows[id], steps, inputs);
  }

  // ---------------------------------------------------------------- spacing

  /** Failed send number k + 1 comes at least the k-th backoff after the one before it. */
  predicate Spaced(f: seq<int>) {
    forall k :: 1 <= k < |f| ==> f[k - 1] + SwapRetryBackoffSecs(k) <= f[k]
  }

  function WaitUntil(f: seq<int>): int
    requires f != []
  {
    f[|f| - 1] + SwapRetryBackoffSecs(|f|)
  }

  /** An open row has waited out its last failure, or holds a deadline that makes it. */
  predicate Rested(clock: int, row: Order, f: seq<int>) {
    f == [] || row.IsTerminal() || WaitUntil(f) <= clock
    || (row.swapRetryAfterTs.Some? && WaitUntil(f) <= row.swapRetryAfterTs.value)
  }

  /** The retry counter is the number of failed sends; the ninth parks the order. */
  predicate Counted(row: Order, f: seq<int>) {
    if row.state.Failed? then |f| <= 9
    else if row.state.SwapQuarantined? then |f| == 9
    else |f| == row.swapAttempts && |f| <= 8
  }

  /** The rest between failures is claimed only of an orderly clock; the count of any. */
  predicate Timely(orderly: bool, clock: int, row: Order, f: seq<int>) {
    Counted(row, f) && (orderly ==> Rested(clock, row, f))
  }

  /** The failed sends after a turn that may have added one. */
  function After(allowBroadcast: bool, copy: Order, checkedAt: int, world: World, f: seq<int>): seq<int> {
    if Sends(allowBroadcast, copy, checkedAt) && world.send.Err? then f + [world.now] else f
  }

  /** The readings of one turn, in the order they are taken, are no earlier than the one before. */
  predicate InOrder(clock: int, checkedAt: int, world: World, retryFrom: int) {
    clock <= checkedAt <= world.now <= retryFrom
  }

  /** Nobody sets the clock back during the run. */
  predicate ClockRunsOn(states: seq<System>, events: seq<Event>)
    requires |states| > |events|
  {
    forall i :: 0 <= i < |events| && events[i].TakeTurn? ==>
      InOrder(states[i].clock, events[i].checkedAt, events[i].world, events[i].retryFrom)
  }

  lemma SpacedAppend(clock: int, copy: Order, checkedAt: int, at: int, f: seq<int>)
    requires Spaced(f) && Rested(clock, copy, f) && !copy.IsTerminal() && !BackingOff(copy, checkedAt)
    requires clock <= checkedAt <= at
    ensures Spaced(f + [at])
  {
    hide SwapRetryBackoffSecs;
    forall k | 1 <= k < |f + [at]| ensures (f + [at])[k - 1] + SwapRetryBackoffSecs(k) <= (f + [at])[k] {
      if k < |f| {
        assert f[k - 1] + SwapRetryBackoffSecs(k) <= f[k];
      }
    }
  }

  /** One turn keeps the schedule, whether its send fails or not. */
  lemma TurnIsTimely(allowBroadcast: bool, copy: Order, checkedAt: int, world: World, retryFrom: int, clock: int,
                     f: seq<int>, orderly: bool)
    requires Timely(orderly, clock, copy, f) && !copy.IsTerminal()
             && (orderly ==> InOrder(clock, checkedAt, world, retryFrom))
    ensures var turn := TurnOf(allowBroadcast, copy, checkedAt, world, retryFrom);
            Timely(orderly, retryFrom, if turn.Persist? then turn.order else copy,
                   After(allowBroadcast, copy, checkedAt, world, f))
  {
    hide SwapRetryBackoffSecs;
    if Sends(allowBroadcast, copy, checkedAt) && world.send.Err? {
      FailedTurn(allowBroadcast, copy, checkedAt, world, retryFrom, f, orderly);
    }
  }

  lemma FailedTurn(allowBroadcast: bool, copy: Order, checkedAt: int, world: World, retryFrom: int, f: seq<int>,
                   orderly: bool)
    requires Sends(allowBroadcast, copy, checkedAt) && world.send.Err? && Counted(copy, f)
             && (orderly ==> world.now <= retryFrom)
    ensures var turn := TurnOf(allowBroadcast, copy, checkedAt, world, retryFrom);
            turn.Persist? && Timely(orderly, retryFrom, turn.order, f + [world.now])
  {
    hide SwapRetryBackoffSecs;
  }

  // ---------------------------------------------------------------- the invariant

  /** The row as it is about to be: what the sweeper is about to store, or what is stored. */
  function View(s: System, id: string): Order
    requires id in s.rows
  {
    if s.sweeper.Writing? && s.sweeper.next.id == id then s.sweeper.next else s.rows[id]
  }

  predicate AllSpaced(failures: seq<seq<int>>) {
    forall a :: 0 <= a < |failures| ==> Spaced(failures[a])
  }

  predicate RowTimely(s: System, id: string, orderly: bool)
    requires id in s.rows
  {
    id in s.attemptOf && s.attemptOf[id] < |s.failures|
    && Timely(orderly, s.clock, View(s, id), s.failures[s.attemptOf[id]])
  }

  predicate TimingInv(s: System, orderly: bool) {
    s.clean ==> (orderly ==> AllSpaced(s.failures)) && forall id :: id in s.rows ==> RowTimely(s, id, orderly)
  }

  lemma LaterStillTimely(clock: int, later: int, row: Order, f: seq<int>, orderly: bool)
    requires Timely(orderly, clock, row, f) && (orderly ==> clock <= later)
    ensures Timely(orderly, later, row, f)
  {
  }

  /** The sweeper is about to take a turn on an open order of an undisturbed run. */
  predicate Turning(s: System, checkedAt: int, world: World, retryFrom: int, orderly: bool) {
    && s.clean && s.sweeper.Driving? && s.sweeper.turns > 0 && !s.sweeper.copy.IsTerminal()
    && IsRow(s.rows, s.sweeper.copy)
    && (orderly ==> InOrder(s.clock, checkedAt, world, retryFrom))
  }

  lemma TurnKeepsSpacing(s: System, checkedAt: int, world: World, retryFrom: int, reached: bool, orderly: bool)
    requires AttemptsOk(s) && TimingInv(s, orderly) && Turning(s, checkedAt, world, retryFrom, orderly)
    ensures var t := AfterTurn(s, checkedAt, world, retryFrom, reached);
            var a := AttemptOf(s, s.sweeper.copy.id);
            && a < |s.failures|
            && t.failures == s.failures[a := After(s.allowBroadcast, s.sweeper.copy, checkedAt, world, s.failures[a])]
            && (orderly ==> AllSpaced(t.failures))
  {
    hide TurnOf, NewSignature, NewTransmissions, Spaced, BackingOff, Rested, Counted;
    var copy := s.sweeper.copy;
    assert RowTimely(s, copy.id, orderly);
    var f := s.failures[s.attemptOf[copy.id]];
    if orderly && SendFails(s, copy, checkedAt, world) {
      SpacedAppend(s.clock, copy, checkedAt, world.now, f);
    }
  }

  lemma TurnKeepsRow(s: System, checkedAt: int, world: World, retryFrom: int, reached: bool, id: string, orderly: bool)
    requires AttemptsOk(s) && TimingInv(s, orderly) && Turning(s, checkedAt, world, retryFrom, orderly) && id in s.rows
    requires var turn := TurnOf(s.allowBroadcast, s.sweeper.copy, checkedAt, world, retryFrom);
             turn.Persist? ==> turn.order.id == s.sweeper.copy.id
    ensures RowTimely(AfterTurn(s, checkedAt, world, retryFrom, reached), id, orderly)
  {
    hide TurnOf, NewSignature, NewTransmissions, AllSpaced, Timely, After, SendFails, RecordFailure;
    TurnKeepsSpacing(s, checkedAt, world, retryFrom, reached, orderly);
    var copy := s.sweeper.copy;
    assert RowTimely(s, id, orderly) && RowTimely(s, copy.id, orderly);
    if id == copy.id {
      TurnIsTimely(s.allowBroadcast, copy, checkedAt, world, retryFrom, s.clock, s.failures[s.attemptOf[id]], orderly);
    } else {
      LaterStillTimely(s.clock, retryFrom, s.rows[id], s.failures[s.attemptOf[id]], orderly);
    }
  }

  lemma TurnKeepsIdentity(s: System, checkedAt: int, world: World, retryFrom: int)
    requires RowInv(s) && s.sweeper.Driving? && !s.sweeper.copy.IsTerminal()
    ensures var turn := TurnOf(s.allowBroadcast, s.sweeper.copy, checkedAt, world, retryFrom);
            turn.Persist? ==> turn.order.id == s.sweeper.copy.id
    ensures IsRow(s.rows, s.sweeper.copy)
  {
    hide TurnOf, SpendsReserved, Named, RowsOk, OneLive, TriggerOk, QueueFresh;
    var copy := s.sweeper.copy;
    RowIsOk(s.rows, copy.id);
    TurnKeepsReservation(s.allowBroadcast, copy, checkedAt, world, retryFrom);
  }

  lemma IdleTurnKeepsTiming(s: System, checkedAt: int, world: World, retryFrom: int, reached: bool, orderly: bool)
    requires TimingInv(s, orderly) && s.clean && s.sweeper.Driving? && s.sweeper.turns > 0
             && s.sweeper.copy.IsTerminal()
    requires orderly ==> s.clock <= retryFrom
    ensures TimingInv(AfterTurn(s, checkedAt, world, retryFrom, reached), orderly)
  {
    hide TurnOf, NewSignature, NewTransmissions, SendFails, RecordFailure, AllSpaced, Timely;
    TerminalTurn(s, s.sweeper.copy, checkedAt, world, retryFrom, reached);
    var t := AfterTurn(s, checkedAt, world, retryFrom, reached);
    forall id | id in t.rows ensures RowTimely(t, id, orderly) {
      assert RowTimely(s, id, orderly);
      LaterStillTimely(s.clock, retryFrom, s.rows[id], s.failures[s.attemptOf[id]], orderly);
    }
  }

  lemma BusyTurnKeepsTiming(s: System, checkedAt: int, world: World, retryFrom: int, reached: bool, orderly: bool)
    requires RowInv(s) && AttemptsOk(s) && TimingInv(s, orderly) && Turning(s, checkedAt, world, retryFrom, orderly)
    ensures TimingInv(AfterTurn(s, checkedAt, world, retryFrom, reached), orderly)
  {
    hide RowInv, AttemptsOk, TurnOf, NewSignature, NewTransmissions, SendFails, RecordFailure, AllSpaced, Timely;
    TurnKeepsSpacing(s, checkedAt, world, retryFrom, reached, orderly);
    TurnKeepsIdentity(s, checkedAt, world, retryFrom);
    var t := AfterTurn(s, checkedAt, world, retryFrom, reached);
    forall id | id in t.rows ensures RowTimely(t, id, orderly) {
      TurnKeepsRow(s, checkedAt, world, retryFrom, reached, id, orderly);
    }
  }

  lemma TurnKeepsTiming(s: System, checkedAt: int, world: World, retryFrom: int, reached: bool, orderly: bool)
    requires RowInv(s) && AttemptsOk(s) && TimingInv(s, orderly)
             && Enabled(s, TakeTurn(checkedAt, world, retryFrom, reached))
    requires orderly ==> InOrder(s.clock, checkedAt, world, retryFrom)
    ensures TimingInv(Next(s, TakeTurn(checkedAt, world, retryFrom, reached)), orderly)
  {
    hide Enabled, Next, RowInv, AttemptsOk, TurnOf;
    TurnFacts(s, checkedAt, world, retryFrom, reached);
    if s.clean {
      hide TimingInv;
      if s.sweeper.copy.IsTerminal() {
        IdleTurnKeepsTiming(s, checkedAt, world, retryFrom, reached, orderly);
      } else {
        TurnKeepsIdentity(s, checkedAt, world, retryFrom);
        BusyTurnKeepsTiming(s, checkedAt, world, retryFrom, reached, orderly);
      }
    }
  }

  /** The schedule does not look at the trigger. */
  lemma TriggerNotTimed(s: System, trigger: Trigger, orderly: bool)
    requires TimingInv(s, orderly)
    ensures TimingInv(s.(trigger := trigger), orderly)
  {
    hide AllSpaced, Timely;
    var t := s.(trigger := trigger);
    if t.clean {
      forall id | id in t.rows ensures RowTimely(t, id, orderly) {
        assert RowTimely(s, id, orderly);
      }
    }
  }

  lemma PlacedIsTimely(s: System, entry: LevelEntry, orderly: bool)
    requires RowInv(s) && AttemptsOk(s) && TimingInv(s, orderly) && s.trigger.Placing? && AllFailed(s.rows, entry.id)
    ensures TimingInv(Place(s, entry), orderly)
  {
    hide RowInv, AttemptsOk, AllFailed, Spaced, Upsert, OrderId, NewOrder, RowTimely;
    if s.clean {
      EmptySpaced();
      forall id | id in Place(s, entry).rows ensures RowTimely(Place(s, entry), id, orderly) {
        PlacedRowTimely(s, entry, id, orderly);
      }
    }
  }

  lemma PlaceKeepsTiming(s: System, accepted: bool, fate: WriteFate, orderly: bool)
    requires RowInv(s) && AttemptsOk(s) && TimingInv(s, orderly) && Enabled(s, PlaceOrder(accepted, fate))
    ensures TimingInv(Next(s, PlaceOrder(accepted, fate)), orderly)
  {
    hide Enabled, Next, OneLive, RowsOk, SweeperOk, AttemptsOk, TimingInv, Place;
    PlaceFacts(s, accepted, fate);
    var entry := s.trigger.pending[0];
    assert AllFailed(s.rows, entry.id);
    var rest := s.trigger.(pending := s.trigger.pending[1..]);
    if accepted && !fate.Lost? {
      PlacedIsTimely(s, entry, orderly);
      TriggerNotTimed(Place(s, entry), rest, orderly);
    } else {
      TriggerNotTimed(s, rest, orderly);
    }
  }

  lemma EmptySpaced()
    ensures Spaced([])
  {
  }

  lemma NothingToWaitFor(clock: int, row: Order)
    ensures Rested(clock, row, [])
  {
  }

  lemma PlacedRowTimely(s: System, entry: LevelEntry, id: string, orderly: bool)
    requires RowInv(s) && AttemptsOk(s) && TimingInv(s, orderly) && s.clean && s.trigger.Placing?
             && AllFailed(s.rows, entry.id)
    requires id in Place(s, entry).rows
    ensures RowTimely(Place(s, entry), id, orderly)
  {
    hide OneLive, RowsOk, TriggerOk, Rested, OrderId, QueueFresh, Queued, AllSpaced, AllFailed, Upsert, Counted;
    PlaceKeepsRows(s.rows, entry, s.trigger.publishedAt, s.trigger.now);
    if id == OrderId(entry.id, s.trigger.publishedAt) {
      NewRowTimely(s, entry, id, orderly);
    } else {
      assert RowTimely(s, id, orderly);
    }
  }

  lemma NewRowTimely(s: System, entry: LevelEntry, id: string, orderly: bool)
    requires AttemptsOk(s) && s.trigger.Placing? && id == OrderId(entry.id, s.trigger.publishedAt)
    requires s.sweeper.Writing? ==> s.sweeper.next.id == s.sweeper.base.id && s.sweeper.base.id in s.rows
    requires s.sweeper.Writing? && id in s.rows ==> s.rows[id].state.Failed? && !s.rows[s.sweeper.base.id].state.Failed?
    ensures id in Place(s, entry).rows && RowTimely(Place(s, entry), id, orderly)
  {
    hide OrderId, Rested;
    NothingToWaitFor(s.clock, View(Place(s, entry), id));
  }

  lemma StoreKeepsTiming(s: System, fate: WriteFate, orderly: bool)
    requires RowInv(s) && AttemptsOk(s) && TimingInv(s, orderly) && Enabled(s, Store(fate))
    ensures TimingInv(Next(s, Store(fate)), orderly)
  {
    hide Enabled, Next, OneLive, RowsOk, TriggerOk, QueueFresh, Queued, Timely, AllSpaced, CauseOf;
    StoreFacts(s, fate);
    var t := Next(s, Store(fate));
    if t.clean {
      forall id | id in t.rows ensures RowTimely(t, id, orderly) {
        assert RowTimely(s, id, orderly);
      }
    }
  }

  lemma ReleaseKeepsTiming(s: System, orderId: string, orderly: bool)
    requires RowInv(s) && AttemptsOk(s) && TimingInv(s, orderly) && Enabled(s, Release(orderId))
    ensures TimingInv(Next(s, Release(orderId)), orderly)
  {
    hide RowInv, AttemptsOk, AllSpaced, Upsert;
    ReleaseParts(s, orderId);
    PendingKeepsId(s);
    var t := Next(s, Release(orderId));
    if s.clean {
      forall id | id in t.rows ensures RowTimely(t, id, orderly) {
        assert RowTimely(s, id, orderly);
      }
    }
  }

  lemma PendingKeepsId(s: System)
    requires RowInv(s)
    ensures s.sweeper.Writing? ==> s.sweeper.next.id == s.sweeper.base.id
  {
  }

  lemma OtherKeepsTiming(s: System, e: Event, orderly: bool)
    requires TimingInv(s, orderly) && Enabled(s, e) && !e.PlaceOrder? && !e.Store? && !e.Release? && !e.TakeTurn?
    ensures TimingInv(Next(s, e), orderly)
  {
    hide Enabled, AllSpaced, Timely;
    OtherStepsFrame(s, e);
    var t := Next(s, e);
    if t.clean {
      ScheduleFrame(s, e);
      forall id | id in t.rows ensures RowTimely(t, id, orderly) {
        assert RowTimely(s, id, orderly);
      }
    }
  }

  lemma ScheduleFrame(s: System, e: Event)
    requires Enabled(s, e) && !e.PlaceOrder? && !e.Store? && !e.Release? && !e.TakeTurn? && Next(s, e).clean
    ensures var t := Next(s, e);
            s.clean && t.clock == s.clock && t.failures == s.failures && t.attemptOf == s.attemptOf
            && (s.sweeper.Writing? || t.sweeper.Writing? ==> s.sweeper == t.sweeper)
  {
  }

  lemma StepKeepsTiming(s: System, e: Event, orderly: bool)
    requires RowInv(s) && AttemptsOk(s) && TimingInv(s, orderly) && Enabled(s, e)
    requires orderly && e.TakeTurn? ==> InOrder(s.clock, e.checkedAt, e.world, e.retryFrom)
    ensures TimingInv(Next(s, e), orderly)
  {
    hide RowInv, AttemptsOk, TimingInv, Enabled, Next;
    match e
    case PlaceOrder(accepted, fate) => PlaceKeepsTiming(s, accepted, fate, orderly);
    case TakeTurn(checkedAt, world, retryFrom, reached) =>
        TurnKeepsTiming(s, checkedAt, world, retryFrom, reached, orderly);
    case Store(fate) => StoreKeepsTiming(s, fate, orderly);
    case Release(orderId) => ReleaseKeepsTiming(s, orderId, orderly);
    case _ => OtherKeepsTiming(s, e, orderly);
  }

  lemma {:induction false} RunKeepsTiming(states: seq<System>, events: seq<Event>, k: nat, orderly: bool)
    requires IsRun(states, events) && k < |states| && (orderly ==> ClockRunsOn(states, events))
    ensures TimingInv(states[k], orderly)
  {
    hide Enabled, Next, LedgerInv;
    if k > 0 {
      hide TimingInv;
      RunKeepsTiming(states, events, k - 1, orderly);
      RunKeepsLedger(states, events, k - 1);
      LedgerParts(states[k - 1]);
      StepKeepsTiming(states[k - 1], events[k - 1], orderly);
    }
  }

  // ---------------------------------------------------------------- over runs

  /** Nothing crashed and every row write of the sweeper committed. */
  predicate Undisturbed(events: seq<Event>) {
    forall i :: 0 <= i < |events| ==> !events[i].Restart? && (events[i].Store? ==> events[i].stored.Committed?)
  }

  lemma PlacingStaysClean(s: System, accepted: bool, fate: WriteFate)
    requires Enabled(s, PlaceOrder(accepted, fate))
    ensures Next(s, PlaceOrder(accepted, fate)).clean == s.clean
  {
    hide Enabled, Next, Upsert, OrderId, NewOrder;
    PlaceFacts(s, accepted, fate);
  }

  lemma TurningStaysClean(s: System, checkedAt: int, world: World, retryFrom: int, reached: bool)
    requires Enabled(s, TakeTurn(checkedAt, world, retryFrom, reached))
    ensures Next(s, TakeTurn(checkedAt, world, retryFrom, reached)).clean == s.clean
  {
    hide Enabled, Next, TurnOf, NewSignature, NewTransmissions, SendFails, RecordFailure, AttemptOf;
    TurnFacts(s, checkedAt, world, retryFrom, reached);
  }

  lemma StoringStaysClean(s: System, fate: WriteFate)
    requires Enabled(s, Store(fate))
    ensures Next(s, Store(fate)).clean == (s.clean && fate.Committed?)
  {
    hide Enabled, Next, Upsert, CauseOf, AttemptOf;
    StoreFacts(s, fate);
  }

  lemma StepStaysClean(s: System, e: Event)
    requires Enabled(s, e) && s.clean && !e.Restart? && (e.Store? ==> e.stored.Committed?)
    ensures Next(s, e).clean
  {
    if e.PlaceOrder? {
      hide Enabled, Next;
      PlacingStaysClean(s, e.accepted, e.placed);
    } else if e.TakeTurn? {
      hide Enabled, Next;
      TurningStaysClean(s, e.checkedAt, e.world, e.retryFrom, e.reached);
    } else if e.Store? {
      hide Enabled, Next;
      StoringStaysClean(s, e.stored);
    } else {
      hide Enabled, AfterTurn, AfterStore, AfterPlacement, Upsert, Released, AttemptOf;
    }
  }

  lemma {:induction false} UndisturbedIsClean(states: seq<System>, events: seq<Event>, k: nat)
    requires IsRun(states, events) && k < |states| && Undisturbed(events)
    ensures states[k].clean
  {
    hide Enabled, Next;
    if k > 0 {
      UndisturbedIsClean(states, events, k - 1);
      StepStaysClean(states[k - 1], events[k - 1]);
    }
  }

  lemma {:induction false} SpacedTotal(f: seq<int>, k: nat)
    requires Spaced(f) && k < |f|
    ensures f[k] - f[0] >= TotalBackoff(k)
  {
    hide SwapRetryBackoffSecs;
    if k > 0 {
      SpacedTotal(f, k - 1);
    }
  }

  /** Without crashes or failed writes an attempt's order is parked exactly on its ninth failed send, whatever
      the clock does. */
  lemma QuarantinedOnNinthFailure(states: seq<System>, events: seq<Event>, k: nat, id: string)
    requires IsRun(states, events) && k < |states| && Undisturbed(events) && id in states[k].rows
    requires !View(states[k], id).state.Failed?
    ensures id in states[k].attemptOf && states[k].attemptOf[id] < |states[k].failures|
    ensures var f := states[k].failures[states[k].attemptOf[id]];
            |f| <= 9 && (View(states[k], id).state.SwapQuarantined? <==> |f| == 9)
  {
    hide Enabled, Next, SwapRetryBackoffSecs;
    RunKeepsTiming(states, events, k, false);
    UndisturbedIsClean(states, events, k);
    assert RowTimely(states[k], id, false);
  }

  /** If moreover the clock is never set back, failed sends k and k + 1 of any attempt are at least min(2^k, 600)
      seconds apart, and the nine that park an order take at least 510 seconds. */
  lemma FailuresAreSpaced(states: seq<System>, events: seq<Event>, k: nat, a: nat)
    requires IsRun(states, events) && k < |states| && Undisturbed(events) && ClockRunsOn(states, events)
    requires a < |states[k].failures|
    ensures var f := states[k].failures[a];
            && (forall n :: 1 <= n < |f| ==> f[n] - f[n - 1] >= Min(Pow2(n), 600))
            && (|f| >= 9 ==> f[8] - f[0] >= 510)
  {
    hide Enabled, Next, SwapRetryBackoffSecs, TotalBackoff, Pow2, Min, RowTimely;
    RunKeepsTiming(states, events, k, true);
    UndisturbedIsClean(states, events, k);
    var f := states[k].failures[a];
    forall n | 1 <= n < |f| ensures f[n] - f[n - 1] >= Min(Pow2(n), 600) {
      BackoffIsPowerOfTwo(n);
    }
    if |f| >= 9 {
      SpacedTotal(f, 8);
      EightRetriesWait510();
    }
  }
}
