/** The daemon as a step system: one trigger, one sweeper, an operator, restarts and the chain interleave over
    the durable order rows. A restart loses every working copy and every snapshot. History components record
    attempts, transmissions and how attempts ended; no step reads them. Clock readings are arbitrary: the system
    clock may be set back at any time, and `clock` only records the sweeper's last reading. */
module Lifecycle {
  import opened Wrappers
  import opened OrderMachine
  import opened DriveOrder
  import opened OrderIds

  datatype LevelEntry = LevelEntry(id: string, amount: nat)

  datatype Trigger = Idle | Placing(pending: seq<LevelEntry>, publishedAt: nat, now: int)

  /** The sweeper's volatile state; `Writing` is the moment between changing the copy and storing it. */
  datatype Sweeper =
    | Resting
    | Listed(queue: seq<Order>)
    | Driving(copy: Order, turns: nat, queue: seq<Order>)
    | Writing(base: Order, next: Order, more: bool, turns: nat, queue: seq<Order>)

  datatype EndCause = SignFailed | RevertedEnd | TimedOut | Blocked | OperatorRelease

  datatype ChainFate = Landed | Rejected

  datatype Transmission = Transmission(attempt: nat, levelId: string, step: ExecStep, wire: string, hash: string)

  datatype System = System(
    rows: map<string, Order>,
    trigger: Trigger,
    sweeper: Sweeper,
    allowBroadcast: bool,
    clock: int,
    signed: map<string, string>,
    fates: map<string, ChainFate>,
    attemptOf: map<string, nat>,
    attemptLevel: seq<string>,
    ended: map<nat, EndCause>,
    sent: set<Transmission>,
    turnedOff: bool,
    failures: seq<seq<int>>,
    clean: bool)

  datatype Event =
    | TakeSnapshot(entries: seq<LevelEntry>, publishedAt: nat, now: int)
    | PlaceOrder(accepted: bool, placed: WriteFate)
    | FinishTick
    | ListOpen(open: seq<Order>)
    | StartNext
    | TakeTurn(checkedAt: int, world: World, retryFrom: int, reached: bool)
    | EndPass
    | Store(stored: WriteFate)
    | FinishSweep
    | Release(orderId: string)
    | Restart(allow: bool)
    | Settle(wire: string, fate: ChainFate)

  const LEVEL_COOLDOWN_SECS: int := 60

  predicate IsSpent(levelId: string, rows: map<string, Order>) {
    exists id :: id in rows && rows[id].levelId == levelId && !rows[id].state.Failed?
  }

  predicate CoolingDown(levelId: string, rows: map<string, Order>, now: int) {
    exists id :: id in rows && rows[id].levelId == levelId && rows[id].state.Failed?
                 && now < rows[id].createdAt + LEVEL_COOLDOWN_SECS
  }

  predicate DistinctLevels(entries: seq<LevelEntry>) {
    forall i, j :: 0 <= i < j < |entries| ==> entries[i].id != entries[j].id
  }

  predicate DistinctOrders(queue: seq<Order>) {
    forall i, j :: 0 <= i < j < |queue| ==> queue[i].id != queue[j].id
  }

  /** Every queued copy is the stored row, still open, and no row is queued twice. */
  predicate QueueFresh(rows: map<string, Order>, queue: seq<Order>) {
    DistinctOrders(queue)
    && forall i :: 0 <= i < |queue| ==> queue[i].id in rows && rows[queue[i].id] == queue[i] && !queue[i].IsTerminal()
  }

  predicate ListsOpenRows(rows: map<string, Order>, queue: seq<Order>) {
    QueueFresh(rows, queue) && forall id :: id in rows && !rows[id].IsTerminal() ==> rows[id] in queue
  }

  /** What an honest venue, signer and node may answer: hashes identify signed bytes, a node that accepts
      returns the transaction's own hash, and receipts agree with the chain. */
  predicate HonestAnswer(s: System, copy: Order, world: World, reached: bool) {
    match NextAction(copy)
    case Sign =>
      world.sign.Ok? && world.sign.value.hash in s.signed ==>
        s.signed[world.sign.value.hash] == world.sign.value.wire
    case Broadcast(_, txHash) => world.send.Ok? ==> reached && world.send.value == txHash
    case CheckReceipt(txHash) =>
      && (world.receipt == Ok(Success)
          ==> txHash in s.signed && s.signed[txHash] in s.fates && s.fates[s.signed[txHash]].Landed?)
      && (world.receipt == Ok(RevertedOnChain)
          ==> txHash in s.signed && s.signed[txHash] in s.fates && s.fates[s.signed[txHash]].Rejected?)
    case Done => true
  }

  predicate Enabled(s: System, e: Event) {
    match e
    case TakeSnapshot(entries, _, now) =>
      s.trigger.Idle? && DistinctLevels(entries)
      && forall i :: 0 <= i < |entries| ==> !IsSpent(entries[i].id, s.rows) && !CoolingDown(entries[i].id, s.rows, now)
    case PlaceOrder(_, _) => s.trigger.Placing? && s.trigger.pending != []
    case FinishTick => s.trigger.Placing? && s.trigger.pending == []
    case ListOpen(open) => s.sweeper.Resting? && ListsOpenRows(s.rows, open)
    case StartNext => s.sweeper.Listed? && s.sweeper.queue != []
    case TakeTurn(_, world, _, reached) =>
      s.sweeper.Driving? && s.sweeper.turns > 0 && HonestAnswer(s, s.sweeper.copy, world, reached)
    case EndPass => s.sweeper.Driving? && s.sweeper.turns == 0
    case Store(_) => s.sweeper.Writing?
    case FinishSweep => s.sweeper.Listed? && s.sweeper.queue == []
    case Release(orderId) => orderId in s.rows && s.rows[orderId].state.SwapQuarantined?
    case Restart(_) => true
    case Settle(wire, _) => wire !in s.fates && exists t :: t in s.sent && t.wire == wire
  }

  /** Why an attempt whose row goes from `base` to Failed ended. */
  function CauseOf(base: Order, next: Order): EndCause {
    if base.state.SwapReady? then SignFailed
    else if base.state.Broadcasting? then Blocked
    else if next.state.Failed? && next.state.reason == "reverted on-chain" then RevertedEnd
    else TimedOut
  }

  function Place(s: System, entry: LevelEntry): System
    requires s.trigger.Placing?
  {
    var id := OrderId(entry.id, s.trigger.publishedAt);
    s.(rows := Upsert(s.rows, NewOrder(id, entry.id, entry.amount, s.trigger.now)),
       attemptOf := s.attemptOf[id := |s.attemptLevel|],
       attemptLevel := s.attemptLevel + [entry.id],
       failures := s.failures + [[]])
  }

  function AttemptOf(s: System, id: string): nat {
    if id in s.attemptOf then s.attemptOf[id] else 0
  }

  function NewTransmissions(s: System, copy: Order, checkedAt: int, reached: bool): set<Transmission> {
    if Sends(s.allowBroadcast, copy, checkedAt) && reached
    then {Transmission(AttemptOf(s, copy.id), copy.levelId, copy.state.step, copy.state.signedTx, copy.state.txHash)}
    else {}
  }

  function NewSignature(copy: Order, checkedAt: int, world: World): map<string, string> {
    if !BackingOff(copy, checkedAt) && NextAction(copy).Sign? && world.sign.Ok?
    then map[world.sign.value.hash := world.sign.value.wire]
    else map[]
  }

  predicate SendFails(s: System, copy: Order, checkedAt: int, world: World) {
    Sends(s.allowBroadcast, copy, checkedAt) && world.send.Err?
  }

  function RecordFailure(failures: seq<seq<int>>, attempt: nat, at: int): seq<seq<int>> {
    if attempt < |failures| then failures[attempt := failures[attempt] + [at]] else failures
  }

  function StoreRow(s: System, base: Order, next: Order): System {
    s.(rows := Upsert(s.rows, next),
       ended := if next.state.Failed? then s.ended[AttemptOf(s, next.id) := CauseOf(base, next)] else s.ended)
  }

  function AfterPlacement(s: System, accepted: bool, fate: WriteFate): System
    requires s.trigger.Placing? && s.trigger.pending != []
  {
    var rest := s.trigger.(pending := s.trigger.pending[1..]);
    if !accepted || fate.Lost? then s.(trigger := rest)
    else Place(s, s.trigger.pending[0]).(trigger := rest)
  }

  function AfterRelease(s: System, orderId: string): System
    requires orderId in s.rows && s.rows[orderId].state.SwapQuarantined?
  {
    s.(rows := Upsert(s.rows, Released(s.rows[orderId])), ended := s.ended[AttemptOf(s, orderId) := OperatorRelease])
  }

  function AfterTurn(s: System, checkedAt: int, world: World, retryFrom: int, reached: bool): System
    requires s.sweeper.Driving? && s.sweeper.turns > 0
  {
    var copy, queue := s.sweeper.copy, s.sweeper.queue;
    var turn := TurnOf(s.allowBroadcast, copy, checkedAt, world, retryFrom);
    s.(sweeper := if turn.Persist? then Writing(copy, turn.order, turn.more, s.sweeper.turns - 1, queue)
                  else Listed(queue),
       clock := retryFrom,
       signed := s.signed + NewSignature(copy, checkedAt, world),
       sent := s.sent + NewTransmissions(s, copy, checkedAt, reached),
       failures := if SendFails(s, copy, checkedAt, world)
                   then RecordFailure(s.failures, AttemptOf(s, copy.id), world.now) else s.failures)
  }

  function AfterStore(s: System, fate: WriteFate): System
    requires s.sweeper.Writing?
  {
    var w := s.sweeper;
    var stored := if fate.Lost? then s else StoreRow(s, w.base, w.next);
    stored.(sweeper := if fate.Committed? && w.more then Driving(w.next, w.turns, w.queue) else Listed(w.queue),
            clean := s.clean && fate.Committed?)
  }

  function Next(s: System, e: Event): System
    requires Enabled(s, e)
  {
    match e
    case TakeSnapshot(entries, publishedAt, now) => s.(trigger := Placing(entries, publishedAt, now))
    case PlaceOrder(accepted, fate) => AfterPlacement(s, accepted, fate)
    case FinishTick => s.(trigger := Idle)
    case ListOpen(open) => s.(sweeper := Listed(open))
    case StartNext => s.(sweeper := Driving(s.sweeper.queue[0], MAX_TRANSITIONS_PER_PASS, s.sweeper.queue[1..]))
    case TakeTurn(checkedAt, world, retryFrom, reached) => AfterTurn(s, checkedAt, world, retryFrom, reached)
    case EndPass => s.(sweeper := Listed(s.sweeper.queue))
    case Store(fate) => AfterStore(s, fate)
    case FinishSweep => s.(sweeper := Resting)
    case Release(orderId) => AfterRelease(s, orderId)
    case Restart(allow) =>
      s.(trigger := Idle, sweeper := Resting, allowBroadcast := allow,
         turnedOff := s.turnedOff || (s.allowBroadcast && !allow), clean := false)
    case Settle(wire, fate) => s.(fates := s.fates[wire := fate])
  }

  // One event's part of Enabled and Next at a time.

  lemma PlaceFacts(s: System, accepted: bool, fate: WriteFate)
    requires Enabled(s, PlaceOrder(accepted, fate))
    ensures s.trigger.Placing? && s.trigger.pending != []
            && Next(s, PlaceOrder(accepted, fate)) == AfterPlacement(s, accepted, fate)
  {
    hide AfterPlacement;
  }

  lemma TurnFacts(s: System, checkedAt: int, world: World, retryFrom: int, reached: bool)
    requires Enabled(s, TakeTurn(checkedAt, world, retryFrom, reached))
    ensures s.sweeper.Driving? && s.sweeper.turns > 0
            && HonestAnswer(s, s.sweeper.copy, world, reached)
            && Next(s, TakeTurn(checkedAt, world, retryFrom, reached))
               == AfterTurn(s, checkedAt, world, retryFrom, reached)
  {
    hide AfterTurn, HonestAnswer;
  }

  lemma StoreFacts(s: System, fate: WriteFate)
    requires Enabled(s, Store(fate))
    ensures s.sweeper.Writing? && Next(s, Store(fate)) == AfterStore(s, fate)
  {
    hide AfterStore;
  }

  lemma ReleaseFacts(s: System, orderId: string)
    requires Enabled(s, Release(orderId))
    ensures orderId in s.rows && s.rows[orderId].state.SwapQuarantined?
            && Next(s, Release(orderId)) == AfterRelease(s, orderId)
  {
    hide AfterRelease;
  }

  function Init(allowBroadcast: bool, clock: int): System {
    System(map[], Idle, Resting, allowBroadcast, clock, map[], map[], map[], [], map[], {}, false, [], true)
  }

  /** A run: each state follows from the one before by an enabled event. */
  predicate IsRun(states: seq<System>, events: seq<Event>) {
    && |states| == |events| + 1
    && states[0] == Init(states[0].allowBroadcast, states[0].clock)
    && forall i :: 0 <= i < |events| ==> Enabled(states[i], events[i]) && states[i + 1] == Next(states[i], events[i])
  }
}
