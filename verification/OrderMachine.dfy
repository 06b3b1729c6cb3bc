/** The order state machine of crates/strategy/src/order.rs and crates/orchestrator/src/{machine,io}.rs. */
module OrderMachine {
  import opened Wrappers
  import opened Widths

  datatype ExecStep = Cancel | Approval | Swap

  datatype OrderState =
    | Withdrawing(amountIn: nat, actionId: string)
    | SwapReady(step: ExecStep, amountIn: nat, withdrawActionId: Option<string>)
    | Broadcasting(step: ExecStep, amountIn: nat, signedTx: string, txHash: string, withdrawActionId: Option<string>)
    | Submitted(step: ExecStep, amountIn: nat, txHash: string, withdrawActionId: Option<string>, submittedAt: int)
    | Depositing(txHash: string, amount: nat, actionId: string)
    | Filled(txHash: string)
    | Failed(failedTx: Option<string>, reason: string)
    | SwapQuarantined(amountIn: nat, parkedTx: Option<string>, reason: string)

  datatype Order = Order(
    id: string, levelId: string, reservedAmount: nat, state: OrderState,
    swapAttempts: nat, swapRetryAfterTs: Option<int>, createdAt: int)
  {
    predicate IsTerminal() {
      state.Filled? || state.Failed? || state.SwapQuarantined?
    }
  }

  function NewOrder(id: string, levelId: string, amount: nat, createdAt: int): Order {
    Order(id, levelId, amount, SwapReady(Swap, amount, None), 0, None, createdAt)
  }

  datatype Action =
    | Sign
    | Broadcast(signedTx: string, txHash: string)
    | CheckReceipt(txHash: string)
    | Done

  datatype Outcome =
    | Signed(step: ExecStep, signedTx: string, txHash: string)
    | Sent(txHash: string, at: int)
    | Confirmed
    | StillPending
    | Reverted
    | ExecFailed(reason: string)
    | QuarantineResolved
    | BroadcastBlocked(note: string)
    | ReceiptTimedOut

  const RECEIPT_DEADLINE_SECS: int := 1_800
  const SWAP_RETRY_CAP: nat := 8
  const SWAP_RETRY_MAX_BACKOFF_SECS: int := 600
  const SWAP_RETRY_INITIAL_BACKOFF_SECS: int := 2
  const MAX_TRANSITIONS_PER_PASS: nat := 12
  const U32_MAX: nat := TWO32 - 1

  function Pow2(k: nat): nat {
    if k == 0 then 1 else 2 * Pow2(k - 1)
  }

  /** The shift is at most 20, so the checked shift on i64 never overflows. */
  function SwapRetryBackoffSecs(attempts: nat): int {
    var shift := if attempts <= 1 then 0 else if attempts - 1 < 20 then attempts - 1 else 20;
    var delay := SWAP_RETRY_INITIAL_BACKOFF_SECS * Pow2(shift);
    if delay < SWAP_RETRY_MAX_BACKOFF_SECS then delay else SWAP_RETRY_MAX_BACKOFF_SECS
  }

  function NextAction(order: Order): Action {
    match order.state
    case SwapReady(_, _, _) => Sign
    case Broadcasting(_, _, signedTx, txHash, _) => Broadcast(signedTx, txHash)
    case Submitted(_, _, txHash, _, _) => CheckReceipt(txHash)
    case Filled(_) | Failed(_, _) | SwapQuarantined(_, _, _) => Done
    case Withdrawing(_, _) | Depositing(_, _, _) => Done
  }

  /** Ok(None) keeps the state; Err is the invalid-transition error. */
  function Apply(order: Order, outcome: Outcome): Result<Option<OrderState>, ()> {
    match (order.state, outcome)
    case (_, StillPending) => Ok(None)
    case (SwapReady(_, amountIn, withdraw), Signed(step, signedTx, txHash)) =>
      Ok(Some(Broadcasting(step, amountIn, signedTx, txHash, withdraw)))
    case (SwapReady(_, _, _), ExecFailed(reason)) => Ok(Some(Failed(None, reason)))
    case (Broadcasting(step, amountIn, _, _, withdraw), Sent(txHash, at)) =>
      Ok(Some(Submitted(step, amountIn, txHash, withdraw, at)))
    case (Broadcasting(_, amountIn, _, txHash, _), ExecFailed(reason)) =>
      if order.swapAttempts < SWAP_RETRY_CAP then Ok(None)
      else Ok(Some(SwapQuarantined(amountIn, Some(txHash), reason)))
    case (Submitted(Swap, _, txHash, _, _), Confirmed) => Ok(Some(Filled(txHash)))
    case (Submitted(_, amountIn, _, withdraw, _), Confirmed) => Ok(Some(SwapReady(Swap, amountIn, withdraw)))
    case (Submitted(_, _, txHash, _, _), Reverted) => Ok(Some(Failed(Some(txHash), "reverted on-chain")))
    case (Submitted(_, _, txHash, _, _), ReceiptTimedOut) =>
      Ok(Some(Failed(Some(txHash), "no receipt within 30 minutes; the transaction may still land")))
    case (Broadcasting(_, _, _, _, _), BroadcastBlocked(note)) =>
      Ok(Some(Failed(None, "broadcast blocked; set MAINNET_SWAP=1 to allow (" + note + ")")))
    case (SwapQuarantined(_, txHash, _), QuarantineResolved) =>
      Ok(Some(Failed(txHash, "quarantine resolved by operator")))
    case _ => Err(())
  }

  // ---------------------------------------------------------------- io.rs

  datatype ReceiptStatus = Pending | Success | RevertedOnChain

  datatype SignedTx = SignedTx(step: ExecStep, wire: string, hash: string)

  /** What the venue, signer and node would answer during one iteration, and the clock while they do. */
  datatype World = World(
    now: int,
    sign: Result<SignedTx, string>,
    dryRunNote: string,
    send: Result<string, string>,
    receipt: Result<ReceiptStatus, string>)

  function PastDeadline(order: Order, now: int): bool {
    order.state.Submitted? && now > order.state.submittedAt + RECEIPT_DEADLINE_SECS
  }

  function Perform(allowBroadcast: bool, order: Order, action: Action, world: World): Outcome {
    match action
    case Sign =>
      (match world.sign
       case Ok(tx) => Signed(tx.step, tx.wire, tx.hash)
       case Err(reason) => ExecFailed(reason))
    case Broadcast(_, _) =>
      if !allowBroadcast then BroadcastBlocked(world.dryRunNote)
      else (match world.send
            case Ok(txHash) => Sent(txHash, world.now)
            case Err(reason) => ExecFailed(reason))
    case CheckReceipt(_) =>
      (match world.receipt
       case Ok(Success) => Confirmed
       case Ok(RevertedOnChain) => Reverted
       case Ok(Pending) => if PastDeadline(order, world.now) then ReceiptTimedOut else StillPending
       case Err(_) => StillPending)
    case Done => StillPending
  }

  // ---------------------------------------------------------------- one turn of the drive_order loop

  /** `Persist` means the working copy changed and must be written before anything else happens. */
  datatype Turn = Stop | Invalid | Persist(order: Order, more: bool)

  predicate BackingOff(order: Order, now: int) {
    order.swapRetryAfterTs.Some? && now < order.swapRetryAfterTs.value
  }

  function Advance(order: Order, outcome: Outcome, now: int): Turn {
    match Apply(order, outcome)
    case Ok(Some(next)) => Persist(order.(state := next, swapRetryAfterTs := None), true)
    case Ok(None) =>
      if outcome.StillPending? then Stop
      else
        var attempts := if order.swapAttempts < U32_MAX then order.swapAttempts + 1 else order.swapAttempts;
        Persist(order.(swapAttempts := attempts, swapRetryAfterTs := Some(now + SwapRetryBackoffSecs(attempts))), false)
    case Err(_) => Invalid
  }

  function TurnOf(allowBroadcast: bool, order: Order, checkedAt: int, world: World, retryFrom: int): Turn {
    if BackingOff(order, checkedAt) || NextAction(order).Done? then Stop
    else Advance(order, Perform(allowBroadcast, order, NextAction(order), world), retryFrom)
  }

  /** The turn hands the order's signed bytes to the node. */
  predicate Sends(allowBroadcast: bool, order: Order, checkedAt: int) {
    !BackingOff(order, checkedAt) && NextAction(order).Broadcast? && allowBroadcast
  }

  // ---------------------------------------------------------------- what the machine guarantees

  /** Whatever the outside world answers, the outcome fits the state: the invalid arm is never taken. */
  lemma OutcomeFits(allowBroadcast: bool, order: Order, checkedAt: int, world: World, retryFrom: int)
    ensures !TurnOf(allowBroadcast, order, checkedAt, world, retryFrom).Invalid?
  {
  }

  /** Filled and Failed are final; quarantine is left only by an operator, and only for Failed. */
  lemma TerminalIsFinal(order: Order, outcome: Outcome)
    requires order.IsTerminal() && Apply(order, outcome).Ok? && Apply(order, outcome).value.Some?
    ensures order.state.SwapQuarantined? && outcome.QuarantineResolved?
    ensures Apply(order, outcome).value.value.Failed?
            && Apply(order, outcome).value.value.failedTx == order.state.parkedTx
  {
  }

  // ---------------------------------------------------------------- what each turn decides

  /** The order is not waiting for a retry. */
  predicate Awake(order: Order, checkedAt: int) {
    order.swapRetryAfterTs.Some? ==> checkedAt >= order.swapRetryAfterTs.value
  }

  /** Before its retry time, and once it is filled, failed or parked, nothing happens to an order. */
  lemma NothingToDo(allowBroadcast: bool, order: Order, checkedAt: int, world: World, retryFrom: int)
    requires !Awake(order, checkedAt)
             || order.state.Filled? || order.state.Failed? || order.state.SwapQuarantined?
    ensures TurnOf(allowBroadcast, order, checkedAt, world, retryFrom).Stop? && !Sends(allowBroadcast, order, checkedAt)
  {
  }

  /** A ready order takes up what the signer returns, with its own amount, or fails with the signer's reason. */
  lemma SigningDecides(allowBroadcast: bool, order: Order, checkedAt: int, world: World, retryFrom: int)
    requires order.state.SwapReady? && Awake(order, checkedAt)
    ensures NextAction(order) == Sign
    ensures TurnOf(allowBroadcast, order, checkedAt, world, retryFrom) ==
            match world.sign
            case Ok(tx) =>
              Persist(order.(state := Broadcasting(tx.step, order.state.amountIn, tx.wire, tx.hash,
                                                   order.state.withdrawActionId),
                             swapRetryAfterTs := None), true)
            case Err(reason) => Persist(order.(state := Failed(None, reason), swapRetryAfterTs := None), true)
  {
  }

  /** A signed order is submitted under the hash the node returns; a failed send is retried with the same bytes up to
      eight times and then parked with its hash; without permission to broadcast it fails. */
  lemma SendingDecides(allowBroadcast: bool, order: Order, checkedAt: int, world: World, retryFrom: int)
    requires order.state.Broadcasting? && Awake(order, checkedAt)
    ensures NextAction(order) == Broadcast(order.state.signedTx, order.state.txHash)
    ensures Sends(allowBroadcast, order, checkedAt) <==> allowBroadcast
    ensures var turn := TurnOf(allowBroadcast, order, checkedAt, world, retryFrom);
            && (!allowBroadcast ==>
                  turn == Persist(order.(state := Failed(None, "broadcast blocked; set MAINNET_SWAP=1 to allow ("
                                                               + world.dryRunNote + ")"),
                                         swapRetryAfterTs := None), true))
            && (allowBroadcast && world.send.Ok? ==>
                  turn == Persist(order.(state := Submitted(order.state.step, order.state.amountIn, world.send.value,
                                                            order.state.withdrawActionId, world.now),
                                         swapRetryAfterTs := None), true))
            && (allowBroadcast && world.send.Err? && order.swapAttempts < 8 ==>
                  turn == Persist(order.(swapAttempts := order.swapAttempts + 1,
                                         swapRetryAfterTs := Some(retryFrom + Min(Pow2(order.swapAttempts + 1), 600))),
                                  false))
            && (allowBroadcast && world.send.Err? && order.swapAttempts >= 8 ==>
                  turn == Persist(order.(state := SwapQuarantined(order.state.amountIn, Some(order.state.txHash),
                                                                  world.send.error),
                                         swapRetryAfterTs := None), true))
  {
    BackoffIsPowerOfTwo(order.swapAttempts + 1);
    hide SwapRetryBackoffSecs, Pow2, Min;
  }

  /** A confirmed swap fills its order and a confirmed allowance makes it ready for the swap; a reverted transaction
      fails it; a pending one fails it exactly when the clock is past half an hour after submission. All keep the
      hash. */
  lemma ReceiptDecides(allowBroadcast: bool, order: Order, checkedAt: int, world: World, retryFrom: int)
    requires order.state.Submitted? && Awake(order, checkedAt)
    ensures NextAction(order) == CheckReceipt(order.state.txHash)
    ensures TurnOf(allowBroadcast, order, checkedAt, world, retryFrom) ==
            match world.receipt
            case Ok(Success) =>
              Persist(order.(state := if order.state.step.Swap? then Filled(order.state.txHash)
                                      else SwapReady(Swap, order.state.amountIn, order.state.withdrawActionId),
                             swapRetryAfterTs := None), true)
            case Ok(RevertedOnChain) =>
              Persist(order.(state := Failed(Some(order.state.txHash), "reverted on-chain"), swapRetryAfterTs := None),
                      true)
            case Ok(Pending) =>
              if world.now > order.state.submittedAt + 1800 then
                Persist(order.(state := Failed(Some(order.state.txHash),
                                               "no receipt within 30 minutes; the transaction may still land"),
                               swapRetryAfterTs := None), true)
              else Stop
            case Err(_) => Stop
  {
  }

  /** The swap has been signed in this state, or later. */
  predicate SwapSigned(state: OrderState) {
    (state.Broadcasting? && state.step.Swap?) || (state.Submitted? && state.step.Swap?)
  }

  predicate Signable(state: OrderState) {
    state.SwapReady? || (state.Broadcasting? && !state.step.Swap?) || (state.Submitted? && !state.step.Swap?)
  }

  /** Once the swap is signed no turn returns to a state that could sign again, and until it settles the
      order keeps the hash the node was given. */
  lemma SignedSwapIsNeverReplaced(allowBroadcast: bool, order: Order, checkedAt: int, world: World, retryFrom: int)
    requires SwapSigned(order.state)
    requires order.state.Broadcasting? && world.send.Ok? ==> world.send.value == order.state.txHash
    ensures var turn := TurnOf(allowBroadcast, order, checkedAt, world, retryFrom);
            turn.Persist? ==>
              && !Signable(turn.order.state)
              && (SwapSigned(turn.order.state) ==> turn.order.state.txHash == order.state.txHash)
              && (turn.order.state.Broadcasting? ==> turn.order.state == order.state)
              && (turn.order.state.Filled? ==> turn.order.state.txHash == order.state.txHash)
  {
  }

  /** The amount committed by the state equals the reserved amount. */
  predicate SpendsReserved(order: Order) {
    match order.state
    case SwapReady(_, amountIn, _) => amountIn == order.reservedAmount
    case Broadcasting(_, amountIn, _, _, _) => amountIn == order.reservedAmount
    case Submitted(_, amountIn, _, _, _) => amountIn == order.reservedAmount
    case SwapQuarantined(amountIn, _, _) => amountIn == order.reservedAmount
    case Filled(_) | Failed(_, _) => true
    case Withdrawing(_, _) | Depositing(_, _, _) => false
  }

  /** A turn keeps identity, level, reservation and creation time, spends what was reserved, and never
      reaches a lending state or a ninth retry. */
  lemma TurnKeepsReservation(allowBroadcast: bool, order: Order, checkedAt: int, world: World, retryFrom: int)
    requires SpendsReserved(order) && order.swapAttempts <= SWAP_RETRY_CAP
    ensures var turn := TurnOf(allowBroadcast, order, checkedAt, world, retryFrom);
            turn.Persist? ==>
              && SpendsReserved(turn.order) && turn.order.swapAttempts <= SWAP_RETRY_CAP
              && turn.order.id == order.id && turn.order.levelId == order.levelId
              && turn.order.reservedAmount == order.reservedAmount && turn.order.createdAt == order.createdAt
  {
  }

  function Min(x: int, y: int): int {
    if x < y then x else y
  }

  lemma {:induction false} Pow2Grows(j: nat, k: nat)
    requires j <= k
    ensures Pow2(j) <= Pow2(k)
  {
    if j < k {
      Pow2Grows(j, k - 1);
    }
  }

  lemma Pow2Table()
    ensures Pow2(9) == 512 && Pow2(10) == 1024
  {
    assert Pow2(3) == 8;
    assert Pow2(6) == 64;
  }

  /** The k-th retry waits min(2^k, 600) seconds. */
  lemma BackoffIsPowerOfTwo(k: nat)
    requires k >= 1
    ensures SwapRetryBackoffSecs(k) == Min(Pow2(k), 600)
  {
    Pow2Table();
    if k >= 10 {
      Pow2Grows(9, if k <= 20 then k - 1 else 20);
      Pow2Grows(10, k);
    }
  }

  /** Seconds of backoff accumulated over retries 1 to k. */
  function TotalBackoff(k: nat): int {
    if k == 0 then 0 else TotalBackoff(k - 1) + SwapRetryBackoffSecs(k)
  }

  lemma EightRetriesWait510()
    ensures TotalBackoff(SWAP_RETRY_CAP) == 510
  {
    assert Pow2(3) == 8;
    assert Pow2(7) == 128;
    assert TotalBackoff(3) == 14;
    assert TotalBackoff(5) == 62;
    assert TotalBackoff(7) == 254;
  }
}
