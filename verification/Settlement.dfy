/** What a filled order says about the chain: its own swap was sent and has landed. */
module Settlement {
  import opened OrderMachine
  import opened DriveOrder
  import opened OrderIds
  import opened Lifecycle
  import opened RowInvariant
  import opened LedgerInvariant
  import opened LifecycleTheorems

  predicate SentAs(s: System, a: nat, step: ExecStep, hash: string) {
    exists t :: t in s.sent && t.attempt == a && t.step == step && t.hash == hash
  }

  predicate SwapLanded(s: System, a: nat, hash: string) {
    exists t :: t in s.sent && t.attempt == a && t.step.Swap? && t.hash == hash && HasLanded(s, t)
  }

  /** The history bears out what the state claims: a submitted transaction was sent, a filled order's swap landed. */
  predicate Grounded(s: System, state: OrderState, a: nat) {
    (state.Submitted? ==> SentAs(s, a, state.step, state.txHash)) && (state.Filled? ==> SwapLanded(s, a, state.txHash))
  }

  /** Every row is borne out, and so is the one about to be stored. */
  predicate RowsGrounded(s: System) {
    && (forall id :: id in s.rows && id in s.attemptOf ==> Grounded(s, s.rows[id].state, s.attemptOf[id]))
    && (s.sweeper.Writing? ==> Grounded(s, s.sweeper.next.state, AttemptOf(s, s.sweeper.base.id)))
  }

  lemma GroundedGrows(s: System, t: System, state: OrderState, a: nat)
    requires Grows(s, t) && Grounded(s, state, a)
    ensures Grounded(t, state, a)
  {
    if state.Filled? {
      var x :| x in s.sent && x.attempt == a && x.step.Swap? && x.hash == state.txHash && HasLanded(s, x);
      assert HasLanded(t, x);
    }
  }

  // ---------------------------------------------------------------- a turn

  lemma SendGrounds(s: System, checkedAt: int, world: World, retryFrom: int, reached: bool)
    requires Enabled(s, TakeTurn(checkedAt, world, retryFrom, reached))
    requires s.sweeper.copy.state.Broadcasting? && Awake(s.sweeper.copy, checkedAt)
    ensures var t := AfterTurn(s, checkedAt, world, retryFrom, reached);
            t.sweeper.Writing? && t.sweeper.next.state.Submitted? ==>
              SentAs(t, AttemptOf(s, s.sweeper.copy.id), t.sweeper.next.state.step, t.sweeper.next.state.txHash)
  {
    hide TurnOf, Enabled, Next, NewSignature, SendFails, RecordFailure, SwapRetryBackoffSecs, Pow2, Min;
    TurnFacts(s, checkedAt, world, retryFrom, reached);
    var copy := s.sweeper.copy;
    SendingDecides(s.allowBroadcast, copy, checkedAt, world, retryFrom);
    var t := AfterTurn(s, checkedAt, world, retryFrom, reached);
    if t.sweeper.Writing? && t.sweeper.next.state.Submitted? {
      var sent := Lifecycle.Transmission(AttemptOf(s, copy.id), copy.levelId, copy.state.step, copy.state.signedTx,
                                         copy.state.txHash);
      assert sent in t.sent;
    }
  }

  /** A receipt that says the swap succeeded is a receipt of the transaction that was sent. */
  lemma ReceiptGrounds(s: System, checkedAt: int, world: World, retryFrom: int, reached: bool)
    requires SentOk(s) && Enabled(s, TakeTurn(checkedAt, world, retryFrom, reached))
    requires s.sweeper.copy.state.Submitted? && Awake(s.sweeper.copy, checkedAt)
    requires Grounded(s, s.sweeper.copy.state, AttemptOf(s, s.sweeper.copy.id))
    ensures var t := AfterTurn(s, checkedAt, world, retryFrom, reached);
            t.sweeper.Writing? ==> !t.sweeper.next.state.Submitted?
    ensures var t := AfterTurn(s, checkedAt, world, retryFrom, reached);
            t.sweeper.Writing? && t.sweeper.next.state.Filled? ==>
              SwapLanded(s, AttemptOf(s, s.sweeper.copy.id), t.sweeper.next.state.txHash)
  {
    hide TurnOf, Enabled, Next, NewSignature, NewTransmissions, SendFails, RecordFailure;
    TurnFacts(s, checkedAt, world, retryFrom, reached);
    var copy := s.sweeper.copy;
    ReceiptDecides(s.allowBroadcast, copy, checkedAt, world, retryFrom);
    var t := AfterTurn(s, checkedAt, world, retryFrom, reached);
    if t.sweeper.Writing? && t.sweeper.next.state.Filled? {
      var x :| x in s.sent && x.attempt == AttemptOf(s, copy.id) && x.step == copy.state.step
          && x.hash == copy.state.txHash;
      assert TransmissionOk(s, x);
      assert HasLanded(s, x);
    }
  }

  lemma SignGrounds(s: System, checkedAt: int, world: World, retryFrom: int, reached: bool)
    requires s.sweeper.Driving? && s.sweeper.turns > 0
    requires s.sweeper.copy.state.SwapReady? || !Awake(s.sweeper.copy, checkedAt) || s.sweeper.copy.IsTerminal()
    ensures var t := AfterTurn(s, checkedAt, world, retryFrom, reached);
            t.sweeper.Writing? ==> !t.sweeper.next.state.Submitted? && !t.sweeper.next.state.Filled?
  {
    hide TurnOf, NewSignature, NewTransmissions, SendFails, RecordFailure;
    var copy := s.sweeper.copy;
    if copy.state.SwapReady? && Awake(copy, checkedAt) {
      SigningDecides(s.allowBroadcast, copy, checkedAt, world, retryFrom);
    } else {
      NothingToDo(s.allowBroadcast, copy, checkedAt, world, retryFrom);
    }
  }

  lemma TurnKeepsGrounded(s: System, checkedAt: int, world: World, retryFrom: int, reached: bool)
    requires LedgerInv(s) && RowsGrounded(s) && Enabled(s, TakeTurn(checkedAt, world, retryFrom, reached))
    ensures RowsGrounded(Next(s, TakeTurn(checkedAt, world, retryFrom, reached)))
  {
    var e := TakeTurn(checkedAt, world, retryFrom, reached);
    hide Enabled, Next, TurnOf, Grounded, LedgerInv, NewSignature, NewTransmissions, SendFails, RecordFailure;
    TurnFacts(s, checkedAt, world, retryFrom, reached);
    TurnGrows(s, checkedAt, world, retryFrom, reached);
    var t := Next(s, e);
    forall id | id in t.rows && id in t.attemptOf ensures Grounded(t, t.rows[id].state, t.attemptOf[id]) {
      GroundedGrows(s, t, s.rows[id].state, s.attemptOf[id]);
    }
    if t.sweeper.Writing? {
      ProposalGrounded(s, checkedAt, world, retryFrom, reached);
    }
  }

  /** The copy a turn works on is a stored, open row, unless the turn does nothing. */
  lemma CopyIsGrounded(s: System)
    requires LedgerInv(s) && RowsGrounded(s) && s.sweeper.Driving? && !s.sweeper.copy.IsTerminal()
    ensures SentOk(s) && Grounded(s, s.sweeper.copy.state, AttemptOf(s, s.sweeper.copy.id))
    ensures s.sweeper.copy.state.SwapReady? || s.sweeper.copy.state.Broadcasting? || s.sweeper.copy.state.Submitted?
  {
    hide EndedOk, SentOk, SameBytes, PhasesOk, CausesOk, AllowOk, PendingOk, Grounded, OneLive, TriggerOk, QueueFresh;
    var copy := s.sweeper.copy;
    RowsHaveAttempts(s, copy);
    assert RowOk(copy.id, copy);
  }

  lemma ProposalGrounded(s: System, checkedAt: int, world: World, retryFrom: int, reached: bool)
    requires LedgerInv(s) && RowsGrounded(s) && Enabled(s, TakeTurn(checkedAt, world, retryFrom, reached))
    ensures s.sweeper.Driving? && s.sweeper.turns > 0
    ensures var t := AfterTurn(s, checkedAt, world, retryFrom, reached);
            t.sweeper.Writing? ==> Grounded(t, t.sweeper.next.state, AttemptOf(t, t.sweeper.base.id))
  {
    hide Enabled, Next, TurnOf, LedgerInv, RowsGrounded, Awake, SentAs, SwapLanded, Grows, AttemptOf;
    hide NewSignature, NewTransmissions, SendFails, RecordFailure, HonestAnswer;
    TurnFacts(s, checkedAt, world, retryFrom, reached);
    var copy, t := s.sweeper.copy, AfterTurn(s, checkedAt, world, retryFrom, reached);
    TurnKeepsAttempt(s, checkedAt, world, retryFrom, reached);
    if copy.IsTerminal() || copy.state.SwapReady? || !Awake(copy, checkedAt) {
      SignGrounds(s, checkedAt, world, retryFrom, reached);
    } else {
      CopyIsGrounded(s);
      if copy.state.Broadcasting? {
        SendGrounds(s, checkedAt, world, retryFrom, reached);
        SendFillsNothing(s.allowBroadcast, copy, checkedAt, world, retryFrom);
      } else {
        ReceiptGrounds(s, checkedAt, world, retryFrom, reached);
        TurnGrows(s, checkedAt, world, retryFrom, reached);
        if t.sweeper.Writing? && t.sweeper.next.state.Filled? {
          LandedGrows(s, t, AttemptOf(s, copy.id), t.sweeper.next.state.txHash);
        }
      }
    }
  }

  lemma TurnKeepsAttempt(s: System, checkedAt: int, world: World, retryFrom: int, reached: bool)
    requires s.sweeper.Driving? && s.sweeper.turns > 0
    ensures var t := AfterTurn(s, checkedAt, world, retryFrom, reached);
            && AttemptOf(t, s.sweeper.copy.id) == AttemptOf(s, s.sweeper.copy.id)
            && (t.sweeper.Writing? ==> t.sweeper.base == s.sweeper.copy)
  {
    hide TurnOf, NewSignature, NewTransmissions, SendFails, RecordFailure;
  }

  lemma SendFillsNothing(allowBroadcast: bool, copy: Order, checkedAt: int, world: World, retryFrom: int)
    requires copy.state.Broadcasting? && Awake(copy, checkedAt)
    ensures var turn := TurnOf(allowBroadcast, copy, checkedAt, world, retryFrom);
            turn.Persist? ==> !turn.order.state.Filled?
  {
    hide TurnOf;
    SendingDecides(allowBroadcast, copy, checkedAt, world, retryFrom);
  }

  lemma LandedGrows(s: System, t: System, a: nat, hash: string)
    requires Grows(s, t) && SwapLanded(s, a, hash)
    ensures SwapLanded(t, a, hash)
  {
    var x :| x in s.sent && x.attempt == a && x.step.Swap? && x.hash == hash && HasLanded(s, x);
    assert HasLanded(t, x);
  }

  // ---------------------------------------------------------------- the other steps

  lemma StoreKeepsGrounded(s: System, fate: WriteFate)
    requires LedgerInv(s) && RowsGrounded(s) && Enabled(s, Store(fate))
    ensures RowsGrounded(Next(s, Store(fate)))
  {
    hide Enabled, Next, Grounded, EndedOk, SentOk, SameBytes, PhasesOk, CausesOk, AllowOk, PendingOk, CauseOf;
    hide RowsOk, OneLive, TriggerOk, QueueFresh, Queued, SpendsReserved;
    StoreFacts(s, fate);
    StoreGrows(s, fate);
    var w, t := s.sweeper, Next(s, Store(fate));
    RowsHaveAttempts(s, w.base);
    forall id | id in t.rows && id in t.attemptOf ensures Grounded(t, t.rows[id].state, t.attemptOf[id]) {
      if id == w.next.id && !fate.Lost? {
        GroundedGrows(s, t, w.next.state, s.attemptOf[id]);
      } else {
        GroundedGrows(s, t, s.rows[id].state, s.attemptOf[id]);
      }
    }
  }

  lemma ReleaseKeepsGrounded(s: System, orderId: string)
    requires LedgerInv(s) && RowsGrounded(s) && Enabled(s, Release(orderId))
    ensures RowsGrounded(Next(s, Release(orderId)))
  {
    hide Enabled, Next, Grounded, RowInv, AttemptsOk, EndedOk, SentOk, SameBytes, PhasesOk, CausesOk, AllowOk,
        PendingOk;
    ReleaseFacts(s, orderId);
    StepGrows(s, Release(orderId));
    ReleaseParts(s, orderId);
    var t := Next(s, Release(orderId));
    forall id | id in t.rows && id in t.attemptOf ensures Grounded(t, t.rows[id].state, t.attemptOf[id]) {
      if id == orderId {
        FailedIsGrounded(t, t.rows[id].state, t.attemptOf[id]);
      } else {
        GroundedGrows(s, t, s.rows[id].state, s.attemptOf[id]);
      }
    }
    if t.sweeper.Writing? {
      GroundedGrows(s, t, s.sweeper.next.state, AttemptOf(s, s.sweeper.base.id));
    }
  }

  lemma FailedIsGrounded(s: System, state: OrderState, a: nat)
    requires state.Failed? || state.SwapReady?
    ensures Grounded(s, state, a)
  {
  }

  lemma PlaceKeepsGrounded(s: System, accepted: bool, fate: WriteFate)
    requires LedgerInv(s) && RowsGrounded(s) && Enabled(s, PlaceOrder(accepted, fate))
    ensures RowsGrounded(Next(s, PlaceOrder(accepted, fate)))
  {
    hide Enabled, Next, Grounded, RowsOk, OneLive, EndedOk, SentOk, SameBytes, PhasesOk, CausesOk, AllowOk, PendingOk;
    hide OrderId, QueueFresh, Queued, Continues, AllFailed, Grows, Upsert;
    PlaceFacts(s, accepted, fate);
    PlaceGrows(s, accepted, fate);
    var t, entry := Next(s, PlaceOrder(accepted, fate)), s.trigger.pending[0];
    var placed := OrderId(entry.id, s.trigger.publishedAt);
    PlaceKeepsRows(s.rows, entry, s.trigger.publishedAt, s.trigger.now);
    PlacedIsReady(s.rows, placed, entry, s.trigger.now);
    forall id | id in t.rows && id in t.attemptOf ensures Grounded(t, t.rows[id].state, t.attemptOf[id]) {
      if id == placed && accepted && !fate.Lost? {
        FailedIsGrounded(t, t.rows[id].state, t.attemptOf[id]);
      } else {
        GroundedGrows(s, t, s.rows[id].state, s.attemptOf[id]);
      }
    }
    if t.sweeper.Writing? {
      GroundedGrows(s, t, s.sweeper.next.state, AttemptOf(s, s.sweeper.base.id));
    }
  }

  lemma PlacedIsReady(rows: map<string, Order>, id: string, entry: LevelEntry, now: int)
    ensures Upsert(rows, NewOrder(id, entry.id, entry.amount, now))[id].state.SwapReady?
  {
  }

  lemma OtherKeepsGrounded(s: System, e: Event)
    requires RowsGrounded(s) && Enabled(s, e)
    requires !e.PlaceOrder? && !e.Store? && !e.Release? && !e.TakeTurn?
    ensures RowsGrounded(Next(s, e))
  {
    hide Grounded, Enabled;
    StepGrows(s, e);
    OtherStepsFrame(s, e);
    var t := Next(s, e);
    OthersWriteNothing(s, e);
    forall id | id in t.rows && id in t.attemptOf ensures Grounded(t, t.rows[id].state, t.attemptOf[id]) {
      GroundedGrows(s, t, s.rows[id].state, s.attemptOf[id]);
    }
    if t.sweeper.Writing? {
      GroundedGrows(s, t, s.sweeper.next.state, AttemptOf(s, s.sweeper.base.id));
    }
  }

  lemma OthersWriteNothing(s: System, e: Event)
    requires Enabled(s, e) && !e.PlaceOrder? && !e.Store? && !e.Release? && !e.TakeTurn?
    ensures var t := Next(s, e); t.attemptOf == s.attemptOf && (t.sweeper.Writing? ==> t.sweeper == s.sweeper)
  {
  }

  lemma StepKeepsGrounded(s: System, e: Event)
    requires LedgerInv(s) && RowsGrounded(s) && Enabled(s, e)
    ensures RowsGrounded(Next(s, e))
  {
    hide LedgerInv, RowsGrounded, Enabled, Next;
    match e
    case PlaceOrder(accepted, fate) => PlaceKeepsGrounded(s, accepted, fate);
    case TakeTurn(checkedAt, world, retryFrom, reached) => TurnKeepsGrounded(s, checkedAt, world, retryFrom, reached);
    case Store(fate) => StoreKeepsGrounded(s, fate);
    case Release(orderId) => ReleaseKeepsGrounded(s, orderId);
    case _ => OtherKeepsGrounded(s, e);
  }

  lemma {:induction false} RunKeepsGrounded(states: seq<System>, events: seq<Event>, k: nat)
    requires IsRun(states, events) && k < |states|
    ensures RowsGrounded(states[k])
  {
    hide Enabled, Next, LedgerInv;
    if k > 0 {
      hide RowsGrounded;
      RunKeepsGrounded(states, events, k - 1);
      RunKeepsLedger(states, events, k - 1);
      StepKeepsGrounded(states[k - 1], events[k - 1]);
    }
  }

  /** In every reachable state, a filled order's hash is that of a swap its own attempt sent, and that swap landed. */
  lemma FilledHasLanded(states: seq<System>, events: seq<Event>, k: nat, id: string) returns (t: Transmission)
    requires IsRun(states, events) && k < |states| && id in states[k].rows && states[k].rows[id].state.Filled?
    ensures id in states[k].attemptOf && t in states[k].sent && t.attempt == states[k].attemptOf[id] && t.step.Swap?
    ensures t.hash == states[k].rows[id].state.txHash && HasLanded(states[k], t)
  {
    hide Enabled, Next, EndedOk, SentOk, SameBytes, PhasesOk, CausesOk, AllowOk, PendingOk, RowInv;
    RunKeepsLedger(states, events, k);
    RunKeepsGrounded(states, events, k);
    var s := states[k];
    assert Grounded(s, s.rows[id].state, s.attemptOf[id]);
    t :| t in s.sent && t.attempt == s.attemptOf[id] && t.step.Swap? && t.hash == s.rows[id].state.txHash
         && HasLanded(s, t);
  }
}
