/** What holds over every run of the daemon: any interleaving of trigger, sweeper, operator, restarts, failed
    writes and chain answers. */
module LifecycleTheorems {
  import opened OrderMachine
  import opened DriveOrder
  import opened OrderIds
  import opened Lifecycle
  import opened RowInvariant
  import opened LedgerInvariant

  lemma {:induction false} RunKeepsLedger(states: seq<System>, events: seq<Event>, k: nat)
    requires IsRun(states, events) && k < |states|
    ensures LedgerInv(states[k])
  {
    hide LedgerInv, Enabled, Next;
    if k == 0 {
      InitHasLedger(states[0].allowBroadcast, states[0].clock);
    } else {
      RunKeepsLedger(states, events, k - 1);
      StepKeepsLedger(states[k - 1], events[k - 1]);
    }
  }

  /** In every reachable state a level has at most one order that is not failed. */
  lemma AtMostOneLiveOrder(states: seq<System>, events: seq<Event>, k: nat, id1: string, id2: string)
    requires IsRun(states, events) && k < |states|
    requires id1 in states[k].rows && id2 in states[k].rows && id1 != id2
    requires states[k].rows[id1].levelId == states[k].rows[id2].levelId
    ensures states[k].rows[id1].state.Failed? || states[k].rows[id2].state.Failed?
  {
    hide Next, Enabled;
    RunKeepsLedger(states, events, k);
  }

  /** Every stored order commits exactly its reserved amount and is never retried more than eight times. */
  lemma ReservationIsKept(states: seq<System>, events: seq<Event>, k: nat, id: string)
    requires IsRun(states, events) && k < |states| && id in states[k].rows
    ensures SpendsReserved(states[k].rows[id]) && states[k].rows[id].swapAttempts <= 8
    ensures states[k].rows[id].id == id
  {
    hide Next, Enabled;
    RunKeepsLedger(states, events, k);
    assert RowOk(id, states[k].rows[id]);
  }

  // ---------------------------------------------------------------- filled levels

  predicate NoNewAttempt(s: System, t: System, levelId: string) {
    |s.attemptLevel| <= |t.attemptLevel|
    && forall a :: |s.attemptLevel| <= a < |t.attemptLevel| ==> t.attemptLevel[a] != levelId
  }

  predicate FilledRow(s: System, id: string, row: Order) {
    id in s.rows && s.rows[id] == row && row.state.Filled?
  }

  lemma PlaceLeavesFilled(s: System, accepted: bool, fate: WriteFate, id: string, row: Order)
    requires RowInv(s) && Enabled(s, PlaceOrder(accepted, fate)) && FilledRow(s, id, row)
    ensures var t := Next(s, PlaceOrder(accepted, fate));
            FilledRow(t, id, row) && NoNewAttempt(s, t, row.levelId) && s.attemptLevel <= t.attemptLevel
  {
    hide OneLive, SweeperOk, RowsOk, Upsert;
    var entry := s.trigger.pending[0];
    assert AllFailed(s.rows, entry.id);
    PlaceKeepsRows(s.rows, entry, s.trigger.publishedAt, s.trigger.now);
  }

  /** Only placing, storing and releasing touch rows, attempts or how they ended. */
  lemma OtherStepsFrame(s: System, e: Event)
    requires Enabled(s, e) && !e.PlaceOrder? && !e.Store? && !e.Release?
    ensures var t := Next(s, e); t.rows == s.rows && t.attemptLevel == s.attemptLevel && t.ended == s.ended
  {
    hide Enabled, TurnOf, NewSignature, NewTransmissions, SendFails, RecordFailure;
  }

  lemma StoreLeavesFilled(s: System, fate: WriteFate, id: string, row: Order)
    requires RowInv(s) && Enabled(s, Store(fate)) && FilledRow(s, id, row)
    ensures var t := Next(s, Store(fate)); FilledRow(t, id, row) && t.attemptLevel == s.attemptLevel
  {
    hide OneLive, RowsOk, TriggerOk, QueueFresh, Queued, CauseOf;
  }

  lemma ReleaseLeavesFilled(s: System, orderId: string, id: string, row: Order)
    requires RowInv(s) && Enabled(s, Release(orderId)) && FilledRow(s, id, row)
    ensures var t := Next(s, Release(orderId)); FilledRow(t, id, row) && t.attemptLevel == s.attemptLevel
  {
    hide OneLive, TriggerOk, SweeperOk;
    assert RowOk(orderId, s.rows[orderId]);
  }

  lemma StepLeavesFilled(s: System, e: Event, id: string, row: Order)
    requires RowInv(s) && Enabled(s, e) && FilledRow(s, id, row)
    ensures FilledRow(Next(s, e), id, row) && NoNewAttempt(s, Next(s, e), row.levelId)
    ensures s.attemptLevel <= Next(s, e).attemptLevel
  {
    hide RowInv, Enabled, Next;
    match e
    case PlaceOrder(accepted, fate) => PlaceLeavesFilled(s, accepted, fate, id, row);
    case Release(orderId) => ReleaseLeavesFilled(s, orderId, id, row);
    case Store(fate) => StoreLeavesFilled(s, fate, id, row);
    case _ => OtherStepsFrame(s, e);
  }

  /** A filled order is never touched again, and its level never starts another attempt. */
  lemma {:induction false} FilledIsForever(states: seq<System>, events: seq<Event>, j: nat, k: nat, id: string)
    requires IsRun(states, events) && j <= k < |states|
    requires id in states[j].rows && states[j].rows[id].state.Filled?
    ensures FilledRow(states[k], id, states[j].rows[id])
    ensures NoNewAttempt(states[j], states[k], states[j].rows[id].levelId)
    decreases k
  {
    hide Next, Enabled, LedgerInv;
    if j < k {
      FilledIsForever(states, events, j, k - 1, id);
      RunKeepsLedger(states, events, k - 1);
      LedgerParts(states[k - 1]);
      StepLeavesFilled(states[k - 1], events[k - 1], id, states[j].rows[id]);
    }
  }

  // ---------------------------------------------------------------- transmissions

  /** The transmission's bytes are the stored ones of an order being broadcast. */
  predicate Stored(s: System, t: Transmission) {
    exists id :: id in s.rows && id in s.attemptOf && s.attemptOf[id] == t.attempt && s.rows[id].levelId == t.levelId
                 && Carries(s.rows[id], Send(t.step, t.wire, t.hash))
  }

  lemma StoringSendsNothing(s: System, fate: WriteFate)
    requires Enabled(s, Store(fate))
    ensures Next(s, Store(fate)).sent == s.sent
  {
    hide Upsert, CauseOf, AttemptOf;
  }

  lemma OnlyTurnsSend(s: System, e: Event)
    requires Enabled(s, e) && !e.TakeTurn?
    ensures Next(s, e).sent == s.sent
  {
    hide Enabled, Upsert, StoreRow, CauseOf, TurnOf, NewSignature, NewTransmissions, SendFails, RecordFailure,
        AttemptOf, Released, OrderId, NewOrder;
    if e.Store? {
      StoringSendsNothing(s, e.stored);
    }
  }

  lemma TurnSendsStored(s: System, e: Event, t: Transmission)
    requires RowInv(s) && AttemptsOk(s) && Enabled(s, e) && t in Next(s, e).sent && t !in s.sent
    ensures Stored(s, t) && s.allowBroadcast
  {
    hide TurnOf, OneLive, QueueFresh, RowsOk, TriggerOk, HonestAnswer, NewSignature, SendFails, RecordFailure;
    if !e.TakeTurn? {
      OnlyTurnsSend(s, e);
    } else {
      var copy := s.sweeper.copy;
      assert IsRow(s.rows, copy);
      RowsHaveAttempts(s, copy);
    }
  }

  lemma LedgerParts(s: System)
    requires LedgerInv(s)
    ensures RowInv(s) && AttemptsOk(s)
  {
  }

  /** Everything ever handed to the node was, at that moment, the stored content of its order's row. */
  lemma {:induction false} SentWasStored(states: seq<System>, events: seq<Event>, k: nat, t: Transmission)
      returns (j: nat)
    requires IsRun(states, events) && k < |states| && t in states[k].sent
    ensures j < k && t !in states[j].sent && t in states[j + 1].sent && Stored(states[j], t) && states[j].allowBroadcast
  {
    hide LedgerInv, Stored, Next, Enabled;
    if t in states[k - 1].sent {
      j := SentWasStored(states, events, k - 1, t);
    } else {
      RunKeepsLedger(states, events, k - 1);
      LedgerParts(states[k - 1]);
      TurnSendsStored(states[k - 1], events[k - 1], t);
      j := k - 1;
    }
  }

  /** Through restarts and failed writes, all swap transmissions of one attempt are the same bytes. */
  lemma OneSwapPerAttempt(states: seq<System>, events: seq<Event>, k: nat, t: Transmission, u: Transmission)
    requires IsRun(states, events) && k < |states| && t in states[k].sent && u in states[k].sent
    requires t.attempt == u.attempt && t.step.Swap? && u.step.Swap?
    ensures t.hash == u.hash && t.wire == u.wire
  {
    hide Next, Enabled, RowInv, EndedOk, PhasesOk, CausesOk;
    RunKeepsLedger(states, events, k);
    assert TransmissionOk(states[k], t) && TransmissionOk(states[k], u);
  }

  // ---------------------------------------------------------------- two landed swaps

  predicate HasLanded(s: System, t: Transmission) {
    t.wire in s.fates && s.fates[t.wire].Landed?
  }

  /** What a state says of an ended attempt whose swap has been sent and is not rejected. */
  lemma CauseOfSentSwap(s: System, t: Transmission)
    requires LedgerInv(s) && t in s.sent && t.step.Swap? && Ended(s, t.attempt)
    requires t.wire in s.fates ==> s.fates[t.wire].Landed?
    ensures var cause := s.ended[t.attempt];
            cause.TimedOut? || cause.OperatorRelease? || (cause.Blocked? && s.turnedOff)
  {
    hide RowInv, PhasesOk, AttemptsOk, EndedOk, SentOk;
    assert CauseOk(s.fates, s.sent, s.turnedOff, t.attempt, s.ended[t.attempt]);
  }

  /** The write that ended the attempt: a receipt deadline that passed, or the operator. */
  predicate EndedBy(s: System, e: Event, a: nat, cause: EndCause) {
    match e
    case Store(fate) =>
      s.sweeper.Writing? && AttemptOf(s, s.sweeper.next.id) == a && s.sweeper.next.state.Failed? && !fate.Lost?
      && CauseOf(s.sweeper.base, s.sweeper.next) == cause
    case Release(id) => AttemptOf(s, id) == a && cause.OperatorRelease?
    case _ => false
  }

  lemma {:induction false} EndsAreEvents(states: seq<System>, events: seq<Event>, k: nat, a: nat) returns (j: nat)
    requires IsRun(states, events) && k < |states| && a in states[k].ended
    ensures j < k && EndedBy(states[j], events[j], a, states[k].ended[a])
  {
    hide EndedBy, Enabled, Next;
    if a in states[k - 1].ended && states[k - 1].ended[a] == states[k].ended[a] {
      j := EndsAreEvents(states, events, k - 1, a);
    } else {
      StepEnds(states[k - 1], events[k - 1], a);
      j := k - 1;
    }
  }

  lemma StoreEnds(s: System, fate: WriteFate, a: nat)
    requires Enabled(s, Store(fate)) && a in Next(s, Store(fate)).ended
    requires !(a in s.ended && s.ended[a] == Next(s, Store(fate)).ended[a])
    ensures EndedBy(s, Store(fate), a, Next(s, Store(fate)).ended[a])
  {
    hide Enabled, Next, Upsert, CauseOf, AttemptOf;
    StoreFacts(s, fate);
  }

  lemma ReleaseEnds(s: System, orderId: string, a: nat)
    requires Enabled(s, Release(orderId)) && a in Next(s, Release(orderId)).ended
    requires !(a in s.ended && s.ended[a] == Next(s, Release(orderId)).ended[a])
    ensures EndedBy(s, Release(orderId), a, Next(s, Release(orderId)).ended[a])
  {
    hide Enabled, Next, Upsert, AttemptOf;
    ReleaseFacts(s, orderId);
  }

  lemma PlaceEndsNothing(s: System, accepted: bool, fate: WriteFate)
    requires Enabled(s, PlaceOrder(accepted, fate))
    ensures Next(s, PlaceOrder(accepted, fate)).ended == s.ended
  {
    hide Enabled, Next, Upsert, OrderId, NewOrder;
    PlaceFacts(s, accepted, fate);
  }

  lemma StepEnds(s: System, e: Event, a: nat)
    requires Enabled(s, e) && a in Next(s, e).ended
    requires !(a in s.ended && s.ended[a] == Next(s, e).ended[a])
    ensures EndedBy(s, e, a, Next(s, e).ended[a])
  {
    hide Enabled, Next, EndedBy;
    match e
    case Store(fate) => StoreEnds(s, fate, a);
    case Release(orderId) => ReleaseEnds(s, orderId, a);
    case PlaceOrder(accepted, fate) => PlaceEndsNothing(s, accepted, fate);
    case _ => OtherStepsFrame(s, e);
  }

  // ---------------------------------------------------------------- nothing recorded is taken back

  predicate Grows(s: System, t: System) {
    && s.sent <= t.sent && s.ended.Keys <= t.ended.Keys && s.attemptLevel <= t.attemptLevel
    && forall wire :: wire in s.fates ==> wire in t.fates && t.fates[wire] == s.fates[wire]
  }

  lemma StoreGrows(s: System, fate: WriteFate)
    requires Enabled(s, Store(fate))
    ensures Grows(s, Next(s, Store(fate)))
  {
    hide Enabled, Upsert, CauseOf, AttemptOf;
  }

  lemma TurnGrows(s: System, checkedAt: int, world: World, retryFrom: int, reached: bool)
    requires Enabled(s, TakeTurn(checkedAt, world, retryFrom, reached))
    ensures Grows(s, Next(s, TakeTurn(checkedAt, world, retryFrom, reached)))
  {
    hide Enabled, TurnOf, NewSignature, NewTransmissions, SendFails, RecordFailure, AttemptOf;
  }

  lemma PlaceGrows(s: System, accepted: bool, fate: WriteFate)
    requires Enabled(s, PlaceOrder(accepted, fate))
    ensures Grows(s, Next(s, PlaceOrder(accepted, fate)))
  {
    hide Upsert, OrderId, NewOrder;
  }

  lemma SettleGrows(s: System, wire: string, fate: ChainFate)
    requires Enabled(s, Settle(wire, fate))
    ensures Grows(s, Next(s, Settle(wire, fate)))
  {
  }

  lemma StepGrows(s: System, e: Event)
    requires Enabled(s, e)
    ensures Grows(s, Next(s, e))
  {
    if e.Store? || e.TakeTurn? || e.PlaceOrder? || e.Settle? {
      hide Next, Grows, Enabled;
      match e
      case Store(fate) => StoreGrows(s, fate);
      case TakeTurn(checkedAt, world, retryFrom, reached) => TurnGrows(s, checkedAt, world, retryFrom, reached);
      case PlaceOrder(accepted, fate) => PlaceGrows(s, accepted, fate);
      case Settle(wire, fate) => SettleGrows(s, wire, fate);
    } else {
      hide Enabled, Upsert, Released, AttemptOf;
    }
  }

  lemma GrowsOnward(s: System, t: System, u: System)
    requires Grows(s, t) && Grows(t, u)
    ensures Grows(s, u)
  {
  }

  lemma {:induction false} RunGrows(states: seq<System>, events: seq<Event>, j: nat, k: nat)
    requires IsRun(states, events) && j <= k < |states|
    ensures Grows(states[j], states[k])
    decreases k
  {
    hide Enabled, Next;
    if j < k {
      hide Grows;
      RunGrows(states, events, j, k - 1);
      StepGrows(states[k - 1], events[k - 1]);
      GrowsOnward(states[j], states[k - 1], states[k]);
    }
  }

  // ---------------------------------------------------------------- the broadcast switch

  /** The switch over a run, state by state. */
  function Switches(states: seq<System>): seq<bool> {
    seq(|states|, i requires 0 <= i < |states| => states[i].allowBroadcast)
  }

  /** At some time on, later off, later on again. */
  predicate OnOffOn(switches: seq<bool>) {
    exists i, j, k :: 0 <= i < j < k < |switches| && switches[i] && !switches[j] && switches[k]
  }

  lemma OnOffOnAt(states: seq<System>, i: nat, j: nat, k: nat)
    requires i < j <= k < |states| && states[i].allowBroadcast && !states[j].allowBroadcast && states[k].allowBroadcast
    ensures OnOffOn(Switches(states))
  {
    var switches := Switches(states);
    assert switches[i] && !switches[j] && switches[k];
  }

  lemma StepTurnsOff(s: System, e: Event)
    requires Enabled(s, e)
    ensures Next(s, e).turnedOff ==> s.turnedOff || (s.allowBroadcast && !Next(s, e).allowBroadcast)
  {
    hide Enabled, TurnOf, StoreRow, Upsert, NewSignature, NewTransmissions, SendFails, RecordFailure, Released,
        AttemptOf, OrderId, NewOrder;
    if e.Store? {
      StoringKeepsSwitch(s, e.stored);
    }
  }

  lemma StoringKeepsSwitch(s: System, fate: WriteFate)
    requires Enabled(s, Store(fate))
    ensures Next(s, Store(fate)).turnedOff == s.turnedOff
  {
    hide Enabled, Upsert, CauseOf, AttemptOf;
  }

  lemma {:induction false} TurnedOffAfterOn(states: seq<System>, events: seq<Event>, k: nat) returns (i: nat, j: nat)
    requires IsRun(states, events) && k < |states| && states[k].turnedOff
    ensures i < j <= k && states[i].allowBroadcast && !states[j].allowBroadcast
  {
    hide Enabled, Next;
    StepTurnsOff(states[k - 1], events[k - 1]);
    if states[k - 1].turnedOff {
      i, j := TurnedOffAfterOn(states, events, k - 1);
    } else {
      i, j := k - 1, k;
    }
  }

  /** When bytes of an attempt are sent, every earlier attempt of the level has ended and the attempt itself
      has not. */
  lemma SenderIsNewest(s: System, u: Transmission, a: nat)
    requires LedgerInv(s) && Stored(s, u)
    ensures u.attempt < |s.attemptLevel| && !Ended(s, u.attempt)
    ensures a < u.attempt && s.attemptLevel[a] == u.levelId ==> Ended(s, a)
  {
    hide RowInv, PhasesOk, SentOk, CausesOk;
    var id :| id in s.rows && id in s.attemptOf && s.attemptOf[id] == u.attempt && s.rows[id].levelId == u.levelId
              && Carries(s.rows[id], Send(u.step, u.wire, u.hash));
    assert !s.rows[id].state.Failed?;
  }

  lemma SentInLevel(s: System, t: Transmission)
    requires LedgerInv(s) && t in s.sent
    ensures t.attempt < |s.attemptLevel| && s.attemptLevel[t.attempt] == t.levelId
  {
    hide RowInv, PhasesOk, CausesOk, EndedOk, AttemptsOk;
    assert TransmissionOk(s, t);
  }

  /** By the time a later attempt of the level sends, the earlier one has ended, having sent before. */
  lemma EarlierEndedBefore(states: seq<System>, events: seq<Event>, k: nat, t: Transmission, u: Transmission)
      returns (m: nat)
    requires IsRun(states, events) && k < |states| && t in states[k].sent && u in states[k].sent
    requires t.levelId == u.levelId && t.attempt < u.attempt
    ensures m < k && states[m].allowBroadcast && t in states[m].sent && Ended(states[m], t.attempt)
  {
    hide Enabled, Next, LedgerInv, Stored, Ended;
    m := SentWasStored(states, events, k, u);
    RunKeepsLedger(states, events, m);
    RunKeepsLedger(states, events, k);
    SentInLevel(states[k], t);
    RunGrows(states, events, m, k);
    SenderIsNewest(states[m], u, t.attempt);
    var n := SentWasStored(states, events, k, t);
    if m <= n {
      RunKeepsLedger(states, events, n);
      SenderIsNewest(states[n], t, t.attempt);
      RunGrows(states, events, m, n);
      EndedStays(states[m], states[n], t.attempt);
    } else {
      RunGrows(states, events, n + 1, m);
    }
  }

  lemma EndedStays(s: System, t: System, a: nat)
    requires Grows(s, t) && Ended(s, a)
    ensures Ended(t, a)
  {
  }

  /** If a swap landed although a later attempt of its level sent one too, and the switch never went on, off and
      on again, the landed attempt was given up by the receipt deadline or released by the operator. */
  lemma EarlierWasGivenUp(states: seq<System>, events: seq<Event>, k: nat, t: Transmission, u: Transmission)
      returns (j: nat)
    requires IsRun(states, events) && k < |states| && !OnOffOn(Switches(states))
    requires t in states[k].sent && u in states[k].sent && t.step.Swap?
    requires t.levelId == u.levelId && t.attempt < u.attempt && HasLanded(states[k], t)
    ensures j < k && (EndedBy(states[j], events[j], t.attempt, TimedOut)
                      || EndedBy(states[j], events[j], t.attempt, OperatorRelease))
  {
    hide LedgerInv, Next, Enabled, EndedBy;
    var m := EarlierEndedBefore(states, events, k, t, u);
    RunGrows(states, events, m, k);
    RunKeepsLedger(states, events, m);
    CauseOfSentSwap(states[m], t);
    j := EndsAreEvents(states, events, m, t.attempt);
    if states[m].ended[t.attempt].Blocked? {
      var on, off := TurnedOffAfterOn(states, events, m);
      OnOffOnAt(states, on, off, m);
    }
  }

  /** Two different swaps of one level can both land only if the earlier attempt was given up by the receipt
      deadline or released by the operator, by an event of the run, or the broadcast switch went on, off and on
      again. */
  lemma DoubleLandingNeedsTimeoutOrOperator(states: seq<System>, events: seq<Event>, k: nat, t: Transmission,
                                            u: Transmission)
    returns (j: nat)
    requires IsRun(states, events) && k < |states| && !OnOffOn(Switches(states))
    requires t in states[k].sent && u in states[k].sent && t.step.Swap? && u.step.Swap?
    requires t.levelId == u.levelId && t.wire != u.wire && HasLanded(states[k], t) && HasLanded(states[k], u)
    ensures t.attempt != u.attempt && j < k
    ensures EndedBy(states[j], events[j], Earlier(t, u), TimedOut)
            || EndedBy(states[j], events[j], Earlier(t, u), OperatorRelease)
  {
    hide Next, Enabled, EndedBy, HasLanded, OnOffOn, Switches;
    if t.attempt == u.attempt {
      OneSwapPerAttempt(states, events, k, t, u);
      assert false;
    } else if t.attempt < u.attempt {
      j := EarlierWasGivenUp(states, events, k, t, u);
    } else {
      j := EarlierWasGivenUp(states, events, k, u, t);
    }
  }

  function Earlier(t: Transmission, u: Transmission): nat {
    if t.attempt < u.attempt then t.attempt else u.attempt
  }
}
