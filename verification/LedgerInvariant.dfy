/** What the history of transmissions and attempts says about the rows: which bytes an attempt may have sent,
    and what an ended attempt can still land. */
module LedgerInvariant {
  import opened Wrappers
  import opened OrderMachine
  import opened DriveOrder
  import opened OrderIds
  import opened Lifecycle
  import opened RowInvariant

  /** Each row belongs to its own attempt, filed under the row's level. */
  predicate AttemptsOk(s: System) {
    && s.attemptOf.Keys == s.rows.Keys
    && (forall id :: id in s.rows ==>
          s.attemptOf[id] < |s.attemptLevel| && s.attemptLevel[s.attemptOf[id]] == s.rows[id].levelId)
    && (forall i, j :: i in s.rows && j in s.rows && i != j ==> s.attemptOf[i] != s.attemptOf[j])
    && |s.failures| == |s.attemptLevel|
  }

  predicate Ended(s: System, a: nat) {
    a in s.ended
  }

  predicate Tracked(s: System, a: nat) {
    a in s.ended || exists id :: id in s.attemptOf && s.attemptOf[id] == a
  }

  /** An attempt has ended exactly when its row is failed, and every attempt but the newest of its level has. */
  predicate EndedOk(s: System) {
    && (forall a :: a in s.ended ==> a < |s.attemptLevel|)
    && (forall id :: id in s.rows && id in s.attemptOf ==> (s.rows[id].state.Failed? <==> Ended(s, s.attemptOf[id])))
    && (forall a :: 0 <= a < |s.attemptLevel| ==> Tracked(s, a))
    && (forall a, b :: 0 <= a < b < |s.attemptLevel| && s.attemptLevel[a] == s.attemptLevel[b] ==> Ended(s, a))
  }

  predicate TransmissionOk(s: System, t: Transmission) {
    t.attempt < |s.attemptLevel| && s.attemptLevel[t.attempt] == t.levelId && t.hash in s.signed
    && s.signed[t.hash] == t.wire
  }

  predicate SentOk(s: System) {
    forall t :: t in s.sent ==> TransmissionOk(s, t)
  }

  /** All swap transmissions of one attempt carry the same hash, hence the same bytes. */
  predicate SameBytes(sent: set<Transmission>) {
    forall t, u :: t in sent && u in sent && t.attempt == u.attempt && t.step.Swap? && u.step.Swap? ==> t.hash == u.hash
  }

  predicate NoSwapSent(sent: set<Transmission>, a: nat) {
    forall t :: t in sent && t.attempt == a ==> !t.step.Swap?
  }

  predicate SwapsAre(sent: set<Transmission>, a: nat, hash: string) {
    forall t :: t in sent && t.attempt == a && t.step.Swap? ==> t.hash == hash
  }

  /** What a row's state says about the transmissions of its attempt. */
  predicate PhaseOk(signed: map<string, string>, sent: set<Transmission>, state: OrderState, a: nat) {
    && (Signable(state) ==> NoSwapSent(sent, a))
    && (state.Broadcasting? ==> state.txHash in signed && signed[state.txHash] == state.signedTx)
    && (state.Submitted? ==> state.txHash in signed)
    && (SwapSigned(state) ==> SwapsAre(sent, a, state.txHash))
  }

  predicate PhasesOk(s: System) {
    forall id :: id in s.rows && id in s.attemptOf ==> PhaseOk(s.signed, s.sent, s.rows[id].state, s.attemptOf[id])
  }

  /** What the cause of an ended attempt rules out. */
  predicate CauseOk(fates: map<string, ChainFate>, sent: set<Transmission>, turnedOff: bool, a: nat, cause: EndCause) {
    match cause
    case SignFailed => NoSwapSent(sent, a)
    case RevertedEnd =>
      forall t :: t in sent && t.attempt == a && t.step.Swap? ==> t.wire in fates && fates[t.wire].Rejected?
    case Blocked => turnedOff || NoSwapSent(sent, a)
    case TimedOut | OperatorRelease => true
  }

  predicate CausesOk(s: System) {
    forall a :: a in s.ended ==> CauseOk(s.fates, s.sent, s.turnedOff, a, s.ended[a])
  }

  predicate AllowOk(s: System) {
    !s.turnedOff && !s.allowBroadcast ==> s.sent == {}
  }

  /** The state about to be stored is one the history allows. */
  predicate PendingOk(s: System) {
    s.sweeper.Writing? ==>
      ProposalOk(s, s.signed, s.sent, AttemptOf(s, s.sweeper.base.id), s.sweeper.base, s.sweeper.next)
  }

  ghost predicate LedgerInv(s: System) {
    RowInv(s) && AttemptsOk(s) && EndedOk(s) && SentOk(s) && SameBytes(s.sent) && PhasesOk(s) && CausesOk(s)
    && AllowOk(s) && PendingOk(s)
  }

  // ---------------------------------------------------------------- placing

  /** When all rows of a level are failed, all its attempts have ended. */
  lemma LevelIsOver(s: System, levelId: string, a: nat)
    requires AttemptsOk(s) && EndedOk(s) && AllFailed(s.rows, levelId)
    requires a < |s.attemptLevel| && s.attemptLevel[a] == levelId
    ensures Ended(s, a)
  {
    assert Tracked(s, a);
    if id :| id in s.attemptOf && s.attemptOf[id] == a {
      assert s.rows[id].state.Failed?;
    }
  }

  predicate PlacesOverFailed(s: System, entry: LevelEntry) {
    s.trigger.Placing?
    && var id := OrderId(entry.id, s.trigger.publishedAt);
       id in s.rows ==> s.rows[id].levelId == entry.id && s.rows[id].state.Failed?
  }

  lemma PlaceKeepsAttempts(s: System, entry: LevelEntry)
    requires AttemptsOk(s) && PlacesOverFailed(s, entry)
    ensures AttemptsOk(Place(s, entry))
  {
    hide OrderId;
  }

  lemma PlaceKeepsTracking(s: System, entry: LevelEntry, a: nat)
    requires AttemptsOk(s) && EndedOk(s) && PlacesOverFailed(s, entry) && a <= |s.attemptLevel|
    ensures Tracked(Place(s, entry), a)
  {
    hide OrderId;
    var after := Place(s, entry);
    var id := OrderId(entry.id, s.trigger.publishedAt);
    if a == |s.attemptLevel| {
      assert after.attemptOf[id] == a;
    } else {
      assert Tracked(s, a);
      if k :| k in s.attemptOf && s.attemptOf[k] == a {
        if k == id {
          assert Ended(s, a);
        } else {
          assert after.attemptOf[k] == a;
        }
      }
    }
  }

  lemma PlaceKeepsEnded(s: System, entry: LevelEntry)
    requires AttemptsOk(s) && EndedOk(s) && PlacesOverFailed(s, entry) && AllFailed(s.rows, entry.id)
    ensures EndedOk(Place(s, entry))
  {
    hide OrderId, Tracked, AllFailed;
    var after := Place(s, entry);
    var n := |s.attemptLevel|;
    forall a | 0 <= a < n + 1 ensures Tracked(after, a) {
      PlaceKeepsTracking(s, entry, a);
    }
    forall a, b | 0 <= a < b < n + 1 && after.attemptLevel[a] == after.attemptLevel[b] ensures Ended(after, a) {
      if b == n {
        LevelIsOver(s, entry.id, a);
      } else {
        assert s.attemptLevel[a] == s.attemptLevel[b];
        assert Ended(s, a);
      }
    }
    PlacedRowsEnded(s, entry);
  }

  lemma PlacedRowsEnded(s: System, entry: LevelEntry)
    requires AttemptsOk(s) && EndedOk(s) && PlacesOverFailed(s, entry)
    ensures var after := Place(s, entry);
            forall id :: id in after.rows && id in after.attemptOf ==>
              (after.rows[id].state.Failed? <==> Ended(after, after.attemptOf[id]))
  {
    hide OrderId, Tracked;
  }

  lemma PlaceKeepsHistory(s: System, entry: LevelEntry)
    requires AttemptsOk(s) && SentOk(s) && PhasesOk(s) && PendingOk(s) && SweeperOk(s.rows, s.sweeper)
             && PlacesOverFailed(s, entry)
    ensures var after := Place(s, entry); SentOk(after) && PhasesOk(after) && PendingOk(after)
  {
    hide OrderId, QueueFresh, Continues, SpendsReserved;
    var after := Place(s, entry);
    forall t | t in after.sent ensures TransmissionOk(after, t) {
      assert TransmissionOk(s, t);
    }
    assert NoSwapSent(s.sent, |s.attemptLevel|) by {
      forall t | t in s.sent ensures t.attempt < |s.attemptLevel| { assert TransmissionOk(s, t); }
    }
    forall id | id in after.rows && id in after.attemptOf
      ensures PhaseOk(after.signed, after.sent, after.rows[id].state, after.attemptOf[id])
    {
      if id != OrderId(entry.id, s.trigger.publishedAt) {
        assert PhaseOk(s.signed, s.sent, s.rows[id].state, s.attemptOf[id]);
      }
    }
  }

  lemma PlaceKeepsLedger(s: System, accepted: bool, fate: WriteFate)
    requires LedgerInv(s) && Enabled(s, PlaceOrder(accepted, fate))
    ensures LedgerInv(Next(s, PlaceOrder(accepted, fate)))
  {
    hide OneLive, RowsOk, AttemptsOk, EndedOk, SentOk, PhasesOk, SweeperOk, Place, CausesOk, SameBytes, PendingOk,
        OrderId;
    StepKeepsRowInv(s, PlaceOrder(accepted, fate));
    var entry := s.trigger.pending[0];
    var rest := s.trigger.(pending := s.trigger.pending[1..]);
    if accepted && !fate.Lost? {
      PlaceKeepsRows(s.rows, entry, s.trigger.publishedAt, s.trigger.now);
      PlaceKeepsAttempts(s, entry);
      PlaceKeepsEnded(s, entry);
      PlaceKeepsHistory(s, entry);
      PlaceTouches(s, entry);
      TriggerIrrelevant(Place(s, entry), rest);
    } else {
      TriggerIrrelevant(s, rest);
    }
  }

  lemma PlaceTouches(s: System, entry: LevelEntry)
    requires s.trigger.Placing?
    ensures var after := Place(s, entry);
            after.ended == s.ended && after.sent == s.sent && after.fates == s.fates && after.turnedOff == s.turnedOff
            && after.allowBroadcast == s.allowBroadcast && after.sweeper == s.sweeper && after.trigger == s.trigger
    ensures CausesOk(s) ==> CausesOk(Place(s, entry))
  {
  }

  /** The ledger predicates do not look at the trigger. */
  lemma TriggerIrrelevant(s: System, trigger: Trigger)
    ensures var t := s.(trigger := trigger);
            && (AttemptsOk(s) ==> AttemptsOk(t)) && (EndedOk(s) ==> EndedOk(t)) && (SentOk(s) ==> SentOk(t))
            && (PhasesOk(s) ==> PhasesOk(t)) && (CausesOk(s) ==> CausesOk(t)) && (PendingOk(s) ==> PendingOk(t))
  {
    hide AttemptsOk, EndedOk, SentOk, PhasesOk;
    AttemptsTransfer(s, s.(trigger := trigger));
  }

  // ---------------------------------------------------------------- a turn of the sweeper

  predicate Extends(signed: map<string, string>, more: map<string, string>) {
    forall h :: h in signed ==> h in more && more[h] == signed[h]
  }

  lemma SignatureExtends(s: System, copy: Order, checkedAt: int, world: World, reached: bool)
    requires HonestAnswer(s, copy, world, reached)
    ensures Extends(s.signed, s.signed + NewSignature(copy, checkedAt, world))
  {
  }

  /** The row a turn transmits for: its attempt has sent no other swap bytes. */
  lemma TransmissionKeepsHistory(s: System, copy: Order, checkedAt: int, reached: bool)
    requires AttemptsOk(s) && SentOk(s) && SameBytes(s.sent) && PhasesOk(s) && IsRow(s.rows, copy)
    ensures var sent := s.sent + NewTransmissions(s, copy, checkedAt, reached);
            && SameBytes(sent)
            && PhaseOk(s.signed, sent, copy.state, s.attemptOf[copy.id])
            && (forall t :: t in sent && t !in s.sent ==> TransmissionOk(s, t) && t.attempt == s.attemptOf[copy.id])
  {
    assert PhaseOk(s.signed, s.sent, s.rows[copy.id].state, s.attemptOf[copy.id]);
  }

  lemma OtherPhasesKept(s: System, copy: Order, sent: set<Transmission>, more: map<string, string>, id: string)
    requires AttemptsOk(s) && PhasesOk(s) && IsRow(s.rows, copy) && id in s.rows && Extends(s.signed, more)
    requires s.sent <= sent && forall t :: t in sent && t !in s.sent ==> t.attempt == s.attemptOf[copy.id]
    requires PhaseOk(s.signed, sent, copy.state, s.attemptOf[copy.id])
    ensures PhaseOk(more, sent, s.rows[id].state, s.attemptOf[id])
  {
    if id != copy.id {
      assert PhaseOk(s.signed, s.sent, s.rows[id].state, s.attemptOf[id]);
      assert s.attemptOf[id] != s.attemptOf[copy.id];
    }
  }

  /** The state a turn proposes is one the history allows. */
  lemma TurnIsJustified(s: System, copy: Order, checkedAt: int, world: World, retryFrom: int, reached: bool, a: nat,
                        sent: set<Transmission>)
    requires HonestAnswer(s, copy, world, reached) && AllowOk(s) && SentOk(s.(sent := sent))
    requires PhaseOk(s.signed, sent, copy.state, a)
    requires !s.allowBroadcast ==> sent == s.sent
    ensures var turn := TurnOf(s.allowBroadcast, copy, checkedAt, world, retryFrom);
            turn.Persist? ==> ProposalOk(s, s.signed + NewSignature(copy, checkedAt, world), sent, a, copy, turn.order)
  {
    hide AllowOk, SentOk, PhaseOk, HonestAnswer, CauseOk, NewSignature, ProposalOk, Perform, Apply;
    if !BackingOff(copy, checkedAt) {
      match copy.state
      case SwapReady(_, _, _) => SigningJustified(s, copy, checkedAt, world, retryFrom, reached, a, sent);
      case Broadcasting(_, _, _, _, _) => SendingJustified(s, copy, checkedAt, world, retryFrom, reached, a, sent);
      case Submitted(_, _, _, _, _) => ReceiptJustified(s, copy, checkedAt, world, retryFrom, reached, a, sent);
      case _ =>
    }
  }

  predicate ProposalOk(s: System, signed: map<string, string>, sent: set<Transmission>, a: nat, base: Order,
                       next: Order)
  {
    && PhaseOk(signed, sent, next.state, a)
    && (next.state.Failed? ==> CauseOk(s.fates, sent, s.turnedOff, a, CauseOf(base, next)))
  }

  lemma SigningJustified(s: System, copy: Order, checkedAt: int, world: World, retryFrom: int, reached: bool, a: nat,
                         sent: set<Transmission>)
    requires copy.state.SwapReady? && HonestAnswer(s, copy, world, reached) && PhaseOk(s.signed, sent, copy.state, a)
    ensures var turn := TurnOf(s.allowBroadcast, copy, checkedAt, world, retryFrom);
            turn.Persist? ==> ProposalOk(s, s.signed + NewSignature(copy, checkedAt, world), sent, a, copy, turn.order)
  {
  }

  lemma SendingJustified(s: System, copy: Order, checkedAt: int, world: World, retryFrom: int, reached: bool, a: nat,
                         sent: set<Transmission>)
    requires copy.state.Broadcasting? && HonestAnswer(s, copy, world, reached) && PhaseOk(s.signed, sent, copy.state, a)
    requires AllowOk(s) && (!s.allowBroadcast ==> sent == s.sent)
    ensures var turn := TurnOf(s.allowBroadcast, copy, checkedAt, world, retryFrom);
            turn.Persist? ==> ProposalOk(s, s.signed + NewSignature(copy, checkedAt, world), sent, a, copy, turn.order)
  {
    hide AllowOk, CauseOk;
    BlockedSentNothing(s, a, sent);
    NothingSigned(s, copy, checkedAt, world);
  }

  /** What a receipt check can lead to. */
  lemma ReceiptTurn(allowBroadcast: bool, copy: Order, checkedAt: int, world: World, retryFrom: int)
    requires copy.state.Submitted?
    ensures var turn := TurnOf(allowBroadcast, copy, checkedAt, world, retryFrom);
            turn.Persist? ==>
              var next := turn.order.state;
              || next.Filled?
              || (next.SwapReady? && Signable(copy.state))
              || (next.Failed? && CauseOf(copy, turn.order).TimedOut?)
              || (next.Failed? && CauseOf(copy, turn.order).RevertedEnd? && world.receipt == Ok(RevertedOnChain))
  {
    hide SwapRetryBackoffSecs;
  }

  lemma ReceiptJustified(s: System, copy: Order, checkedAt: int, world: World, retryFrom: int, reached: bool, a: nat,
                         sent: set<Transmission>)
    requires copy.state.Submitted? && HonestAnswer(s, copy, world, reached) && PhaseOk(s.signed, sent, copy.state, a)
    requires SentOk(s.(sent := sent))
    ensures var turn := TurnOf(s.allowBroadcast, copy, checkedAt, world, retryFrom);
            turn.Persist? ==> ProposalOk(s, s.signed + NewSignature(copy, checkedAt, world), sent, a, copy, turn.order)
  {
    hide SentOk, HonestAnswer, TurnOf, CauseOf;
    ReceiptTurn(s.allowBroadcast, copy, checkedAt, world, retryFrom);
    RevertedSwapsRejected(s, copy, world, reached, a, sent);
    NothingSigned(s, copy, checkedAt, world);
  }

  lemma NothingSigned(s: System, copy: Order, checkedAt: int, world: World)
    requires !copy.state.SwapReady?
    ensures s.signed + NewSignature(copy, checkedAt, world) == s.signed
  {
  }

  lemma BlockedSentNothing(s: System, a: nat, sent: set<Transmission>)
    requires AllowOk(s) && (!s.allowBroadcast ==> sent == s.sent)
    ensures !s.allowBroadcast ==> CauseOk(s.fates, sent, s.turnedOff, a, Blocked)
  {
  }

  lemma RevertedSwapsRejected(s: System, copy: Order, world: World, reached: bool, a: nat, sent: set<Transmission>)
    requires copy.state.Submitted? && HonestAnswer(s, copy, world, reached) && SentOk(s.(sent := sent))
    requires PhaseOk(s.signed, sent, copy.state, a)
    ensures world.receipt == Ok(RevertedOnChain) ==> CauseOk(s.fates, sent, s.turnedOff, a, RevertedEnd)
  {
    forall t | t in sent && t.attempt == a && t.step.Swap? && world.receipt == Ok(RevertedOnChain)
      ensures t.wire in s.fates && s.fates[t.wire].Rejected?
    {
      assert TransmissionOk(s.(sent := sent), t);
    }
  }

  /** Only the newest attempt of a live row transmits, so what ended attempts rule out stays ruled out. */
  lemma TurnKeepsCauses(s: System, a: nat, sent: set<Transmission>)
    requires CausesOk(s) && !Ended(s, a) && s.sent <= sent
    requires forall t :: t in sent && t !in s.sent ==> t.attempt == a
    ensures CausesOk(s.(sent := sent))
  {
    forall b | b in s.ended ensures CauseOk(s.fates, sent, s.turnedOff, b, s.ended[b]) {
      assert CauseOk(s.fates, s.sent, s.turnedOff, b, s.ended[b]);
    }
  }

  /** The part of the state a turn may change, once the copy is an open row. */
  function Turned(s: System, sweeper: Sweeper, clock: int, signed: map<string, string>, sent: set<Transmission>,
                  failures: seq<seq<int>>): System
  {
    s.(sweeper := sweeper, clock := clock, signed := signed, sent := sent, failures := failures)
  }

  lemma TurnKeepsHistory(s: System, t: System, copy: Order)
    requires AttemptsOk(s) && EndedOk(s) && SentOk(s) && PhasesOk(s) && CausesOk(s) && AllowOk(s) && IsRow(s.rows, copy)
    requires !copy.IsTerminal()
    requires t == Turned(s, t.sweeper, t.clock, t.signed, t.sent, t.failures) && |t.failures| == |s.failures|
    requires Extends(s.signed, t.signed) && s.sent <= t.sent && (!s.allowBroadcast ==> t.sent == s.sent)
    requires forall x :: x in t.sent && x !in s.sent ==> TransmissionOk(s, x) && x.attempt == s.attemptOf[copy.id]
    requires PhaseOk(s.signed, t.sent, copy.state, s.attemptOf[copy.id])
    ensures AttemptsOk(t) && EndedOk(t) && SentOk(t) && PhasesOk(t) && CausesOk(t) && AllowOk(t)
  {
    hide PhaseOk, CauseOk, AttemptsOk, EndedOk, SentOk, PhasesOk, CausesOk, Extends;
    AttemptsHaveRows(s, copy.id);
    TurnKeepsAttempts(s, t, copy);
    TurnKeepsSent(s, t, copy);
    forall id | id in t.rows && id in t.attemptOf ensures PhaseOk(t.signed, t.sent, t.rows[id].state, t.attemptOf[id]) {
      OtherPhasesKept(s, copy, t.sent, t.signed, id);
    }
    PhasesEach(t);
    TurnKeepsCauses(s, s.attemptOf[copy.id], t.sent);
    CausesDependOn(s.(sent := t.sent), t);
  }

  lemma PhasesEach(t: System)
    requires forall id :: id in t.rows && id in t.attemptOf ==>
               PhaseOk(t.signed, t.sent, t.rows[id].state, t.attemptOf[id])
    ensures PhasesOk(t)
  {
  }

  lemma CausesDependOn(s: System, t: System)
    requires CausesOk(s) && t.ended == s.ended && t.fates == s.fates && t.sent == s.sent && t.turnedOff == s.turnedOff
    ensures CausesOk(t)
  {
    hide CauseOk;
  }

  lemma TurnKeepsAttempts(s: System, t: System, copy: Order)
    requires AttemptsOk(s) && EndedOk(s) && IsRow(s.rows, copy) && !copy.IsTerminal()
    requires t == Turned(s, t.sweeper, t.clock, t.signed, t.sent, t.failures) && |t.failures| == |s.failures|
    ensures AttemptsOk(t) && EndedOk(t) && copy.id in s.attemptOf && !Ended(s, s.attemptOf[copy.id])
  {
    assert forall a :: Ended(s, a) == Ended(t, a);
    assert forall a :: Tracked(s, a) == Tracked(t, a);
    hide Tracked;
  }

  lemma TurnKeepsSent(s: System, t: System, copy: Order)
    requires SentOk(s) && Extends(s.signed, t.signed) && t.attemptLevel == s.attemptLevel
    requires forall x :: x in t.sent && x !in s.sent ==> TransmissionOk(s, x)
    ensures SentOk(t)
  {
    forall x | x in t.sent ensures TransmissionOk(t, x) {
      assert TransmissionOk(s, x);
    }
  }

  lemma TurnKeepsLedger(s: System, checkedAt: int, world: World, retryFrom: int, reached: bool)
    requires LedgerInv(s) && Enabled(s, TakeTurn(checkedAt, world, retryFrom, reached))
    ensures LedgerInv(Next(s, TakeTurn(checkedAt, world, retryFrom, reached)))
  {
    hide TurnOf, RowsOk, OneLive, QueueFresh, TriggerOk, AttemptsOk, EndedOk, SentOk, SameBytes, PhasesOk, CausesOk,
        AllowOk, PhaseOk, CauseOk, NewSignature, NewTransmissions, HonestAnswer, Extends, Continues;
    var e := TakeTurn(checkedAt, world, retryFrom, reached);
    StepKeepsRowInv(s, e);
    var copy := s.sweeper.copy;
    var t := Next(s, e);
    if copy.IsTerminal() {
      TerminalTurn(s, copy, checkedAt, world, retryFrom, reached);
      SweeperIrrelevant(s, t);
    } else {
      RowsHaveAttempts(s, copy);
      SignatureExtends(s, copy, checkedAt, world, reached);
      TransmissionKeepsHistory(s, copy, checkedAt, reached);
      NoneWhenDisallowed(s, copy, checkedAt, reached);
      TurnKeepsHistory(s, t, copy);
      SentDependsOn(s.(sent := t.sent), t, s, copy);
      TurnIsJustified(s, copy, checkedAt, world, retryFrom, reached, s.attemptOf[copy.id], t.sent);
    }
  }

  lemma RowsHaveAttempts(s: System, copy: Order)
    requires AttemptsOk(s) && IsRow(s.rows, copy)
    ensures copy.id in s.attemptOf && AttemptOf(s, copy.id) == s.attemptOf[copy.id]
  {
  }

  lemma NoneWhenDisallowed(s: System, copy: Order, checkedAt: int, reached: bool)
    ensures !s.allowBroadcast ==> s.sent + NewTransmissions(s, copy, checkedAt, reached) == s.sent
  {
  }

  lemma TerminalTurn(s: System, copy: Order, checkedAt: int, world: World, retryFrom: int, reached: bool)
    requires copy.IsTerminal()
    ensures TurnOf(s.allowBroadcast, copy, checkedAt, world, retryFrom).Stop?
    ensures s.signed + NewSignature(copy, checkedAt, world) == s.signed
    ensures s.sent + NewTransmissions(s, copy, checkedAt, reached) == s.sent && !SendFails(s, copy, checkedAt, world)
  {
  }

  lemma SentDependsOn(u: System, t: System, s: System, copy: Order)
    requires u == s.(sent := t.sent) && SentOk(s) && AttemptsOk(s) && IsRow(s.rows, copy)
    requires forall x :: x in t.sent && x !in s.sent ==> TransmissionOk(s, x) && x.attempt == s.attemptOf[copy.id]
    ensures SentOk(u)
  {
    forall x | x in u.sent ensures TransmissionOk(u, x) {
      assert TransmissionOk(s, x);
    }
  }

  /** The ledger predicates do not look at the sweeper or the clock, except for a pending write. */
  lemma SweeperIrrelevant(s: System, t: System)
    requires t == s.(sweeper := t.sweeper, clock := t.clock, trigger := t.trigger, clean := t.clean)
    ensures && (AttemptsOk(s) ==> AttemptsOk(t)) && (EndedOk(s) ==> EndedOk(t)) && (SentOk(s) ==> SentOk(t))
            && (PhasesOk(s) ==> PhasesOk(t)) && (CausesOk(s) ==> CausesOk(t)) && (AllowOk(s) ==> AllowOk(t))
  {
    hide AttemptsOk, EndedOk, SentOk, PhasesOk;
    AttemptsTransfer(s, t);
  }

  // ---------------------------------------------------------------- storing a row

  /** Storing the continuation of an open row, or releasing a quarantined one, ends an attempt exactly when it fails. */
  lemma ReplaceKeepsLedger(s: System, t: System, next: Order, cause: EndCause)
    requires AttemptsOk(s) && EndedOk(s) && SentOk(s) && PhasesOk(s) && CausesOk(s) && AllowOk(s)
    requires Replaces(s.rows, next) && PhaseOk(s.signed, s.sent, next.state, s.attemptOf[next.id])
    requires next.state.Failed? ==> CauseOk(s.fates, s.sent, s.turnedOff, s.attemptOf[next.id], cause)
    requires t == s.(rows := s.rows[next.id := next], sweeper := t.sweeper, clean := t.clean,
                     ended := if next.state.Failed? then s.ended[s.attemptOf[next.id] := cause] else s.ended)
    ensures AttemptsOk(t) && EndedOk(t) && SentOk(t) && PhasesOk(t) && CausesOk(t) && AllowOk(t)
  {
    hide PhaseOk, CauseOk, AttemptsOk, EndedOk, SentOk, PhasesOk, CausesOk;
    AttemptsHaveRows(s, next.id);
    ReplaceKeepsEnded(s, t, next, cause);
    ReplaceKeepsSent(s, t);
    ReplaceKeepsPhases(s, t, next);
    ReplaceKeepsCauses(s, t, s.attemptOf[next.id], next.state.Failed?, cause);
  }

  lemma AttemptsHaveRows(s: System, id: string)
    requires AttemptsOk(s) && id in s.rows
    ensures id in s.attemptOf
  {
  }

  lemma ReplaceKeepsSent(s: System, t: System)
    requires SentOk(s) && t.sent == s.sent && t.signed == s.signed && t.attemptLevel == s.attemptLevel
    ensures SentOk(t)
  {
    assert forall x :: TransmissionOk(s, x) == TransmissionOk(t, x);
  }

  lemma ReplaceKeepsPhases(s: System, t: System, next: Order)
    requires PhasesOk(s) && next.id in s.attemptOf && PhaseOk(s.signed, s.sent, next.state, s.attemptOf[next.id])
    requires t.rows == s.rows[next.id := next] && t.attemptOf == s.attemptOf && t.signed == s.signed && t.sent == s.sent
    ensures PhasesOk(t)
  {
    hide PhaseOk;
    forall id | id in t.rows && id in t.attemptOf ensures PhaseOk(t.signed, t.sent, t.rows[id].state, t.attemptOf[id]) {
      if id != next.id {
        assert PhaseOk(s.signed, s.sent, s.rows[id].state, s.attemptOf[id]);
      }
    }
  }

  lemma ReplaceKeepsCauses(s: System, t: System, a: nat, failed: bool, cause: EndCause)
    requires CausesOk(s) && (failed ==> CauseOk(s.fates, s.sent, s.turnedOff, a, cause))
    requires t.fates == s.fates && t.sent == s.sent && t.turnedOff == s.turnedOff
    requires t.ended == if failed then s.ended[a := cause] else s.ended
    ensures CausesOk(t)
  {
    hide CauseOk;
  }

  lemma ReplaceKeepsEnded(s: System, t: System, next: Order, cause: EndCause)
    requires AttemptsOk(s) && EndedOk(s) && Replaces(s.rows, next)
    requires t == s.(rows := s.rows[next.id := next], sweeper := t.sweeper, clean := t.clean,
                     ended := if next.state.Failed? then s.ended[s.attemptOf[next.id] := cause] else s.ended)
    ensures EndedOk(t) && AttemptsOk(t)
  {
    MoreEnded(s, t);
    ReplacedRowEnded(s, t, next, cause);
  }

  lemma MoreEnded(s: System, t: System)
    requires EndedOk(s) && t.attemptOf == s.attemptOf && t.attemptLevel == s.attemptLevel
             && s.ended.Keys <= t.ended.Keys
    ensures forall a :: 0 <= a < |t.attemptLevel| ==> Tracked(t, a)
    ensures forall a, b :: 0 <= a < b < |t.attemptLevel| && t.attemptLevel[a] == t.attemptLevel[b] ==> Ended(t, a)
  {
    forall a | 0 <= a < |t.attemptLevel| ensures Tracked(t, a) {
      assert Tracked(s, a);
    }
    forall a, b | 0 <= a < b < |t.attemptLevel| && t.attemptLevel[a] == t.attemptLevel[b] ensures Ended(t, a) {
      assert Ended(s, a);
    }
  }

  lemma ReplacedRowEnded(s: System, t: System, next: Order, cause: EndCause)
    requires AttemptsOk(s) && EndedOk(s) && Replaces(s.rows, next)
    requires t.rows == s.rows[next.id := next] && t.attemptOf == s.attemptOf && t.attemptLevel == s.attemptLevel
             && t.failures == s.failures
    requires t.ended == if next.state.Failed? then s.ended[s.attemptOf[next.id] := cause] else s.ended
    ensures AttemptsOk(t)
    ensures forall a :: a in t.ended ==> a < |t.attemptLevel|
    ensures forall id :: id in t.rows && id in t.attemptOf ==> (t.rows[id].state.Failed? <==> Ended(t, t.attemptOf[id]))
  {
    hide EndedOk;
    ReplaceKeepsAttempts(s, t, next);
    EndedAreAttempts(s, t, s.attemptOf[next.id]);
    forall id | id in t.rows && id in t.attemptOf ensures t.rows[id].state.Failed? <==> Ended(t, t.attemptOf[id]) {
      RowEndedIff(s, id);
      RowEndedIff(s, next.id);
    }
  }

  lemma ReplaceKeepsAttempts(s: System, t: System, next: Order)
    requires AttemptsOk(s) && Replaces(s.rows, next)
    requires t.rows == s.rows[next.id := next] && t.attemptOf == s.attemptOf && t.attemptLevel == s.attemptLevel
             && t.failures == s.failures
    ensures AttemptsOk(t)
  {
  }

  lemma EndedAreAttempts(s: System, t: System, a: nat)
    requires EndedOk(s) && a < |s.attemptLevel| && t.attemptLevel == s.attemptLevel
             && t.ended.Keys <= s.ended.Keys + {a}
    ensures forall b :: b in t.ended ==> b < |t.attemptLevel|
  {
    hide Tracked;
  }

  lemma RowEndedIff(s: System, id: string)
    requires EndedOk(s) && id in s.rows && id in s.attemptOf
    ensures s.rows[id].state.Failed? <==> Ended(s, s.attemptOf[id])
  {
    hide Tracked;
  }

  lemma StoreKeepsLedger(s: System, fate: WriteFate)
    requires LedgerInv(s) && Enabled(s, Store(fate))
    ensures LedgerInv(Next(s, Store(fate)))
  {
    hide AttemptsOk, EndedOk, SentOk, SameBytes, PhasesOk, CausesOk, AllowOk, PhaseOk, CauseOk, RowsOk, OneLive,
        TriggerOk, QueueFresh, Queued, SpendsReserved, Upsert, CauseOf;
    StepKeepsRowInv(s, Store(fate));
    var w := s.sweeper;
    var t := Next(s, Store(fate));
    RowsHaveAttempts(s, w.base);
    if fate.Lost? {
      SweeperIrrelevant(s, t);
    } else {
      ReplaceKeepsRows(s.rows, w.next);
      ReplaceKeepsLedger(s, t, w.next, CauseOf(w.base, w.next));
    }
  }

  lemma ReleaseKeepsLedger(s: System, orderId: string)
    requires LedgerInv(s) && Enabled(s, Release(orderId))
    ensures LedgerInv(Next(s, Release(orderId)))
  {
    hide AttemptsOk, EndedOk, SentOk, SameBytes, PhasesOk, CausesOk, AllowOk, OneLive, TriggerOk, SweeperOk, Upsert,
        SpendsReserved, RowInv;
    StepKeepsRowInv(s, Release(orderId));
    ReleaseParts(s, orderId);
    var t := Next(s, Release(orderId));
    var row := s.rows[orderId];
    var next := Released(row);
    RowsHaveAttempts(s, row);
    ReplaceKeepsLedger(s, t, next, OperatorRelease);
    ReleaseKeepsPending(s, t, row);
  }

  lemma ReleaseParts(s: System, orderId: string)
    requires RowInv(s) && Enabled(s, Release(orderId))
    ensures var row := s.rows[orderId];
            row.id == orderId && IsRow(s.rows, row) && Replaces(s.rows, Released(row))
            && Next(s, Release(orderId)).rows == s.rows[orderId := Released(row)]
            && (s.sweeper.Writing? ==> s.sweeper.base.id != orderId)
  {
    var row := s.rows[orderId];
    assert RowOk(orderId, row);
    QuarantinedNotHeld(s.rows, s.sweeper, row);
  }

  lemma ReleaseKeepsPending(s: System, t: System, row: Order)
    requires PendingOk(s) && t.sweeper == s.sweeper && t.attemptOf == s.attemptOf && t.signed == s.signed
    requires t.sent == s.sent && t.fates == s.fates && t.turnedOff == s.turnedOff
    ensures PendingOk(t)
  {
  }

  // ---------------------------------------------------------------- restarts and the chain

  /** Attempts and transmissions are untouched by steps that leave their components alone. */
  lemma AttemptsTransfer(s: System, t: System)
    requires t.rows == s.rows && t.attemptOf == s.attemptOf && t.attemptLevel == s.attemptLevel && t.ended == s.ended
    requires t.failures == s.failures && t.sent == s.sent && t.signed == s.signed
    ensures AttemptsOk(s) ==> AttemptsOk(t)
    ensures EndedOk(s) ==> EndedOk(t)
    ensures SentOk(s) ==> SentOk(t)
    ensures PhasesOk(s) ==> PhasesOk(t)
  {
    hide PhaseOk;
    if EndedOk(s) { MoreEnded(s, t); }
    assert forall a :: Ended(s, a) == Ended(t, a);
    assert forall x :: TransmissionOk(s, x) == TransmissionOk(t, x);
  }

  lemma RestartKeepsLedger(s: System, allow: bool)
    requires LedgerInv(s)
    ensures LedgerInv(Next(s, Restart(allow)))
  {
    hide RowInv, AttemptsOk, EndedOk, SentOk, PhasesOk;
    StepKeepsRowInv(s, Restart(allow));
    var t := Next(s, Restart(allow));
    AttemptsTransfer(s, t);
    forall a | a in t.ended ensures CauseOk(t.fates, t.sent, t.turnedOff, a, t.ended[a]) {
      assert CauseOk(s.fates, s.sent, s.turnedOff, a, s.ended[a]);
    }
  }

  lemma SettleKeepsLedger(s: System, wire: string, fate: ChainFate)
    requires LedgerInv(s) && Enabled(s, Settle(wire, fate))
    ensures LedgerInv(Next(s, Settle(wire, fate)))
  {
    hide RowInv, PhaseOk, AttemptsOk, EndedOk, SentOk, PhasesOk;
    StepKeepsRowInv(s, Settle(wire, fate));
    var t := Next(s, Settle(wire, fate));
    AttemptsTransfer(s, t);
    forall a | a in t.ended ensures CauseOk(t.fates, t.sent, t.turnedOff, a, t.ended[a]) {
      assert CauseOk(s.fates, s.sent, s.turnedOff, a, s.ended[a]);
    }
  }

  lemma InitHasLedger(allow: bool, clock: int)
    ensures LedgerInv(Init(allow, clock))
  {
  }

  /** Every step keeps the ledger invariant. */
  lemma StepKeepsLedger(s: System, e: Event)
    requires LedgerInv(s) && Enabled(s, e)
    ensures LedgerInv(Next(s, e))
  {
    hide LedgerInv;
    match e
    case PlaceOrder(accepted, fate) => PlaceKeepsLedger(s, accepted, fate);
    case TakeTurn(checkedAt, world, retryFrom, reached) => TurnKeepsLedger(s, checkedAt, world, retryFrom, reached);
    case Store(fate) => StoreKeepsLedger(s, fate);
    case Release(orderId) => ReleaseKeepsLedger(s, orderId);
    case Restart(allow) => RestartKeepsLedger(s, allow);
    case Settle(wire, fate) => SettleKeepsLedger(s, wire, fate);
    case _ => QuietStepKeepsLedger(s, e);
  }

  lemma QuietStepKeepsLedger(s: System, e: Event)
    requires LedgerInv(s) && Enabled(s, e)
    requires e.TakeSnapshot? || e.FinishTick? || e.ListOpen? || e.StartNext? || e.EndPass? || e.FinishSweep?
    ensures LedgerInv(Next(s, e))
  {
    hide AttemptsOk, EndedOk, SentOk, SameBytes, PhasesOk, CausesOk, AllowOk, RowInv, PhaseOk, CauseOk;
    StepKeepsRowInv(s, e);
    SweeperIrrelevant(s, Next(s, e));
  }
}
