/** Safety of the durable rows against stale snapshots and working copies: at most one live order per level. */
module RowInvariant {
  import opened OrderMachine
  import opened DriveOrder
  import opened OrderIds
  import opened Lifecycle

  ghost predicate Named(row: Order) {
    exists publishedAt: nat :: row.id == OrderId(row.levelId, publishedAt)
  }

  ghost predicate RowOk(id: string, row: Order) {
    row.id == id && Named(row) && SpendsReserved(row) && row.swapAttempts <= SWAP_RETRY_CAP
  }

  ghost predicate RowsOk(rows: map<string, Order>) {
    forall id :: id in rows ==> RowOk(id, rows[id])
  }

  /** No level has two orders that are not failed. */
  predicate OneLive(rows: map<string, Order>) {
    forall i, j :: i in rows && j in rows && i != j && rows[i].levelId == rows[j].levelId ==>
      rows[i].state.Failed? || rows[j].state.Failed?
  }

  predicate AllFailed(rows: map<string, Order>, levelId: string) {
    forall id :: id in rows && rows[id].levelId == levelId ==> rows[id].state.Failed?
  }

  /** Every level the trigger still means to place has only failed rows, now and not just in the snapshot. */
  predicate TriggerOk(rows: map<string, Order>, trigger: Trigger) {
    trigger.Placing? ==>
      DistinctLevels(trigger.pending)
      && forall i :: 0 <= i < |trigger.pending| ==> AllFailed(rows, trigger.pending[i].id)
  }

  predicate Queued(queue: seq<Order>, id: string) {
    exists i :: 0 <= i < |queue| && queue[i].id == id
  }

  predicate IsRow(rows: map<string, Order>, copy: Order) {
    copy.id in rows && rows[copy.id] == copy
  }

  /** `next` is `base` moved on by one turn. */
  predicate Continues(base: Order, next: Order) {
    next.id == base.id && next.levelId == base.levelId && next.reservedAmount == base.reservedAmount
    && next.createdAt == base.createdAt && SpendsReserved(next) && next.swapAttempts <= SWAP_RETRY_CAP
  }

  /** An open working copy is the stored row; a finished copy is never written again. */
  predicate SweeperOk(rows: map<string, Order>, sweeper: Sweeper) {
    match sweeper
    case Resting => true
    case Listed(queue) => QueueFresh(rows, queue)
    case Driving(copy, _, queue) =>
      QueueFresh(rows, queue) && !Queued(queue, copy.id) && (copy.IsTerminal() || IsRow(rows, copy))
    case Writing(base, next, _, _, queue) =>
      QueueFresh(rows, queue) && !Queued(queue, base.id) && !base.IsTerminal() && IsRow(rows, base)
      && Continues(base, next)
  }

  ghost predicate RowInv(s: System) {
    RowsOk(s.rows) && OneLive(s.rows) && TriggerOk(s.rows, s.trigger) && SweeperOk(s.rows, s.sweeper)
  }

  // ---------------------------------------------------------------- replacing a row by its continuation

  /** A write that keeps id and level, and does not revive a failed row. */
  predicate Replaces(rows: map<string, Order>, next: Order) {
    next.id in rows && next.levelId == rows[next.id].levelId && next.createdAt == rows[next.id].createdAt
    && !rows[next.id].state.Failed?
  }

  lemma ReplaceKeepsRows(rows: map<string, Order>, next: Order)
    requires RowsOk(rows) && OneLive(rows) && Replaces(rows, next)
    requires SpendsReserved(next) && next.swapAttempts <= SWAP_RETRY_CAP
    ensures var after := Upsert(rows, next); RowsOk(after) && OneLive(after) && after == rows[next.id := next]
  {
    var publishedAt: nat :| rows[next.id].id == OrderId(rows[next.id].levelId, publishedAt);
    assert next.id == OrderId(next.levelId, publishedAt);
    assert Named(next);
  }

  lemma ReplaceKeepsTrigger(rows: map<string, Order>, next: Order, trigger: Trigger)
    requires Replaces(rows, next) && TriggerOk(rows, trigger)
    ensures TriggerOk(Upsert(rows, next), trigger)
  {
    if trigger.Placing? {
      forall i | 0 <= i < |trigger.pending| ensures AllFailed(Upsert(rows, next), trigger.pending[i].id) {
        assert AllFailed(rows, trigger.pending[i].id);
      }
    }
  }

  lemma ReplaceKeepsQueue(rows: map<string, Order>, next: Order, queue: seq<Order>)
    requires QueueFresh(rows, queue) && !Queued(queue, next.id)
    ensures QueueFresh(Upsert(rows, next), queue)
  {
  }

  lemma StoreKeeps(s: System, fate: WriteFate)
    requires RowInv(s) && Enabled(s, Store(fate))
    ensures RowInv(Next(s, Store(fate)))
  {
    hide RowsOk, OneLive, TriggerOk, QueueFresh, Queued, SpendsReserved, Upsert;
    var w := s.sweeper;
    if !fate.Lost? {
      ReplaceKeepsRows(s.rows, w.next);
      ReplaceKeepsTrigger(s.rows, w.next, s.trigger);
      ReplaceKeepsQueue(s.rows, w.next, w.queue);
    }
  }

  // ---------------------------------------------------------------- placing a row for a level without live ones

  lemma PlacedOverFailed(rows: map<string, Order>, entry: LevelEntry, publishedAt: nat)
    requires RowsOk(rows) && AllFailed(rows, entry.id)
    ensures var id := OrderId(entry.id, publishedAt);
            id in rows ==> rows[id].levelId == entry.id && rows[id].state.Failed?
  {
    hide OrderId, SpendsReserved;
    var id := OrderId(entry.id, publishedAt);
    if id in rows {
      assert RowOk(id, rows[id]);
      var before: nat :| rows[id].id == OrderId(rows[id].levelId, before);
      OrderIdInjective(rows[id].levelId, before, entry.id, publishedAt);
    }
  }

  lemma NewRowOk(rows: map<string, Order>, entry: LevelEntry, publishedAt: nat, now: int)
    ensures var id := OrderId(entry.id, publishedAt);
            RowOk(id, Upsert(rows, NewOrder(id, entry.id, entry.amount, now))[id])
  {
    hide OrderId;
    var id := OrderId(entry.id, publishedAt);
    var row := Upsert(rows, NewOrder(id, entry.id, entry.amount, now))[id];
    assert row.id == OrderId(row.levelId, publishedAt);
    assert Named(row);
  }

  lemma PlaceKeepsRows(rows: map<string, Order>, entry: LevelEntry, publishedAt: nat, now: int)
    requires RowsOk(rows) && OneLive(rows) && AllFailed(rows, entry.id)
    ensures var id := OrderId(entry.id, publishedAt);
            var after := Upsert(rows, NewOrder(id, entry.id, entry.amount, now));
            && RowsOk(after) && OneLive(after)
            && (id in rows ==> rows[id].levelId == entry.id && rows[id].state.Failed?)
            && after.Keys == rows.Keys + {id} && after[id].levelId == entry.id && after[id].id == id
            && (forall k :: k in rows && k != id ==> after[k] == rows[k])
  {
    hide OrderId, RowOk;
    PlacedOverFailed(rows, entry, publishedAt);
    NewRowOk(rows, entry, publishedAt, now);
  }

  lemma PlaceKeepsPending(rows: map<string, Order>, after: map<string, Order>, id: string, pending: seq<LevelEntry>)
    requires pending != [] && DistinctLevels(pending)
    requires forall i :: 0 <= i < |pending| ==> AllFailed(rows, pending[i].id)
    requires after.Keys == rows.Keys + {id} && after[id].levelId == pending[0].id
    requires forall k :: k in rows && k != id ==> after[k] == rows[k]
    ensures DistinctLevels(pending[1..]) && forall i :: 0 <= i < |pending[1..]| ==> AllFailed(after, pending[1..][i].id)
  {
    forall i | 0 <= i < |pending[1..]| ensures AllFailed(after, pending[1..][i].id) {
      assert pending[1..][i] == pending[i + 1];
    }
  }

  lemma PlaceKeepsSweeper(rows: map<string, Order>, after: map<string, Order>, id: string, sweeper: Sweeper)
    requires SweeperOk(rows, sweeper)
    requires id in rows ==> rows[id].state.Failed?
    requires after.Keys == rows.Keys + {id}
    requires forall k :: k in rows && k != id ==> after[k] == rows[k]
    ensures SweeperOk(after, sweeper)
  {
  }

  lemma PlaceKeeps(s: System, accepted: bool, fate: WriteFate)
    requires RowInv(s) && Enabled(s, PlaceOrder(accepted, fate))
    ensures RowInv(Next(s, PlaceOrder(accepted, fate)))
  {
    hide RowsOk, OneLive, AllFailed, SweeperOk, Upsert, OrderId;
    var pending := s.trigger.pending;
    var entry := pending[0];
    if accepted && !fate.Lost? {
      var id := OrderId(entry.id, s.trigger.publishedAt);
      var after := Upsert(s.rows, NewOrder(id, entry.id, entry.amount, s.trigger.now));
      PlaceKeepsRows(s.rows, entry, s.trigger.publishedAt, s.trigger.now);
      PlaceKeepsPending(s.rows, after, id, pending);
      PlaceKeepsSweeper(s.rows, after, id, s.sweeper);
    } else {
      assert forall i :: 0 <= i < |pending[1..]| ==> pending[1..][i] == pending[i + 1];
    }
  }

  // ---------------------------------------------------------------- the other steps

  lemma SnapshotKeeps(s: System, entries: seq<LevelEntry>, publishedAt: nat, now: int)
    requires RowInv(s) && Enabled(s, TakeSnapshot(entries, publishedAt, now))
    ensures RowInv(Next(s, TakeSnapshot(entries, publishedAt, now)))
  {
    forall i | 0 <= i < |entries| ensures AllFailed(s.rows, entries[i].id) {
      assert !IsSpent(entries[i].id, s.rows);
    }
  }

  lemma StartKeeps(s: System)
    requires RowInv(s) && Enabled(s, StartNext)
    ensures RowInv(Next(s, StartNext))
  {
    var queue := s.sweeper.queue;
    assert forall i :: 0 <= i < |queue[1..]| ==> queue[1..][i] == queue[i + 1];
  }

  lemma TurnKeeps(s: System, checkedAt: int, world: World, retryFrom: int, reached: bool)
    requires RowInv(s) && Enabled(s, TakeTurn(checkedAt, world, retryFrom, reached))
    ensures RowInv(Next(s, TakeTurn(checkedAt, world, retryFrom, reached)))
  {
    hide Next, Enabled, TurnOf, SpendsReserved, RowsOk, OneLive, QueueFresh, TriggerOk, NewSignature, NewTransmissions,
        SendFails, RecordFailure, HonestAnswer;
    TurnFacts(s, checkedAt, world, retryFrom, reached);
    var copy := s.sweeper.copy;
    if copy.IsTerminal() {
      TerminalStops(s.allowBroadcast, copy, checkedAt, world, retryFrom);
    } else {
      RowIsOk(s.rows, copy.id);
      TurnKeepsReservation(s.allowBroadcast, copy, checkedAt, world, retryFrom);
    }
  }

  lemma RowIsOk(rows: map<string, Order>, id: string)
    requires RowsOk(rows) && id in rows
    ensures RowOk(id, rows[id])
  {
  }

  lemma TerminalStops(allowBroadcast: bool, copy: Order, checkedAt: int, world: World, retryFrom: int)
    requires copy.IsTerminal()
    ensures TurnOf(allowBroadcast, copy, checkedAt, world, retryFrom).Stop?
  {
  }

  lemma ReleaseKeeps(s: System, orderId: string)
    requires RowInv(s) && Enabled(s, Release(orderId))
    ensures RowInv(Next(s, Release(orderId)))
  {
    hide OneLive, TriggerOk, SweeperOk, Upsert, SpendsReserved;
    var row := s.rows[orderId];
    assert RowOk(orderId, row);
    var next := Released(row);
    ReleasedSpends(row);
    ReplaceKeepsRows(s.rows, next);
    ReplaceKeepsTrigger(s.rows, next, s.trigger);
    ReleaseKeepsSweeper(s.rows, s.sweeper, row, next);
  }

  lemma ReleasedSpends(row: Order)
    requires row.state.SwapQuarantined?
    ensures SpendsReserved(Released(row)) && Released(row).id == row.id
  {
  }

  lemma ReleaseKeepsSweeper(rows: map<string, Order>, sweeper: Sweeper, row: Order, next: Order)
    requires SweeperOk(rows, sweeper) && IsRow(rows, row) && row.IsTerminal() && next.id == row.id
    ensures SweeperOk(Upsert(rows, next), sweeper)
  {
    hide QueueFresh, Queued, Continues;
    QuarantinedNotHeld(rows, sweeper, row);
    if !sweeper.Resting? {
      ReplaceKeepsQueue(rows, next, sweeper.queue);
    }
  }

  /** A quarantined row is in no queue, and no open copy is it. */
  lemma QuarantinedNotHeld(rows: map<string, Order>, sweeper: Sweeper, row: Order)
    requires SweeperOk(rows, sweeper) && IsRow(rows, row) && row.IsTerminal()
    ensures !sweeper.Resting? ==> !Queued(sweeper.queue, row.id)
    ensures sweeper.Driving? && !sweeper.copy.IsTerminal() ==> sweeper.copy.id != row.id
    ensures sweeper.Writing? ==> sweeper.base.id != row.id
  {
  }

  /** Every step keeps the row invariant. */
  lemma StepKeepsRowInv(s: System, e: Event)
    requires RowInv(s) && Enabled(s, e)
    ensures RowInv(Next(s, e))
  {
    match e
    case TakeSnapshot(entries, publishedAt, now) => SnapshotKeeps(s, entries, publishedAt, now);
    case PlaceOrder(accepted, fate) => PlaceKeeps(s, accepted, fate);
    case StartNext => StartKeeps(s);
    case TakeTurn(checkedAt, world, retryFrom, reached) => TurnKeeps(s, checkedAt, world, retryFrom, reached);
    case Store(fate) => StoreKeeps(s, fate);
    case Release(orderId) => ReleaseKeeps(s, orderId);
    case _ =>
  }
}
