/** handle_tick and place_order of crates/trigger/src/run.rs over the mutable order table and quiet map. */
module TriggerTick {
  import opened Wrappers
  import opened OrderMachine
  import opened DriveOrder
  import opened OrderIds
  import opened Lifecycle

  const PREFLIGHT_RETRY_SECS: int := 60

  /** What one placement meets: whether the venue quotes and the quote is accepted, and how the write ends. */
  datatype Reply = Reply(accepted: bool, fate: WriteFate)

  /** A stored level, whether the tick prices it and crosses its threshold, and what its placement would meet. */
  datatype Watched = Watched(entry: LevelEntry, fires: bool, reply: Reply)

  predicate IsQuiet(quiet: map<string, int>, levelId: string, now: int) {
    levelId in quiet && now < quiet[levelId]
  }

  /** Levels that fire and are not spent in the given orders, in the listed order. */
  function FiredLevels(levels: seq<Watched>, orders: map<string, Order>): seq<Watched> {
    if levels == [] then []
    else
      (if !IsSpent(levels[0].entry.id, orders) && levels[0].fires then [levels[0]] else [])
      + FiredLevels(levels[1..], orders)
  }

  datatype TickState = TickState(rows: map<string, Order>, quiet: map<string, int>, created: bool)

  /** One fired level: skipped while quiet or cooling down, else placed, else quieted. */
  function Attempt(orders: map<string, Order>, publishedAt: int, now: int, w: Watched, s: TickState): TickState {
    if IsQuiet(s.quiet, w.entry.id, now) || CoolingDown(w.entry.id, orders, now) then s
    else
      var placed := w.reply.accepted && !w.reply.fate.Lost?;
      var rows := if placed
                  then Upsert(s.rows, NewOrder(OrderId(w.entry.id, publishedAt), w.entry.id, w.entry.amount, now))
                  else s.rows;
      if w.reply.accepted && w.reply.fate.Committed? then TickState(rows, s.quiet - {w.entry.id}, true)
      else TickState(rows, s.quiet[w.entry.id := now + PREFLIGHT_RETRY_SECS], s.created)
  }

  function Attempts(orders: map<string, Order>, publishedAt: int, now: int, fired: seq<Watched>, s: TickState)
    : TickState
  {
    if fired == [] then s
    else Attempts(orders, publishedAt, now, fired[1..], Attempt(orders, publishedAt, now, fired[0], s))
  }

  class Runtime {
    var quiet: map<string, int>

    constructor ()
      ensures quiet == map[]
    {
      quiet := map[];
    }
  }

  // ---------------------------------------------------------------- what a tick is for

  /** A level the tick must try: it fires, has no order that is not failed and none that failed in the last minute,
      and was not turned away in the last minute. */
  predicate Due(orders: map<string, Order>, quiet: map<string, int>, now: int, w: Watched) {
    && w.fires
    && (forall id :: id in orders && orders[id].levelId == w.entry.id ==>
          orders[id].state.Failed? && now >= orders[id].createdAt + 60)
    && (w.entry.id in quiet ==> now >= quiet[w.entry.id])
  }

  /** An order that commits all of `amount` and has not been touched since it was recorded. */
  predicate Fresh(row: Order, id: string, entry: LevelEntry, createdAt: int) {
    && row.id == id && row.levelId == entry.id && row.createdAt == createdAt
    && row.reservedAmount == entry.amount && row.state == SwapReady(Swap, entry.amount, None)
    && row.swapAttempts == 0 && row.swapRetryAfterTs == None
  }

  function FirstCreated(rows: map<string, Order>, id: string, now: int): int {
    if id in rows then rows[id].createdAt else now
  }

  /** Nothing is placed but fresh orders of due levels, under their ids; every other row is as before. */
  predicate OnlyDuePlaced(levels: seq<Watched>, orders: map<string, Order>, publishedAt: int, now: int,
                          before: TickState, after: TickState)
  {
    && before.rows.Keys <= after.rows.Keys
    && forall id :: id in after.rows ==>
         || (id in before.rows && after.rows[id] == before.rows[id])
         || exists k :: 0 <= k < |levels| && PlacesUnder(levels[k], orders, publishedAt, now, before, id)
                        && Fresh(after.rows[id], id, levels[k].entry, FirstCreated(before.rows, id, now))
  }

  predicate PlacesUnder(w: Watched, orders: map<string, Order>, publishedAt: int, now: int, before: TickState,
                        id: string)
  {
    Due(orders, before.quiet, now, w) && w.reply.accepted && !w.reply.fate.Lost?
    && id == OrderId(w.entry.id, publishedAt)
  }

  /** A due level that is accepted has its fresh order, is quiet no longer if the write committed, and is quiet for
      the next minute otherwise. */
  predicate Served(w: Watched, publishedAt: int, now: int, before: TickState, after: TickState) {
    var id := OrderId(w.entry.id, publishedAt);
    && (w.reply.accepted && !w.reply.fate.Lost? ==>
          id in after.rows && Fresh(after.rows[id], id, w.entry, FirstCreated(before.rows, id, now)))
    && (if w.reply.accepted && w.reply.fate.Committed? then w.entry.id !in after.quiet
        else w.entry.id in after.quiet && after.quiet[w.entry.id] == now + 60)
  }

  predicate SameQuiet(levelId: string, before: TickState, after: TickState) {
    (levelId in after.quiet <==> levelId in before.quiet)
    && (levelId in before.quiet ==> after.quiet[levelId] == before.quiet[levelId])
  }

  predicate DueUnder(levels: seq<Watched>, orders: map<string, Order>, now: int, quiet: map<string, int>,
                     levelId: string)
  {
    exists k :: 0 <= k < |levels| && levels[k].entry.id == levelId && Due(orders, quiet, now, levels[k])
  }

  predicate Wakes(orders: map<string, Order>, now: int, quiet: map<string, int>, w: Watched) {
    Due(orders, quiet, now, w) && w.reply.accepted && w.reply.fate.Committed?
  }

  /** Every due level is served, no other level's quiet time changes, and the executor is woken exactly if an order
      was recorded. */
  ghost predicate EveryDueServed(levels: seq<Watched>, orders: map<string, Order>, publishedAt: int, now: int,
                           before: TickState, after: TickState)
  {
    && (forall k :: 0 <= k < |levels| && Due(orders, before.quiet, now, levels[k]) ==>
          Served(levels[k], publishedAt, now, before, after))
    && (forall levelId: string :: !DueUnder(levels, orders, now, before.quiet, levelId) ==>
          SameQuiet(levelId, before, after))
    && (after.created <==>
          before.created || exists k :: 0 <= k < |levels| && Wakes(orders, now, before.quiet, levels[k]))
  }

  predicate DistinctWatched(levels: seq<Watched>) {
    forall i, j :: 0 <= i < j < |levels| ==> levels[i].entry.id != levels[j].entry.id
  }

  /** Records a new order for a fired level; the deterministic id makes a replayed tick rewrite the same row. */
  method PlaceOrder(table: OrderTable, entry: LevelEntry, publishedAt: int, now: int, reply: Reply) returns (ok: bool)
    modifies table
    ensures !reply.accepted || reply.fate.Lost? ==> table.rows == old(table.rows)
    ensures reply.accepted && !reply.fate.Lost? ==>
              var id := OrderId(entry.id, publishedAt);
              && table.rows == Upsert(old(table.rows), NewOrder(id, entry.id, entry.amount, now))
              && table.rows.Keys == old(table.rows).Keys + {id}
              && (forall other :: other in old(table.rows) && other != id ==>
                    table.rows[other] == old(table.rows)[other])
              && Fresh(table.rows[id], id, entry, FirstCreated(old(table.rows), id, now))
    ensures ok <==> reply.accepted && reply.fate.Committed?
  {
    if !reply.accepted {
      return false;
    }
    var order := NewOrder(OrderId(entry.id, publishedAt), entry.id, entry.amount, now);
    ok := table.UpsertOrder(order, reply.fate);
  }

  /** handle_tick: the spent and cooldown tests read the orders listed at the start, the quiet test the live map. */
  method HandleTick(table: OrderTable, runtime: Runtime, levels: seq<Watched>, publishedAt: int, now: int)
    returns (created: bool)
    modifies table, runtime
    ensures TickState(table.rows, runtime.quiet, created) ==
            Attempts(old(table.rows), publishedAt, now, FiredLevels(levels, old(table.rows)),
                     TickState(old(table.rows), old(runtime.quiet), false))
    ensures OnlyDuePlaced(levels, old(table.rows), publishedAt, now,
                          TickState(old(table.rows), old(runtime.quiet), false),
                          TickState(table.rows, runtime.quiet, created))
    ensures DistinctWatched(levels) ==>
              EveryDueServed(levels, old(table.rows), publishedAt, now,
                             TickState(old(table.rows), old(runtime.quiet), false),
                             TickState(table.rows, runtime.quiet, created))
  {
    hide FiredLevels, IsSpent, CoolingDown, OrderId, Upsert, OnlyDuePlaced, EveryDueServed, Fresh;
    var orders := table.rows;
    var fired := FiredLevels(levels, orders);
    created := false;
    var i := 0;
    ghost var start := TickState(orders, runtime.quiet, false);
    while i < |fired|
      invariant 0 <= i <= |fired|
      invariant Attempts(orders, publishedAt, now, fired, start) ==
                Attempts(orders, publishedAt, now, fired[i..], TickState(table.rows, runtime.quiet, created))
    {
      hide Attempts;
      var w := fired[i];
      AttemptsStep(orders, publishedAt, now, fired, i, TickState(table.rows, runtime.quiet, created));
      if !IsQuiet(runtime.quiet, w.entry.id, now) && !CoolingDown(w.entry.id, orders, now) {
        var ok := PlaceOrder(table, w.entry, publishedAt, now, w.reply);
        if ok {
          runtime.quiet := runtime.quiet - {w.entry.id};
          created := true;
        } else {
          runtime.quiet := runtime.quiet[w.entry.id := now + PREFLIGHT_RETRY_SECS];
        }
      }
      i := i + 1;
    }
    TickPlacesDue(levels, orders, publishedAt, now, start);
    if DistinctWatched(levels) {
      TickServesDue(levels, orders, publishedAt, now, start);
    }
  }

  lemma AttemptsStep(orders: map<string, Order>, publishedAt: int, now: int, fired: seq<Watched>, i: nat, s: TickState)
    requires i < |fired|
    ensures Attempts(orders, publishedAt, now, fired[i..], s) ==
            Attempts(orders, publishedAt, now, fired[i + 1..], Attempt(orders, publishedAt, now, fired[i], s))
  {
    assert fired[i..][1..] == fired[i + 1..];
  }

  // ---------------------------------------------------------------- the loop does it

  /** The rows and quiet times after the first level of the list, and the rest of the list from there. */
  lemma TickByHead(levels: seq<Watched>, orders: map<string, Order>, publishedAt: int, now: int, s: TickState)
    requires levels != []
    ensures var w := levels[0];
            var t := if Due(orders, s.quiet, now, w) then Attempt(orders, publishedAt, now, w, s) else s;
            Attempts(orders, publishedAt, now, FiredLevels(levels, orders), s) ==
            Attempts(orders, publishedAt, now, FiredLevels(levels[1..], orders), t)
  {
    hide OrderId, Upsert, NewOrder;
    var w, rest := levels[0], FiredLevels(levels[1..], orders);
    DueIsOpen(orders, s.quiet, now, w);
    assert ([w] + rest)[1..] == rest && [] + rest == rest;
  }

  lemma DueIsOpen(orders: map<string, Order>, quiet: map<string, int>, now: int, w: Watched)
    ensures Due(orders, quiet, now, w) <==>
            w.fires && !IsSpent(w.entry.id, orders) && !CoolingDown(w.entry.id, orders, now)
            && !IsQuiet(quiet, w.entry.id, now)
  {
  }

  /** What trying one due level does. */
  lemma AttemptServes(orders: map<string, Order>, publishedAt: int, now: int, w: Watched, s: TickState)
    requires Due(orders, s.quiet, now, w)
    ensures var t := Attempt(orders, publishedAt, now, w, s);
            var id := OrderId(w.entry.id, publishedAt);
            && Served(w, publishedAt, now, s, t)
            && s.rows.Keys <= t.rows.Keys
            && (forall other :: other in t.rows && other != id ==> other in s.rows && t.rows[other] == s.rows[other])
            && (id in t.rows ==> (id in s.rows && t.rows[id] == s.rows[id])
                                 || PlacesUnder(w, orders, publishedAt, now, s, id))
            && (forall levelId :: levelId != w.entry.id ==> SameQuiet(levelId, s, t))
            && (t.created <==> s.created || Wakes(orders, now, s.quiet, w))
  {
    hide OrderId;
    DueIsOpen(orders, s.quiet, now, w);
  }

  /** Trying a due level makes no other entry due, and takes no entry of another level off. */
  lemma DueStays(orders: map<string, Order>, publishedAt: int, now: int, w: Watched, s: TickState, v: Watched)
    requires Due(orders, s.quiet, now, w)
    ensures var t := Attempt(orders, publishedAt, now, w, s);
            && (Due(orders, t.quiet, now, v) ==> Due(orders, s.quiet, now, v))
            && (v.entry.id != w.entry.id ==> (Due(orders, t.quiet, now, v) <==> Due(orders, s.quiet, now, v)))
  {
    hide OrderId, Upsert, NewOrder, CoolingDown, IsQuiet;
  }

  lemma {:induction false} TickPlacesDue(levels: seq<Watched>, orders: map<string, Order>, publishedAt: int, now: int,
                                         s: TickState)
    ensures OnlyDuePlaced(levels, orders, publishedAt, now, s,
                          Attempts(orders, publishedAt, now, FiredLevels(levels, orders), s))
    decreases |levels|
  {
    hide Due, OrderId, Fresh, Served, Attempt;
    var end := Attempts(orders, publishedAt, now, FiredLevels(levels, orders), s);
    if levels != [] {
      hide Attempts, FiredLevels;
      TickByHead(levels, orders, publishedAt, now, s);
      var w := levels[0];
      var t := if Due(orders, s.quiet, now, w) then Attempt(orders, publishedAt, now, w, s) else s;
      TickPlacesDue(levels[1..], orders, publishedAt, now, t);
      if Due(orders, s.quiet, now, w) {
        AttemptServes(orders, publishedAt, now, w, s);
      }
      forall id | id in end.rows && !(id in s.rows && end.rows[id] == s.rows[id])
        ensures exists k :: 0 <= k < |levels| && PlacesUnder(levels[k], orders, publishedAt, now, s, id)
                            && Fresh(end.rows[id], id, levels[k].entry, FirstCreated(s.rows, id, now))
      {
        PlacedByHeadOrRest(levels, orders, publishedAt, now, s, t, end, id);
      }
    }
  }

  lemma PlacedByHeadOrRest(levels: seq<Watched>, orders: map<string, Order>, publishedAt: int, now: int,
                           s: TickState, t: TickState, end: TickState, id: string)
    requires levels != [] && id in end.rows && !(id in s.rows && end.rows[id] == s.rows[id])
    requires t == if Due(orders, s.quiet, now, levels[0]) then Attempt(orders, publishedAt, now, levels[0], s) else s
    requires OnlyDuePlaced(levels[1..], orders, publishedAt, now, t, end)
    ensures exists k :: 0 <= k < |levels| && PlacesUnder(levels[k], orders, publishedAt, now, s, id)
                        && Fresh(end.rows[id], id, levels[k].entry, FirstCreated(s.rows, id, now))
  {
    hide Due, OrderId, Attempt;
    var w := levels[0];
    if Due(orders, s.quiet, now, w) {
      AttemptServes(orders, publishedAt, now, w, s);
    }
    if id in t.rows && end.rows[id] == t.rows[id] {
      assert PlacesUnder(levels[0], orders, publishedAt, now, s, id);
    } else {
      var k :| 0 <= k < |levels[1..]| && PlacesUnder(levels[1..][k], orders, publishedAt, now, t, id)
               && Fresh(end.rows[id], id, levels[1..][k].entry, FirstCreated(t.rows, id, now));
      if Due(orders, s.quiet, now, w) {
        DueStays(orders, publishedAt, now, w, s, levels[k + 1]);
      }
      assert PlacesUnder(levels[k + 1], orders, publishedAt, now, s, id);
    }
  }

  lemma SameStampDistinct(level1: string, level2: string, publishedAt: int)
    requires OrderId(level1, publishedAt) == OrderId(level2, publishedAt)
    ensures level1 == level2
  {
    hide IntText;
    var id := OrderId(level1, publishedAt);
    assert |level1| == |level2|;
    assert level1 == id[..|level1|] && level2 == id[..|level2|];
  }

  lemma RestSkipsHead(levels: seq<Watched>, orders: map<string, Order>, publishedAt: int, now: int, t: TickState,
                      end: TickState)
    requires levels != [] && DistinctWatched(levels)
    requires OnlyDuePlaced(levels[1..], orders, publishedAt, now, t, end)
    requires EveryDueServed(levels[1..], orders, publishedAt, now, t, end)
    ensures var id := OrderId(levels[0].entry.id, publishedAt);
            && SameQuiet(levels[0].entry.id, t, end)
            && (id in t.rows ==> id in end.rows && end.rows[id] == t.rows[id])
  {
    hide Due, OrderId, Served;
    var levelId := levels[0].entry.id;
    var id := OrderId(levelId, publishedAt);
    assert !DueUnder(levels[1..], orders, now, t.quiet, levelId) by {
      assert forall k :: 0 <= k < |levels[1..]| ==> levels[1..][k] == levels[k + 1];
    }
    if id in t.rows && end.rows[id] != t.rows[id] {
      var k :| 0 <= k < |levels[1..]| && PlacesUnder(levels[1..][k], orders, publishedAt, now, t, id);
      SameStampDistinct(levelId, levels[k + 1].entry.id, publishedAt);
      assert false;
    }
  }

  lemma HeadStaysServed(w: Watched, publishedAt: int, now: int, s: TickState, t: TickState, end: TickState)
    requires Served(w, publishedAt, now, s, t) && SameQuiet(w.entry.id, t, end)
    requires var id := OrderId(w.entry.id, publishedAt); id in t.rows ==> id in end.rows && end.rows[id] == t.rows[id]
    ensures Served(w, publishedAt, now, s, end)
  {
    hide OrderId, Fresh;
  }

  lemma RestServed(w: Watched, v: Watched, orders: map<string, Order>, publishedAt: int, now: int, s: TickState,
                   end: TickState)
    requires Due(orders, s.quiet, now, w) && v.entry.id != w.entry.id
    requires Served(v, publishedAt, now, Attempt(orders, publishedAt, now, w, s), end)
    ensures Served(v, publishedAt, now, s, end)
  {
    hide OrderId, Fresh, Due, Attempt;
    AttemptServes(orders, publishedAt, now, w, s);
    if OrderId(v.entry.id, publishedAt) == OrderId(w.entry.id, publishedAt) {
      SameStampDistinct(v.entry.id, w.entry.id, publishedAt);
    }
  }

  /** The first level's dueness is settled before the others are tried, and theirs does not depend on it. */
  lemma DueSplits(levels: seq<Watched>, orders: map<string, Order>, publishedAt: int, now: int, s: TickState,
                  t: TickState)
    requires levels != [] && DistinctWatched(levels)
    requires t == if Due(orders, s.quiet, now, levels[0]) then Attempt(orders, publishedAt, now, levels[0], s) else s
    ensures forall k :: 0 <= k < |levels[1..]| ==>
              var v := levels[1..][k];
              v == levels[k + 1] && v.entry.id != levels[0].entry.id
              && (Due(orders, t.quiet, now, v) <==> Due(orders, s.quiet, now, v))
  {
    hide Due, Attempt;
    forall k | 0 <= k < |levels[1..]|
      ensures var v := levels[1..][k]; Due(orders, t.quiet, now, v) <==> Due(orders, s.quiet, now, v)
    {
      if Due(orders, s.quiet, now, levels[0]) {
        DueStays(orders, publishedAt, now, levels[0], s, levels[k + 1]);
      }
    }
  }

  lemma SameQuietOnward(levelId: string, s: TickState, t: TickState, end: TickState)
    requires SameQuiet(levelId, s, t) && SameQuiet(levelId, t, end)
    ensures SameQuiet(levelId, s, end)
  {
  }

  lemma QuietByHeadAndRest(levels: seq<Watched>, orders: map<string, Order>, publishedAt: int, now: int,
                           s: TickState, t: TickState, end: TickState, levelId: string)
    requires levels != [] && DistinctWatched(levels)
    requires t == if Due(orders, s.quiet, now, levels[0]) then Attempt(orders, publishedAt, now, levels[0], s) else s
    requires EveryDueServed(levels[1..], orders, publishedAt, now, t, end)
    requires !DueUnder(levels, orders, now, s.quiet, levelId)
    ensures SameQuiet(levelId, s, end)
  {
    hide Due, Attempt, Served, OrderId;
    DueSplits(levels, orders, publishedAt, now, s, t);
    if Due(orders, s.quiet, now, levels[0]) {
      AttemptServes(orders, publishedAt, now, levels[0], s);
      assert levels[0].entry.id != levelId;
      assert SameQuiet(levelId, s, t);
    }
    assert !DueUnder(levels[1..], orders, now, t.quiet, levelId);
    assert SameQuiet(levelId, t, end);
    SameQuietOnward(levelId, s, t, end);
  }

  lemma WakesByHeadOrRest(levels: seq<Watched>, orders: map<string, Order>, publishedAt: int, now: int,
                          s: TickState, t: TickState, end: TickState)
    requires levels != [] && DistinctWatched(levels)
    requires t == if Due(orders, s.quiet, now, levels[0]) then Attempt(orders, publishedAt, now, levels[0], s) else s
    requires EveryDueServed(levels[1..], orders, publishedAt, now, t, end)
    ensures end.created <==>
            s.created || exists k :: 0 <= k < |levels| && Wakes(orders, now, s.quiet, levels[k])
  {
    hide Due, Attempt, Served, OrderId;
    DueSplits(levels, orders, publishedAt, now, s, t);
    if Due(orders, s.quiet, now, levels[0]) {
      AttemptServes(orders, publishedAt, now, levels[0], s);
    }
    if k :| 0 <= k < |levels[1..]| && Wakes(orders, now, t.quiet, levels[1..][k]) {
      assert Wakes(orders, now, s.quiet, levels[k + 1]);
    }
    if k :| 0 <= k < |levels| && Wakes(orders, now, s.quiet, levels[k]) {
      if k > 0 {
        assert Wakes(orders, now, t.quiet, levels[1..][k - 1]);
      }
    }
  }

  lemma HeadAndRestServed(levels: seq<Watched>, orders: map<string, Order>, publishedAt: int, now: int,
                          s: TickState, t: TickState, end: TickState)
    requires levels != [] && DistinctWatched(levels)
    requires t == if Due(orders, s.quiet, now, levels[0]) then Attempt(orders, publishedAt, now, levels[0], s) else s
    requires OnlyDuePlaced(levels[1..], orders, publishedAt, now, t, end)
    requires EveryDueServed(levels[1..], orders, publishedAt, now, t, end)
    ensures EveryDueServed(levels, orders, publishedAt, now, s, end)
  {
    hide Due, Attempt, Served, SameQuiet, OrderId, OnlyDuePlaced;
    var w := levels[0];
    DueSplits(levels, orders, publishedAt, now, s, t);
    RestSkipsHead(levels, orders, publishedAt, now, t, end);
    forall k | 0 <= k < |levels| && Due(orders, s.quiet, now, levels[k])
      ensures Served(levels[k], publishedAt, now, s, end)
    {
      if k == 0 {
        AttemptServes(orders, publishedAt, now, w, s);
        HeadStaysServed(w, publishedAt, now, s, t, end);
      } else {
        assert levels[k] == levels[1..][k - 1];
        if Due(orders, s.quiet, now, w) {
          RestServed(w, levels[k], orders, publishedAt, now, s, end);
        }
      }
    }
    forall levelId: string | !DueUnder(levels, orders, now, s.quiet, levelId) ensures SameQuiet(levelId, s, end) {
      QuietByHeadAndRest(levels, orders, publishedAt, now, s, t, end, levelId);
    }
    WakesByHeadOrRest(levels, orders, publishedAt, now, s, t, end);
  }

  lemma {:induction false} TickServesDue(levels: seq<Watched>, orders: map<string, Order>, publishedAt: int, now: int,
                                         s: TickState)
    requires DistinctWatched(levels)
    ensures EveryDueServed(levels, orders, publishedAt, now, s,
                           Attempts(orders, publishedAt, now, FiredLevels(levels, orders), s))
    decreases |levels|
  {
    hide Due, OrderId, Fresh, Served, Attempt;
    if levels != [] {
      hide Attempts, FiredLevels, OnlyDuePlaced, EveryDueServed;
      var end := Attempts(orders, publishedAt, now, FiredLevels(levels, orders), s);
      TickByHead(levels, orders, publishedAt, now, s);
      var w := levels[0];
      var t := if Due(orders, s.quiet, now, w) then Attempt(orders, publishedAt, now, w, s) else s;
      TickServesDue(levels[1..], orders, publishedAt, now, t);
      TickPlacesDue(levels[1..], orders, publishedAt, now, t);
      HeadAndRestServed(levels, orders, publishedAt, now, s, t, end);
    }
  }

  // ---------------------------------------------------------------- the tick as steps of the lifecycle

  /** The fired levels that are not cooling down, which is what the step system's snapshot holds. */
  function Warm(orders: map<string, Order>, now: int, fired: seq<Watched>): seq<LevelEntry> {
    if fired == [] then []
    else (if CoolingDown(fired[0].entry.id, orders, now) then [] else [fired[0].entry]) + Warm(orders, now, fired[1..])
  }

  lemma WarmHead(levels: seq<Watched>, orders: map<string, Order>, now: int)
    requires levels != []
    ensures var rest := Warm(orders, now, FiredLevels(levels[1..], orders));
            var all := Warm(orders, now, FiredLevels(levels, orders));
            var entry := levels[0].entry;
            all == rest || (all == [entry] + rest && !IsSpent(entry.id, orders) && !CoolingDown(entry.id, orders, now))
  {
    hide IsSpent, CoolingDown;
    var rest := FiredLevels(levels[1..], orders);
    if !IsSpent(levels[0].entry.id, orders) && levels[0].fires {
      assert ([levels[0]] + rest)[1..] == rest;
    } else {
      assert [] + rest == rest;
    }
    assert [] + Warm(orders, now, rest) == Warm(orders, now, rest);
  }

  lemma {:induction false} WarmIsUnspent(levels: seq<Watched>, orders: map<string, Order>, now: int, entry: LevelEntry)
    requires entry in Warm(orders, now, FiredLevels(levels, orders))
    ensures !IsSpent(entry.id, orders) && !CoolingDown(entry.id, orders, now)
    ensures exists k :: 0 <= k < |levels| && levels[k].entry == entry
  {
    hide IsSpent, CoolingDown, Warm;
    NoneWarm(orders, now);
    WarmHead(levels, orders, now);
    if entry in Warm(orders, now, FiredLevels(levels[1..], orders)) {
      WarmIsUnspent(levels[1..], orders, now, entry);
      var k :| 0 <= k < |levels[1..]| && levels[1..][k].entry == entry;
      assert levels[k + 1].entry == entry;
    } else {
      assert levels[0].entry == entry;
    }
  }

  lemma NoneWarm(orders: map<string, Order>, now: int)
    ensures Warm(orders, now, FiredLevels([], orders)) == []
  {
  }

  /** Placements performed by the step system, nothing interleaved. */
  function Placements(s: System, decisions: seq<Reply>): System
    requires s.trigger.Placing? && |decisions| == |s.trigger.pending|
    decreases |decisions|
  {
    if decisions == [] then s
    else
      PlacementDraws(s, decisions[0]);
      hide Next;
      Placements(Next(s, Lifecycle.PlaceOrder(decisions[0].accepted, decisions[0].fate)), decisions[1..])
  }

  lemma PlacementEnabled(s: System, d: Reply)
    requires s.trigger.Placing? && s.trigger.pending != []
    ensures Enabled(s, Lifecycle.PlaceOrder(d.accepted, d.fate))
  {
  }

  lemma PlacementDraws(s: System, d: Reply)
    requires s.trigger.Placing? && s.trigger.pending != []
    ensures Enabled(s, Lifecycle.PlaceOrder(d.accepted, d.fate))
    ensures var entry := s.trigger.pending[0];
            var u := Next(s, Lifecycle.PlaceOrder(d.accepted, d.fate));
            && u.trigger == s.trigger.(pending := s.trigger.pending[1..])
            && u.rows == if d.accepted && !d.fate.Lost?
                         then Upsert(s.rows, NewOrder(OrderId(entry.id, s.trigger.publishedAt), entry.id, entry.amount,
                                                      s.trigger.now))
                         else s.rows
  {
    hide Next, Upsert, OrderId, NewOrder;
    PlacementEnabled(s, d);
    PlaceFacts(s, d.accepted, d.fate);
  }

  /** What the tick decides for each warm level: the reply it meets, unless the level is quiet. */
  function Decisions(orders: map<string, Order>, publishedAt: int, now: int, fired: seq<Watched>, t: TickState)
    : seq<Reply>
  {
    if fired == [] then []
    else
      var w := fired[0];
      var d := Reply(w.reply.accepted && !IsQuiet(t.quiet, w.entry.id, now), w.reply.fate);
      (if CoolingDown(w.entry.id, orders, now) then [] else [d])
      + Decisions(orders, publishedAt, now, fired[1..], Attempt(orders, publishedAt, now, w, t))
  }

  lemma AttemptRows(orders: map<string, Order>, publishedAt: int, now: int, w: Watched, t: TickState)
    ensures Attempt(orders, publishedAt, now, w, t).rows ==
            if !CoolingDown(w.entry.id, orders, now) && !IsQuiet(t.quiet, w.entry.id, now) && w.reply.accepted
               && !w.reply.fate.Lost?
            then Upsert(t.rows, NewOrder(OrderId(w.entry.id, publishedAt), w.entry.id, w.entry.amount, now)) else t.rows
  {
    hide Upsert, OrderId, NewOrder, CoolingDown, IsQuiet;
  }

  /** Undisturbed, the loop of handle_tick leaves exactly the rows of the step system's placements. */
  lemma {:induction false} TickIsPlacements(s: System, orders: map<string, Order>, publishedAt: nat, now: int,
                                            fired: seq<Watched>, t: TickState)
    requires s.rows == t.rows && s.trigger == Placing(Warm(orders, now, fired), publishedAt, now)
    ensures var decisions := Decisions(orders, publishedAt, now, fired, t);
            |decisions| == |s.trigger.pending|
            && Placements(s, decisions).rows == Attempts(orders, publishedAt, now, fired, t).rows
    decreases |fired|
  {
    hide CoolingDown, Attempt, Next, IsQuiet, Upsert, OrderId, NewOrder;
    if fired != [] {
      var w := fired[0];
      var rest := Attempt(orders, publishedAt, now, w, t);
      var later := Decisions(orders, publishedAt, now, fired[1..], rest);
      AttemptRows(orders, publishedAt, now, w, t);
      if CoolingDown(w.entry.id, orders, now) {
        assert [] + later == later && [] + Warm(orders, now, fired[1..]) == Warm(orders, now, fired[1..]);
        TickIsPlacements(s, orders, publishedAt, now, fired[1..], rest);
      } else {
        var d := Reply(w.reply.accepted && !IsQuiet(t.quiet, w.entry.id, now), w.reply.fate);
        assert ([d] + later)[1..] == later;
        assert s.trigger.pending[1..] == Warm(orders, now, fired[1..]);
        PlacementDraws(s, d);
        TickIsPlacements(Next(s, Lifecycle.PlaceOrder(d.accepted, d.fate)), orders, publishedAt, now, fired[1..],
                         rest);
      }
    }
  }

  // ---------------------------------------------------------------- distinct levels stay distinct

  lemma {:induction false} WarmIsDistinct(levels: seq<Watched>, orders: map<string, Order>, now: int)
    requires DistinctWatched(levels)
    ensures DistinctLevels(Warm(orders, now, FiredLevels(levels, orders)))
  {
    hide IsSpent, CoolingDown;
    if levels != [] {
      WarmIsDistinct(levels[1..], orders, now);
      var rest := Warm(orders, now, FiredLevels(levels[1..], orders));
      forall i | 0 <= i < |rest| ensures rest[i].id != levels[0].entry.id {
        WarmIsUnspent(levels[1..], orders, now, rest[i]);
        var k :| 0 <= k < |levels[1..]| && levels[1..][k].entry == rest[i];
        assert levels[k + 1].entry == rest[i];
      }
      WarmHead(levels, orders, now);
    }
  }

  /** What handle_tick is about to place is a snapshot the step system admits, so everything proved of its runs
      covers the tick, whatever is interleaved with it. */
  lemma TickIsAdmitted(s: System, levels: seq<Watched>, publishedAt: nat, now: int)
    requires s.trigger.Idle? && DistinctWatched(levels)
    ensures Enabled(s, TakeSnapshot(Warm(s.rows, now, FiredLevels(levels, s.rows)), publishedAt, now))
  {
    hide IsSpent, CoolingDown, Warm, FiredLevels;
    var entries := Warm(s.rows, now, FiredLevels(levels, s.rows));
    WarmIsDistinct(levels, s.rows, now);
    forall i | 0 <= i < |entries| ensures !IsSpent(entries[i].id, s.rows) && !CoolingDown(entries[i].id, s.rows, now) {
      WarmIsUnspent(levels, s.rows, now, entries[i]);
    }
  }
}
