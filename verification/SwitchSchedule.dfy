/** Exactly which settings of the broadcast switch, from one daemon start to the next, let two different swaps of
    one level land although no attempt was given up. */
module SwitchSchedule {
  import opened OrderMachine
  import opened DriveOrder
  import opened OrderIds
  import opened Lifecycle
  import opened LifecycleTheorems
  import opened DoubleLanding

  /** The switch values of the restarts among the events. */
  function Restarted(events: seq<Event>): seq<bool> {
    if events == [] then []
    else Setting(events[0]) + Restarted(events[1..])
  }

  function Setting(e: Event): seq<bool> {
    if e.Restart? then [e.allow] else []
  }

  /** The switch as set at the first start and at each restart. */
  function Schedule(first: bool, events: seq<Event>): seq<bool> {
    [first] + Restarted(events)
  }

  lemma {:induction false} RestartedConcat(events: seq<Event>, more: seq<Event>)
    ensures Restarted(events + more) == Restarted(events) + Restarted(more)
  {
    if events == [] {
      assert events + more == more;
    } else {
      assert (events + more)[1..] == events[1..] + more;
      RestartedConcat(events[1..], more);
      hide Setting;
      assert Setting(events[0]) + (Restarted(events[1..]) + Restarted(more)) == Restarted(events) + Restarted(more);
    }
  }

  lemma {:induction false} NoneRestarted(events: seq<Event>)
    requires NoRestart(events)
    ensures Restarted(events) == []
  {
    if events != [] {
      NoneRestarted(events[1..]);
    }
  }

  // ---------------------------------------------------------------- a run's switch is its schedule's latest entry

  lemma StepSetsSwitch(s: System, e: Event)
    requires Enabled(s, e)
    ensures Next(s, e).allowBroadcast == if e.Restart? then e.allow else s.allowBroadcast
  {
    hide Enabled, TurnOf, StoreRow, Upsert, NewSignature, NewTransmissions, SendFails, RecordFailure, Released,
        AttemptOf, OrderId, NewOrder;
    if e.Store? {
      StoringKeepsAllow(s, e.stored);
    }
  }

  lemma StoringKeepsAllow(s: System, fate: WriteFate)
    requires Enabled(s, Store(fate))
    ensures Next(s, Store(fate)).allowBroadcast == s.allowBroadcast
  {
    hide Enabled, Upsert, CauseOf, AttemptOf;
  }

  lemma {:induction false} SwitchIsLatest(states: seq<System>, events: seq<Event>, k: nat)
    requires IsRun(states, events) && k <= |events|
    ensures var schedule := Schedule(states[0].allowBroadcast, events[..k]);
            states[k].allowBroadcast == schedule[|schedule| - 1]
  {
    hide Enabled, Next;
    if k > 0 {
      SwitchIsLatest(states, events, k - 1);
      StepSetsSwitch(states[k - 1], events[k - 1]);
      assert events[..k] == events[..k - 1] + [events[k - 1]];
      RestartedConcat(events[..k - 1], [events[k - 1]]);
      assert [events[k - 1]][1..] == [];
    }
  }

  lemma LaterSchedules(first: bool, events: seq<Event>, j: nat, k: nat)
    requires j <= k <= |events|
    ensures Schedule(first, events[..j]) <= Schedule(first, events[..k]) <= Schedule(first, events)
  {
    assert events[..k] == events[..j] + events[j..k] && events == events[..k] + events[k..];
    RestartedConcat(events[..j], events[j..k]);
    RestartedConcat(events[..k], events[k..]);
  }

  /** A run goes on, off and on exactly where its schedule does. */
  lemma SwitchesFollowSchedule(states: seq<System>, events: seq<Event>)
    requires IsRun(states, events) && OnOffOn(Switches(states))
    ensures OnOffOn(Schedule(states[0].allowBroadcast, events))
  {
    hide Restarted, Enabled, Next;
    var b := Switches(states);
    var i, j, k :| 0 <= i < j < k < |b| && b[i] && !b[j] && b[k];
    var first := states[0].allowBroadcast;
    SwitchIsLatest(states, events, i);
    SwitchIsLatest(states, events, j);
    SwitchIsLatest(states, events, k);
    LaterSchedules(first, events, i, j);
    LaterSchedules(first, events, j, k);
    var whole := Schedule(first, events);
    var p, q, r := |Schedule(first, events[..i])| - 1, |Schedule(first, events[..j])| - 1,
        |Schedule(first, events[..k])| - 1;
    assert whole[p] && !whole[q] && whole[r];
    assert p <= q <= r;
  }

  // ---------------------------------------------------------------- the run

  /** Two different swaps of one level have landed and no event gave the earlier attempt up. */
  predicate Unexcused(states: seq<System>, events: seq<Event>, t: Transmission, u: Transmission)
    requires |states| == |events| + 1
  {
    var end := states[|events|];
    && t in end.sent && u in end.sent && t.step.Swap? && u.step.Swap? && t.levelId == u.levelId && t.wire != u.wire
    && HasLanded(end, t) && HasLanded(end, u)
    && forall j :: 0 <= j < |events| ==>
         !EndedBy(states[j], events[j], Earlier(t, u), TimedOut)
         && !EndedBy(states[j], events[j], Earlier(t, u), OperatorRelease)
  }

  /** Starting the daemon again and again with the given switch values. */
  lemma {:induction false} RestartPhase(s: System, values: seq<bool>) returns (events: seq<Event>, t: System)
    ensures Leads(s, events, t) && Restarted(events) == values
    ensures CoreOf(t) == if values == [] then CoreOf(s)
                         else CoreOf(s).(trigger := Idle, sweeper := Resting, on := values[|values| - 1])
    decreases |values|
  {
    hide Allowed, Next, Leads;
    if values == [] {
      Nowhere(s);
      events, t := [], s;
    } else {
      var init, last := values[..|values| - 1], values[|values| - 1];
      var before, m := RestartPhase(s, init);
      DoubleLanding.Restarts(m, last);
      Then(s, before, m, Restart(last));
      RestartedConcat(before, [Restart(last)]);
      assert [Restart(last)][1..] == [];
      assert init + [last] == values;
      events, t := before + [Restart(last)], Next(m, Restart(last));
    }
  }

  const FIRST: Transmission := Transmission(0, LEVEL.id, Swap, "first wire", "first hash")
  const SECOND: Transmission := Transmission(1, LEVEL.id, Swap, "second wire", "second hash")

  function FirstOrder(): Order {
    SignedOrder(NewOrder(OrderId(LEVEL.id, 0), LEVEL.id, LEVEL.amount, 0), FIRST.wire, FIRST.hash)
  }

  /** After the first swap has landed and the daemon was restarted with the switch off. */
  predicate LandedOnce(s: System) {
    && Quiet(s) && !s.allowBroadcast && s.clock == 0 && |s.attemptLevel| == 1
    && s.rows == map[FirstOrder().id := TriedOrder(FirstOrder(), 0)]
    && s.signed == map[FIRST.hash := FIRST.wire] && s.fates == map[FIRST.wire := Landed] && FIRST in s.sent
  }

  /** After the order then failed as blocked and the daemon was restarted with the switch on. */
  predicate FreedAgain(s: System) {
    && Quiet(s) && s.allowBroadcast && |s.attemptLevel| == 1
    && s.rows == map[FirstOrder().id := BlockedOrder(FirstOrder())]
    && s.signed == map[FIRST.hash := FIRST.wire] && s.fates == map[FIRST.wire := Landed] && FIRST in s.sent
  }

  lemma FirstPart(on: bool, starts: seq<bool>, stops: seq<bool>) returns (events: seq<Event>, t: System)
    requires ([on] + starts)[|starts|] && stops != [] && !stops[|stops| - 1]
    ensures Leads(Init(on, 0), events, t) && Restarted(events) == starts + stops && LandedOnce(t)
  {
    hide Allowed, Next, Leads, OrderId, AllOver, Restarted;
    var s := Init(on, 0);
    var starting, ready := RestartPhase(s, starts);
    NothingStored(ready);
    assert ready.rows == map[] && ready.signed == map[] && ready.fates == map[];
    var landing, landed := LandPhase(ready, 0, 0, FIRST.wire, FIRST.hash);
    var stopping, stopped := RestartPhase(landed, stops);
    Joins(s, starting, ready, landing, landed);
    Joins(s, starting + landing, landed, stopping, stopped);
    NoneRestarted(landing);
    RestartedConcat(starting, landing);
    RestartedConcat(starting + landing, stopping);
    assert starts + [] + stops == starts + stops;
    events, t := starting + landing + stopping, stopped;
  }

  lemma NothingStored(s: System)
    requires s.rows == map[]
    ensures AllOver(s.rows, 0)
  {
  }

  lemma SecondPart(s: System, starts: seq<bool>) returns (events: seq<Event>, t: System)
    requires LandedOnce(s) && starts != [] && starts[|starts| - 1]
    ensures Leads(s, events, t) && Restarted(events) == starts && FreedAgain(t)
  {
    hide Allowed, Next, Leads, OrderId, Restarted, TriedOrder, BlockedOrder;
    TriedIsOpen(s);
    var blocking, blocked := BlockPhase(s, FirstOrder(), 0);
    var starting, started := RestartPhase(blocked, starts);
    Joins(s, blocking, blocked, starting, started);
    NoneRestarted(blocking);
    RestartedConcat(blocking, starting);
    assert [] + starts == starts;
    events, t := blocking + starting, started;
  }

  lemma TriedIsOpen(s: System)
    requires LandedOnce(s)
    ensures OnlyOpen(s.rows, TriedOrder(FirstOrder(), 0))
  {
    hide OrderId;
  }

  predicate LandedTwice(s: System) {
    FIRST in s.sent && SECOND in s.sent && HasLanded(s, FIRST) && HasLanded(s, SECOND)
  }

  lemma SecondLands(s: System) returns (events: seq<Event>, t: System)
    requires FreedAgain(s)
    ensures Leads(s, events, t) && NoRestart(events) && LandedTwice(t)
  {
    hide Allowed, Next, Leads, OrderId, NoRestart, Waiting;
    SecondIsNew(s);
    DifferentTexts();
    events, t := LandPhase(s, 1, 60, SECOND.wire, SECOND.hash);
  }

  lemma ThirdPart(s: System, rest: seq<bool>) returns (events: seq<Event>, t: System)
    requires FreedAgain(s)
    ensures Leads(s, events, t) && Restarted(events) == rest && LandedTwice(t)
  {
    hide Allowed, Next, Leads, Restarted, FreedAgain;
    var landing, landed := SecondLands(s);
    var restarting, ended := RestartPhase(landed, rest);
    Joins(s, landing, landed, restarting, ended);
    NoneRestarted(landing);
    RestartedConcat(landing, restarting);
    assert [] + rest == rest;
    events, t := landing + restarting, ended;
  }

  lemma SecondIsNew(s: System)
    requires FreedAgain(s)
    ensures AllOver(s.rows, 60) && OrderId(LEVEL.id, 1) !in s.rows && SECOND.hash !in s.signed
            && SECOND.wire !in s.fates
  {
    hide OrderId;
    DifferentTexts();
    if OrderId(LEVEL.id, 0) == OrderId(LEVEL.id, 1) {
      OrderIdInjective(LEVEL.id, 0, LEVEL.id, 1);
    }
  }

  lemma DifferentTexts()
    ensures FIRST.wire != SECOND.wire && FIRST.hash != SECOND.hash
  {
    assert FIRST.wire[0] == 'f' && SECOND.wire[0] == 's' && FIRST.hash[0] == 'f' && SECOND.hash[0] == 's';
  }

  /** Any schedule that is on, off and on again has a run, from the initial state, in which two different swaps of
      the level land and no attempt whatever is given up by timeout or operator. */
  lemma OnOffOnLandsTwice(schedule: seq<bool>, i: nat, j: nat, k: nat) returns (states: seq<System>, events: seq<Event>)
    requires i < j < k < |schedule| && schedule[i] && !schedule[j] && schedule[k]
    ensures IsRun(states, events) && Schedule(states[0].allowBroadcast, events) == schedule
    ensures Unexcused(states, events, FIRST, SECOND)
    ensures forall n, a: nat :: 0 <= n < |events| ==>
              !EndedBy(states[n], events[n], a, TimedOut) && !EndedBy(states[n], events[n], a, OperatorRelease)
  {
    hide Allowed, Next, Enabled, Leads, Restarted, EndedBy, GivesUp, LandedOnce, FreedAgain;
    var first, second, third, rest := schedule[1..i + 1], schedule[i + 1..j + 1], schedule[j + 1..k + 1],
        schedule[k + 1..];
    var s := Init(schedule[0], 0);
    var part1, t := FirstPart(schedule[0], first, second);
    var part2, u := SecondPart(t, third);
    var part3, v := ThirdPart(u, rest);
    Joins(s, part1, t, part2, u);
    Joins(s, part1 + part2, u, part3, v);
    RestartedConcat(part1, part2);
    RestartedConcat(part1 + part2, part3);
    events := part1 + part2 + part3;
    assert schedule == [schedule[0]] + (first + second + third + rest);
    states := PathStates(s, events, v);
    NothingGivenUp(states, events);
    DifferentTexts();
  }

  lemma NothingGivenUp(states: seq<System>, events: seq<Event>)
    requires |states| == |events| + 1 && forall i :: 0 <= i < |events| ==> Allowed(states[i], events[i])
    ensures forall i :: 0 <= i < |events| ==> Enabled(states[i], events[i])
    ensures forall n, a: nat :: 0 <= n < |events| ==>
              !EndedBy(states[n], events[n], a, TimedOut) && !EndedBy(states[n], events[n], a, OperatorRelease)
  {
    forall n, a: nat | 0 <= n < |events|
      ensures !EndedBy(states[n], events[n], a, TimedOut) && !EndedBy(states[n], events[n], a, OperatorRelease)
    {
      NotGivenUp(states[n], events[n], a);
    }
  }

  lemma NotGivenUp(s: System, e: Event, a: nat)
    requires Allowed(s, e)
    ensures !EndedBy(s, e, a, TimedOut) && !EndedBy(s, e, a, OperatorRelease)
  {
    hide Enabled, AttemptOf;
  }

  ghost predicate CanDoubleLand(schedule: seq<bool>) {
    exists states: seq<System>, events: seq<Event>, t: Transmission, u: Transmission ::
      IsRun(states, events) && Schedule(states[0].allowBroadcast, events) == schedule
      && Unexcused(states, events, t, u)
  }

  /** Over all interleavings, crashes and chain answers: a schedule of the broadcast switch admits two different
      landed swaps of one level without the earlier attempt being given up if and only if it is on at some daemon
      start, off at a later one, and on at a still later one. */
  lemma DoubleLandingIffOnOffOn(schedule: seq<bool>)
    ensures CanDoubleLand(schedule) <==> OnOffOn(schedule)
  {
    hide Enabled, Next, Init, Schedule, Unexcused, EndedBy;
    if CanDoubleLand(schedule) {
      var states: seq<System>, events: seq<Event>, t: Transmission, u: Transmission :|
        IsRun(states, events) && Schedule(states[0].allowBroadcast, events) == schedule
        && Unexcused(states, events, t, u);
      UnexcusedNeedsSwitch(states, events, t, u);
      SwitchesFollowSchedule(states, events);
    }
    if OnOffOn(schedule) {
      var i, j, k :| 0 <= i < j < k < |schedule| && schedule[i] && !schedule[j] && schedule[k];
      var states, events := OnOffOnLandsTwice(schedule, i, j, k);
      assert Unexcused(states, events, FIRST, SECOND);
    }
  }

  lemma UnexcusedNeedsSwitch(states: seq<System>, events: seq<Event>, t: Transmission, u: Transmission)
    requires IsRun(states, events) && Unexcused(states, events, t, u)
    ensures OnOffOn(Switches(states))
  {
    hide Enabled, Next, EndedBy, HasLanded, OnOffOn, Switches;
    if !OnOffOn(Switches(states)) {
      var j := DoubleLandingNeedsTimeoutOrOperator(states, events, |events|, t, u);
    }
  }
}
