/** The owner registry: which Desktop client a followed task is pinned to, and who waits to learn it. */
module Owners {
  import opened Types

  type Source(==, !new)

  type WaiterId = nat

  datatype WaitResult = Owner(owner: Source) | Closed | Reset | Timeout | Unroutable

  /** The observer's record of one settlement: for which task, with what, and after how many events. */
  datatype Settlement = Settlement(thread: ThreadId, result: WaitResult, at: nat)

  datatype State = State(
    owners: map<ThreadId, Source>,
    unroutable: set<ThreadId>,
    waiting: map<WaiterId, ThreadId>,
    closed: bool,
    issued: WaiterId,
    settled: map<WaiterId, Settlement>,
    clock: nat)

  const INITIAL := State(map[], {}, map[], false, 0, map[], 0)

  datatype Event =
    | Drop(thread: ThreadId)
    | Invalidate(thread: ThreadId)
    | BeginRefresh(thread: ThreadId)
    | ResetAll(refresh: set<ThreadId>)
    | CloseAll
    | Observe(thread: ThreadId, snapshot: bool, followed: bool, source: Option<Source>)
    | Wait(thread: ThreadId)
    | TimeOut(waiter: WaiterId)

  function ToldOf(
    waiting: map<WaiterId, ThreadId>, t: ThreadId, result: WaitResult, at: nat): map<WaiterId, Settlement>
  {
    map w | w in waiting && waiting[w] == t :: Settlement(t, result, at)
  }

  function WaitingExcept(waiting: map<WaiterId, ThreadId>, t: ThreadId): map<WaiterId, ThreadId> {
    map w | w in waiting && waiting[w] != t :: waiting[w]
  }

  function SettleThread(s: State, t: ThreadId, result: WaitResult): State {
    s.(settled := s.settled + ToldOf(s.waiting, t, result, s.clock), waiting := WaitingExcept(s.waiting, t))
  }

  function SettleEverybody(s: State, result: WaitResult): State {
    s.(settled := s.settled + map w | w in s.waiting :: Settlement(s.waiting[w], result, s.clock),
       waiting := map[])
  }

  /** What a new wait is told at once, if anything. */
  function Immediate(s: State, t: ThreadId): Option<WaitResult> {
    if t in s.owners then Some(Owner(s.owners[t]))
    else if s.closed then Some(Closed)
    else if t in s.unroutable then Some(Unroutable)
    else None
  }

  function React(s: State, e: Event): State {
    match e
    case Drop(t) => s.(owners := s.owners - {t}, unroutable := s.unroutable - {t})
    case Invalidate(t) =>
      SettleThread(s.(owners := s.owners - {t}, unroutable := s.unroutable + {t}), t, Unroutable)
    case BeginRefresh(t) => s.(unroutable := s.unroutable - {t})
    case ResetAll(refresh) => SettleEverybody(s.(owners := map[], unroutable := refresh), Reset)
    case CloseAll => SettleEverybody(s.(closed := true, owners := map[], unroutable := {}), Closed)
    case Observe(t, snapshot, followed, source) =>
      if !snapshot || !followed || t in s.owners then s
      else if source.None? then SettleThread(s.(unroutable := s.unroutable + {t}), t, Unroutable)
      else
        SettleThread(
          s.(unroutable := s.unroutable - {t}, owners := s.owners[t := source.value]), t, Owner(source.value))
    case Wait(t) =>
      var told := Immediate(s, t);
      s.(issued := s.issued + 1,
         settled := if told.Some? then s.settled[s.issued := Settlement(t, told.value, s.clock)] else s.settled,
         waiting := if told.Some? then s.waiting else s.waiting[s.issued := t])
    case TimeOut(w) =>
      if w !in s.waiting then s
      else s.(settled := s.settled[w := Settlement(s.waiting[w], Timeout, s.clock)], waiting := s.waiting - {w})
  }

  function Tick(s: State): State {
    s.(clock := s.clock + 1)
  }

  function Step(s: State, e: Event): State {
    React(Tick(s), e)
  }

  function Exec(events: seq<Event>): State {
    if events == [] then INITIAL else Step(Exec(events[..|events| - 1]), events[|events| - 1])
  }

  // ---------- what every history keeps ----------

  /** Every waiter ever issued either waits or is settled, never both. */
  ghost predicate Accounted(s: State) {
    && (forall w :: w in s.waiting ==> w !in s.settled)
    && (forall w: WaiterId :: (w in s.waiting || w in s.settled) <==> w < s.issued)
  }

  ghost predicate Inv(s: State) {
    && s.owners.Keys !! s.unroutable
    && (forall w :: w in s.waiting ==> s.waiting[w] !in s.owners && s.waiting[w] !in s.unroutable && !s.closed)
    && Accounted(s)
  }

  /** Settlements are only ever added. */
  ghost predicate OnlyAdds(before: map<WaiterId, Settlement>, after: map<WaiterId, Settlement>) {
    forall w :: w in before ==> w in after && after[w] == before[w]
  }

  lemma SettlingAccounts(s: State, t: ThreadId, result: WaitResult)
    requires Accounted(s)
    ensures Accounted(SettleThread(s, t, result)) && OnlyAdds(s.settled, SettleThread(s, t, result).settled)
  {
    var one := SettleThread(s, t, result);
    forall w ensures (w in one.waiting || w in one.settled) <==> (w in s.waiting || w in s.settled) {}
  }

  lemma StepKeeps(s: State, e: Event)
    requires Inv(s)
    ensures Inv(Step(s, e)) && OnlyAdds(s.settled, Step(s, e).settled) && Step(s, e).clock == s.clock + 1
  {
    TickKeeps(s);
    ReactKeeps(Tick(s), e);
    Relayed(s.settled, Tick(s), React(Tick(s), e));
  }

  lemma TickKeeps(s: State)
    requires Inv(s)
    ensures Inv(Tick(s)) && Tick(s).settled == s.settled
  {
  }

  lemma Relayed(settled: map<WaiterId, Settlement>, now: State, after: State)
    requires settled == now.settled && OnlyAdds(now.settled, after.settled)
    ensures OnlyAdds(settled, after.settled)
  {
  }

  lemma ReactKeeps(s: State, e: Event)
    requires Inv(s)
    ensures Inv(React(s, e)) && OnlyAdds(s.settled, React(s, e).settled) && React(s, e).clock == s.clock
  {
    match e
    case Drop(t) => ForgetKeeps(s, s.owners - {t}, s.unroutable - {t});
    case Invalidate(t) => InvalidateKeeps(s, t);
    case BeginRefresh(t) => ForgetKeeps(s, s.owners, s.unroutable - {t});
    case ResetAll(refresh) => ResetKeeps(s, refresh);
    case CloseAll => CloseKeeps(s);
    case Observe(t, snapshot, followed, source) => ObserveKeeps(s, t, snapshot, followed, source);
    case Wait(t) => WaitKeeps(s, t);
    case TimeOut(w) => TimeOutKeeps(s, w);
  }

  lemma ForgetKeeps(s: State, owners: map<ThreadId, Source>, unroutable: set<ThreadId>)
    requires Inv(s) && owners.Keys <= s.owners.Keys && unroutable <= s.unroutable
    ensures var after := s.(owners := owners, unroutable := unroutable);
            Inv(after) && OnlyAdds(s.settled, after.settled)
  {
  }

  lemma InvalidateKeeps(s: State, t: ThreadId)
    requires Inv(s)
    ensures Inv(React(s, Invalidate(t))) && OnlyAdds(s.settled, React(s, Invalidate(t)).settled)
  {
    SettlingAccounts(s.(owners := s.owners - {t}, unroutable := s.unroutable + {t}), t, Unroutable);
  }

  lemma TimeOutKeeps(s: State, w: WaiterId)
    requires Inv(s)
    ensures Inv(React(s, TimeOut(w))) && OnlyAdds(s.settled, React(s, TimeOut(w)).settled)
  {
  }

  lemma ResetKeeps(s: State, refresh: set<ThreadId>)
    requires Inv(s)
    ensures Inv(React(s, ResetAll(refresh))) && OnlyAdds(s.settled, React(s, ResetAll(refresh)).settled)
  {
    EverybodyAccounts(s.(owners := map[], unroutable := refresh), Reset);
  }

  lemma EverybodyAccounts(s: State, result: WaitResult)
    requires Accounted(s)
    ensures Accounted(SettleEverybody(s, result)) && OnlyAdds(s.settled, SettleEverybody(s, result).settled)
  {
    var all := SettleEverybody(s, result);
    forall w ensures (w in all.waiting || w in all.settled) <==> (w in s.waiting || w in s.settled) {}
  }

  lemma CloseKeeps(s: State)
    requires Inv(s)
    ensures Inv(React(s, CloseAll)) && OnlyAdds(s.settled, React(s, CloseAll).settled)
  {
    EverybodyAccounts(s.(closed := true, owners := map[], unroutable := {}), Closed);
  }

  lemma ObserveKeeps(s: State, t: ThreadId, snapshot: bool, followed: bool, source: Option<Source>)
    requires Inv(s)
    ensures var after := React(s, Observe(t, snapshot, followed, source));
            Inv(after) && OnlyAdds(s.settled, after.settled)
  {
    if source.None? { SettlingAccounts(s.(unroutable := s.unroutable + {t}), t, Unroutable); }
    else {
      SettlingAccounts(
        s.(unroutable := s.unroutable - {t}, owners := s.owners[t := source.value]), t, Owner(source.value));
    }
  }

  lemma WaitKeeps(s: State, t: ThreadId)
    requires Inv(s)
    ensures Inv(React(s, Wait(t))) && OnlyAdds(s.settled, React(s, Wait(t)).settled)
  {
    var after := React(s, Wait(t));
    forall w
      ensures (w in after.waiting || w in after.settled) <==> (w in s.waiting || w in s.settled || w == s.issued)
    {
    }
  }

  lemma {:induction false} RegistryStaysConsistent(events: seq<Event>)
    ensures Inv(Exec(events)) && Exec(events).clock == |events|
  {
    if events != [] {
      RegistryStaysConsistent(events[..|events| - 1]);
      StepKeeps(Exec(events[..|events| - 1]), events[|events| - 1]);
    }
  }

  /** A settlement is never changed, whatever happens later. */
  lemma {:induction false} SettledOnce(events: seq<Event>, n: nat, w: WaiterId)
    requires n <= |events| && w in Exec(events[..n]).settled
    ensures w in Exec(events).settled && Exec(events).settled[w] == Exec(events[..n]).settled[w]
  {
    if n < |events| {
      var front := events[..|events| - 1];
      assert front[..n] == events[..n];
      SettledOnce(front, n, w);
      RegistryStaysConsistent(front);
      StepKeeps(Exec(front), events[|events| - 1]);
    } else {
      assert events[..n] == events;
    }
  }

  // ---------- who owns a task ----------

  predicate Clears(e: Event, t: ThreadId) {
    match e
    case Drop(u) => u == t
    case Invalidate(u) => u == t
    case ResetAll(_) => true
    case CloseAll => true
    case _ => false
  }

  /** A snapshot of a followed task whose source can be routed to. */
  predicate Routable(e: Event, t: ThreadId, source: Source) {
    e.Observe? && e.thread == t && e.snapshot && e.followed && e.source == Some(source)
  }

  /** The i-th event is the first routable snapshot of the task since everything was last cleared. */
  ghost predicate FirstSinceClear(events: seq<Event>, i: nat, t: ThreadId, source: Source) {
    && i < |events|
    && Routable(events[i], t, source)
    && (forall j :: i < j < |events| ==> !Clears(events[j], t))
    && (forall j, other :: 0 <= j < i && Routable(events[j], t, other) ==>
        exists k :: j < k < i && Clears(events[k], t))
  }

  ghost predicate HasFirst(events: seq<Event>, t: ThreadId, source: Source) {
    exists i :: FirstSinceClear(events, i, t, source)
  }

  /** No routable snapshot of the task was seen since the last clear. */
  ghost predicate NoneSinceClear(events: seq<Event>, t: ThreadId) {
    forall j, source :: 0 <= j < |events| && Routable(events[j], t, source) ==>
      exists k :: j < k < |events| && Clears(events[k], t)
  }

  lemma FirstExtends(events: seq<Event>, e: Event, i: nat, t: ThreadId, source: Source)
    requires FirstSinceClear(events, i, t, source) && !Clears(e, t)
    ensures FirstSinceClear(events + [e], i, t, source)
  {
    var after := events + [e];
    forall j, other | 0 <= j < i && Routable(after[j], t, other) ensures exists k :: j < k < i && Clears(after[k], t) {
      assert Routable(events[j], t, other);
      var k :| j < k < i && Clears(events[k], t);
      assert Clears(after[k], t);
    }
  }

  lemma NoneExtends(events: seq<Event>, e: Event, t: ThreadId)
    requires NoneSinceClear(events, t)
    ensures (forall source :: !Routable(e, t, source)) ==> NoneSinceClear(events + [e], t)
    ensures forall source :: Routable(e, t, source) ==> FirstSinceClear(events + [e], |events|, t, source)
  {
    var after := events + [e];
    forall j, source | 0 <= j < |events| && Routable(after[j], t, source)
      ensures exists k :: j < k < |events| && Clears(after[k], t)
    {
      assert Routable(events[j], t, source);
      var k :| j < k < |events| && Clears(events[k], t);
      assert Clears(after[k], t);
    }
    forall j, source | 0 <= j < |after| && Routable(after[j], t, source) && forall other :: !Routable(e, t, other)
      ensures exists k :: j < k < |after| && Clears(after[k], t)
    {
      assert j < |events|;
      var k :| j < k < |events| && Clears(after[k], t);
    }
  }

  lemma ClearLeavesNone(events: seq<Event>, e: Event, t: ThreadId)
    requires Clears(e, t)
    ensures NoneSinceClear(events + [e], t)
  {
    assert Clears((events + [e])[|events|], t);
  }

  /** The registered owner is the source of the first routable snapshot since the last clear, and none otherwise. */
  lemma {:induction false} OwnerIsFirstRoutable(events: seq<Event>, t: ThreadId)
    ensures t in Exec(events).owners ==> HasFirst(events, t, Exec(events).owners[t])
    ensures t !in Exec(events).owners ==> NoneSinceClear(events, t)
  {
    if events != [] {
      var front, e := events[..|events| - 1], events[|events| - 1];
      OwnerIsFirstRoutable(front, t);
      assert events == front + [e];
      if Clears(e, t) {
        ClearLeavesNone(front, e, t);
      } else if t in Exec(front).owners {
        var i :| FirstSinceClear(front, i, t, Exec(front).owners[t]);
        FirstExtends(front, e, i, t, Exec(front).owners[t]);
        assert FirstSinceClear(events, i, t, Exec(events).owners[t]);
      } else {
        NoneExtends(front, e, t);
        if t in Exec(events).owners { assert FirstSinceClear(events, |front|, t, Exec(events).owners[t]); }
      }
    }
  }

  /** A fresh settlement with an owner names the owner registered right then, and is stamped with this event. */
  lemma OwnerGivenIsRegistered(s: State, e: Event, w: WaiterId)
    requires Inv(s) && w !in s.settled && w in Step(s, e).settled && Step(s, e).settled[w].result.Owner?
    ensures var given := Step(s, e).settled[w];
            && given.at == s.clock + 1
            && given.thread in Step(s, e).owners && Step(s, e).owners[given.thread] == given.result.owner
  {
  }

  /** Every waiter that was given an owner was given the first routable source since the last clear, as of then. */
  lemma {:induction false} OwnerResultIsEvidence(events: seq<Event>, w: WaiterId)
    requires w in Exec(events).settled && Exec(events).settled[w].result.Owner?
    ensures var given := Exec(events).settled[w];
            given.at <= |events| && HasFirst(events[..given.at], given.thread, given.result.owner)
  {
    assert events != [];
    var front, e, given := events[..|events| - 1], events[|events| - 1], Exec(events).settled[w];
    RegistryStaysConsistent(front);
    if w in Exec(front).settled {
      SettledOnce(events, |front|, w);
      OwnerResultIsEvidence(front, w);
      assert front[..given.at] == events[..given.at];
    } else {
      OwnerGivenIsRegistered(Exec(front), e, w);
      OwnerIsFirstRoutable(events, given.thread);
      assert events[..|events|] == events;
    }
  }

  /** Every settlement has its cause: the event it is stamped with, or what was already known then. */
  lemma {:induction false} SettlementHasItsCause(events: seq<Event>, w: WaiterId)
    requires w in Exec(events).settled
    ensures var told := Exec(events).settled[w];
            0 < told.at <= |events| && Caused(events, told, w)
  {
    assert events != [];
    var front, e, told := events[..|events| - 1], events[|events| - 1], Exec(events).settled[w];
    RegistryStaysConsistent(front);
    if w in Exec(front).settled {
      SettledOnce(events, |front|, w);
      SettlementHasItsCause(front, w);
      assert front[..told.at] == events[..told.at];
    } else {
      ToldNow(Exec(front), e, w);
      assert events[..|events|] == events;
    }
  }

  ghost predicate Caused(events: seq<Event>, told: Settlement, w: WaiterId)
    requires 0 < told.at <= |events|
  {
    var e, now := events[told.at - 1], Exec(events[..told.at]);
    match told.result
    case Owner(owner) => told.thread in now.owners && now.owners[told.thread] == owner
    case Closed => now.closed
    case Reset => e.ResetAll?
    case Timeout => e == TimeOut(w)
    case Unroutable => told.thread in now.unroutable
  }

  lemma ToldNow(s: State, e: Event, w: WaiterId)
    requires Inv(s) && w !in s.settled && w in Step(s, e).settled
    ensures var told, now := Step(s, e).settled[w], Step(s, e);
            && told.at == s.clock + 1
            && (told.result.Owner? ==> told.thread in now.owners && now.owners[told.thread] == told.result.owner)
            && (told.result.Closed? ==> now.closed)
            && (told.result.Reset? ==> e.ResetAll?)
            && (told.result.Timeout? ==> e == TimeOut(w))
            && (told.result.Unroutable? ==> told.thread in now.unroutable)
  {
  }

  /** What this event tells a waiter of the task, if anything. */
  function TellsWaiter(e: Event, w: WaiterId, t: ThreadId): Option<WaitResult> {
    match e
    case Invalidate(u) => if u == t then Some(Unroutable) else None
    case ResetAll(_) => Some(Reset)
    case CloseAll => Some(Closed)
    case Observe(u, snapshot, followed, source) =>
      if u != t || !snapshot || !followed then None
      else if source.None? then Some(Unroutable) else Some(Owner(source.value))
    case TimeOut(v) => if v == w then Some(Timeout) else None
    case _ => None
  }

  lemma StepTo(events: seq<Event>, e: Event)
    ensures Exec(events + [e]) == Step(Exec(events), e)
  {
    assert (events + [e])[..|events|] == events;
  }

  /** After every history a waiter is settled by the next event exactly if that is its own timer, a reset, the close, an
      invalidation of its task or a snapshot of it; each with its own answer, and by nothing else. */
  lemma WaiterIsToldExactlyBy(events: seq<Event>, e: Event, w: WaiterId)
    requires w in Exec(events).waiting
    ensures var t, after := Exec(events).waiting[w], Exec(events + [e]);
            var told := TellsWaiter(e, w, t);
            && (told.Some? ==>
                  && w !in after.waiting && w in after.settled
                  && after.settled[w] == Settlement(t, told.value, |events| + 1))
            && (told.None? ==> w in after.waiting && after.waiting[w] == t && w !in after.settled)
  {
    hide Exec;
    RegistryStaysConsistent(events);
    StepTo(events, e);
  }

  /** After every history a new wait is told the owner if there is one, else of the close, else of the mark; and with
      none of these it waits. */
  lemma NewWaitIsToldExactly(events: seq<Event>, t: ThreadId)
    ensures var s, after := Exec(events), Exec(events + [Wait(t)]);
            var told := if t in s.owners then Some(Owner(s.owners[t]))
                        else if s.closed then Some(Closed)
                        else if t in s.unroutable then Some(Unroutable) else None;
            && (told.Some? ==>
                  && s.issued !in after.waiting && s.issued in after.settled
                  && after.settled[s.issued] == Settlement(t, told.value, |events| + 1))
            && (told.None? ==> s.issued in after.waiting && after.waiting[s.issued] == t)
  {
    hide Exec;
    RegistryStaysConsistent(events);
    StepTo(events, Wait(t));
  }

  // ---------- which tasks are unroutable ----------

  /** The i-th event marks the task: invalidated, reset for a refresh, or a sourceless snapshot of an unowned task. */
  ghost predicate Marks(events: seq<Event>, i: nat, t: ThreadId)
    requires i < |events|
  {
    match events[i]
    case Invalidate(u) => u == t
    case ResetAll(refresh) => t in refresh
    case Observe(u, snapshot, followed, source) =>
      u == t && snapshot && followed && source.None? && NoneSinceClear(events[..i], t)
    case _ => false
  }

  predicate Unmarks(e: Event, t: ThreadId) {
    match e
    case Drop(u) => u == t
    case BeginRefresh(u) => u == t
    case ResetAll(refresh) => t !in refresh
    case CloseAll => true
    case Observe(u, snapshot, followed, source) => u == t && snapshot && followed && source.Some?
    case _ => false
  }

  ghost predicate MarkedLast(events: seq<Event>, t: ThreadId) {
    exists i :: 0 <= i < |events| && Marks(events, i, t) && forall j :: i < j < |events| ==> !Unmarks(events[j], t)
  }

  /** A task is unroutable exactly when nothing unmarked it since it was last marked. */
  lemma {:induction false} UnroutableIsLastMark(events: seq<Event>, t: ThreadId)
    ensures t in Exec(events).unroutable <==> MarkedLast(events, t)
  {
    if events != [] {
      var front, e := events[..|events| - 1], events[|events| - 1];
      UnroutableIsLastMark(front, t);
      RegistryStaysConsistent(front);
      OwnerIsFirstRoutable(front, t);
      MarkCarriesOver(front, e, t);
      assert events == front + [e] && events[..|front|] == front;
      UnroutableStep(Exec(front), e, t);
      OwnedIsNotNone(front, t);
    }
  }

  /** The last mark is the new event's own, or an earlier one it leaves standing. */
  lemma MarkCarriesOver(front: seq<Event>, e: Event, t: ThreadId)
    ensures MarkedLast(front + [e], t)
            <==> Marks(front + [e], |front|, t) || (MarkedLast(front, t) && !Unmarks(e, t))
  {
    var events := front + [e];
    forall i | 0 <= i < |front| ensures Marks(events, i, t) <==> Marks(front, i, t) {
      assert events[..i] == front[..i];
    }
    if MarkedLast(front, t) && !Unmarks(e, t) {
      var i :| 0 <= i < |front| && Marks(front, i, t) && forall j :: i < j < |front| ==> !Unmarks(front[j], t);
      assert Marks(events, i, t) && forall j :: i < j < |events| ==> !Unmarks(events[j], t);
    }
    if MarkedLast(events, t) && !Marks(events, |front|, t) {
      var i :| 0 <= i < |events| && Marks(events, i, t) && forall j :: i < j < |events| ==> !Unmarks(events[j], t);
      assert Marks(front, i, t) && !Unmarks(events[|front|], t);
      assert forall j :: i < j < |front| ==> events[j] == front[j];
    }
  }

  lemma UnroutableStep(s: State, e: Event, t: ThreadId)
    requires Inv(s)
    ensures t in Step(s, e).unroutable
            <==> || e == Invalidate(t) || (e.ResetAll? && t in e.refresh)
                 || (e.Observe? && e.thread == t && e.snapshot && e.followed && e.source.None? && t !in s.owners)
                 || (t in s.unroutable && !Unmarks(e, t))
  {
  }

  lemma OwnedIsNotNone(events: seq<Event>, t: ThreadId)
    ensures t in Exec(events).owners <==> !NoneSinceClear(events, t)
  {
    OwnerIsFirstRoutable(events, t);
    if t in Exec(events).owners {
      var i: nat :| FirstSinceClear(events, i, t, Exec(events).owners[t]);
      assert Routable(events[i], t, Exec(events).owners[t]);
    }
  }
}
