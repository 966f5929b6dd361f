/** The owner registry as the session updates it. */
module OwnerRegistry {
  import opened Types
  import opened Owners

  class DesktopThreadOwners {
    var owners: map<ThreadId, Source>
    var unroutable: set<ThreadId>
    /** The resolvers waiting per task, as the code groups them. */
    var waiters: map<ThreadId, set<WaiterId>>
    var closed: bool
    /** Each wait has its own resolver: the next one's name. */
    var issued: WaiterId
    ghost var waiting: map<WaiterId, ThreadId>
    ghost var settled: map<WaiterId, Settlement>
    ghost var clock: nat

    ghost function View(): State
      reads this
    {
      State(owners, unroutable, waiting, closed, issued, settled, clock)
    }

    /** The grouping is exactly the waiting resolvers, and keeps no empty group. */
    ghost predicate Valid()
      reads this
    {
      && Inv(View())
      && Grouped(waiters, waiting)
    }

    constructor ()
      ensures Valid() && View() == INITIAL
    {
      owners, unroutable, waiters, closed := map[], {}, map[], false;
      waiting, issued, settled, clock := map[], 0, map[], 0;
      new;
      RegistryStaysConsistent([]);
    }

    method ResolveThread(t: ThreadId, result: WaitResult)
      requires Grouped(waiters, waiting)
      modifies this`waiters, this`waiting, this`settled
      ensures Grouped(waiters, waiting)
      ensures View() == SettleThread(old(View()), t, result) && waiters == old(waiters) - {t}
    {
      if t !in waiters {
        NobodyWaits(View(), t, result);
        return;
      }
      waiters := waiters - {t};
      settled := settled + ToldOf(waiting, t, result, clock);
      waiting := WaitingExcept(waiting, t);
    }

    method ResolveWaiters(result: WaitResult)
      requires Grouped(waiters, waiting)
      modifies this`waiters, this`waiting, this`settled
      ensures Grouped(waiters, waiting)
      ensures View() == SettleEverybody(old(View()), result)
    {
      var left := waiters.Keys;
      ghost var before := View();
      NobodySettled(before, left, result);
      while left != {}
        invariant Grouped(waiters, waiting) && left == waiters.Keys
        invariant View() == SettledOutside(before, left, result)
        decreases left
      {
        var t :| t in left;
        OneMoreSettled(before, left, t, result);
        ResolveThread(t, result);
        left := left - {t};
      }
      EverybodySettled(before, result);
    }

    method MarkUnroutable(t: ThreadId)
      requires Grouped(waiters, waiting)
      modifies this`unroutable, this`waiters, this`waiting, this`settled
      ensures Grouped(waiters, waiting)
      ensures View() == SettleThread(old(View()).(unroutable := old(unroutable) + {t}), t, Unroutable)
    {
      unroutable := unroutable + {t};
      ResolveThread(t, Unroutable);
    }

    method Pin(t: ThreadId, source: Source)
      requires Grouped(waiters, waiting)
      modifies this`unroutable, this`owners, this`waiters, this`waiting, this`settled
      ensures Grouped(waiters, waiting)
      ensures View() == SettleThread(
                          old(View()).(unroutable := old(unroutable) - {t}, owners := old(owners)[t := source]),
                          t, Owner(source))
    {
      unroutable := unroutable - {t};
      owners := owners[t := source];
      ResolveThread(t, Owner(source));
    }

    method Drop(t: ThreadId)
      requires Valid()
      modifies this
      ensures Valid() && View() == Step(old(View()), Event.Drop(t))
    {
      StepKeeps(View(), Event.Drop(t));
      clock := clock + 1;
      assert View() == Tick(old(View()));
      owners := owners - {t};
      unroutable := unroutable - {t};
    }

    method Invalidate(t: ThreadId)
      requires Valid()
      modifies this
      ensures Valid() && View() == Step(old(View()), Event.Invalidate(t))
    {
      StepKeeps(View(), Event.Invalidate(t));
      clock := clock + 1;
      assert View() == Tick(old(View()));
      owners := owners - {t};
      MarkUnroutable(t);
    }

    /** Whatever led here, a refresh is needed exactly if nothing unmarked the task since it was last marked. */
    method NeedsRefresh(t: ThreadId, ghost events: seq<Event>) returns (needed: bool)
      requires View() == Exec(events)
      ensures needed <==> MarkedLast(events, t)
    {
      UnroutableIsLastMark(events, t);
      needed := t in unroutable;
    }

    method BeginRefresh(t: ThreadId)
      requires Valid()
      modifies this
      ensures Valid() && View() == Step(old(View()), Event.BeginRefresh(t))
    {
      StepKeeps(View(), Event.BeginRefresh(t));
      clock := clock + 1;
      assert View() == Tick(old(View()));
      unroutable := unroutable - {t};
    }

    method ResetOwners(refresh: set<ThreadId>)
      requires Valid()
      modifies this
      ensures Valid() && View() == Step(old(View()), ResetAll(refresh))
    {
      StepKeeps(View(), ResetAll(refresh));
      clock := clock + 1;
      assert View() == Tick(old(View()));
      owners := map[];
      unroutable := refresh;
      ResolveWaiters(Reset);
    }

    method Close()
      requires Valid()
      modifies this
      ensures Valid() && View() == Step(old(View()), CloseAll)
    {
      StepKeeps(View(), CloseAll);
      clock := clock + 1;
      assert View() == Tick(old(View()));
      closed := true;
      owners := map[];
      unroutable := {};
      ResolveWaiters(Closed);
    }

    method Observe(t: ThreadId, snapshot: bool, followed: bool, source: Option<Source>)
      requires Valid()
      modifies this
      ensures Valid() && View() == Step(old(View()), Event.Observe(t, snapshot, followed, source))
    {
      StepKeeps(View(), Event.Observe(t, snapshot, followed, source));
      clock := clock + 1;
      assert View() == Tick(old(View()));
      if snapshot && followed && t !in owners {
        if source.None? { MarkUnroutable(t); } else { Pin(t, source.value); }
      }
    }

    /** A wait is told at once what is already known, and otherwise joins its task's group. */
    method Wait(t: ThreadId) returns (told: Option<WaitResult>)
      requires Valid()
      modifies this
      ensures Valid() && View() == Step(old(View()), Event.Wait(t)) && told == Immediate(old(View()), t)
    {
      StepKeeps(View(), Event.Wait(t));
      clock := clock + 1;
      assert View() == Tick(old(View()));
      told := if t in owners then Some(Owner(owners[t]))
              else if closed then Some(Closed)
              else if t in unroutable then Some(Unroutable)
              else None;
      if told.Some? {
        settled := settled[issued := Settlement(t, told.value, clock)];
      } else {
        assert issued !in waiting;
        Join(t, issued);
      }
      issued := issued + 1;
    }

    method Join(t: ThreadId, w: WaiterId)
      requires Grouped(waiters, waiting) && w !in waiting
      modifies this`waiters, this`waiting
      ensures Grouped(waiters, waiting) && waiting == old(waiting)[w := t]
    {
      waiters := waiters[t := (if t in waiters then waiters[t] else {}) + {w}];
      waiting := waiting[w := t];
    }

    /** A waiter's own timer: it leaves its group, and an empty group is forgotten. */
    method TimeOut(t: ThreadId, w: WaiterId)
      requires Valid() && (w in waiting ==> waiting[w] == t)
      modifies this
      ensures Valid() && View() == Step(old(View()), Event.TimeOut(w))
    {
      StepKeeps(View(), Event.TimeOut(w));
      clock := clock + 1;
      assert View() == Tick(old(View()));
      if t in waiters && w in waiters[t] {
        var group := waiters[t] - {w};
        waiters := if group == {} then waiters - {t} else waiters[t := group];
        settled := settled[w := Settlement(t, Timeout, clock)];
        waiting := waiting - {w};
      }
    }
  }

  lemma NobodyWaits(s: State, t: ThreadId, result: WaitResult)
    requires forall w :: w in s.waiting ==> s.waiting[w] != t
    ensures SettleThread(s, t, result) == s
  {
    var after := SettleThread(s, t, result);
    assert after.waiting == s.waiting && after.settled == s.settled;
  }

  function ToldOutside(
    waiting: map<WaiterId, ThreadId>, left: set<ThreadId>, result: WaitResult, at: nat): map<WaiterId, Settlement>
  {
    map w | w in waiting && waiting[w] !in left :: Settlement(waiting[w], result, at)
  }

  function WaitingIn(waiting: map<WaiterId, ThreadId>, left: set<ThreadId>): map<WaiterId, ThreadId> {
    map w | w in waiting && waiting[w] in left :: waiting[w]
  }

  /** Everybody whose task is no longer left has been settled. */
  ghost function SettledOutside(s: State, left: set<ThreadId>, result: WaitResult): State {
    s.(settled := s.settled + ToldOutside(s.waiting, left, result, s.clock), waiting := WaitingIn(s.waiting, left))
  }

  lemma NobodySettled(s: State, left: set<ThreadId>, result: WaitResult)
    requires forall w :: w in s.waiting ==> s.waiting[w] in left
    ensures SettledOutside(s, left, result) == s
  {
    var after := SettledOutside(s, left, result);
    assert after.waiting == s.waiting && after.settled == s.settled;
  }

  lemma OneMoreSettled(s: State, left: set<ThreadId>, t: ThreadId, result: WaitResult)
    requires t in left
    ensures SettleThread(SettledOutside(s, left, result), t, result) == SettledOutside(s, left - {t}, result)
  {
    OneMoreTold(s.waiting, left, t, result, s.clock);
    MergeTwice(s.settled, ToldOutside(s.waiting, left, result, s.clock),
               ToldOf(WaitingIn(s.waiting, left), t, result, s.clock));
    hide ToldOutside, WaitingIn, ToldOf, WaitingExcept;
  }

  lemma OneMoreTold(waiting: map<WaiterId, ThreadId>, left: set<ThreadId>, t: ThreadId, result: WaitResult, at: nat)
    requires t in left
    ensures ToldOutside(waiting, left, result, at) + ToldOf(WaitingIn(waiting, left), t, result, at)
            == ToldOutside(waiting, left - {t}, result, at)
    ensures WaitingExcept(WaitingIn(waiting, left), t) == WaitingIn(waiting, left - {t})
  {
  }

  lemma MergeTwice(
    first: map<WaiterId, Settlement>, second: map<WaiterId, Settlement>, third: map<WaiterId, Settlement>)
    ensures first + second + third == first + (second + third)
  {
  }

  lemma EverybodySettled(s: State, result: WaitResult)
    ensures SettledOutside(s, {}, result) == SettleEverybody(s, result)
  {
    var outside, all := SettledOutside(s, {}, result), SettleEverybody(s, result);
    assert outside.waiting == all.waiting && outside.settled == all.settled;
  }

  ghost predicate Grouped(waiters: map<ThreadId, set<WaiterId>>, waiting: map<WaiterId, ThreadId>) {
    && (forall w :: w in waiting ==> waiting[w] in waiters && w in waiters[waiting[w]])
    && (forall t, w :: t in waiters && w in waiters[t] ==> w in waiting && waiting[w] == t)
    && (forall t :: t in waiters ==> waiters[t] != {})
  }
}
