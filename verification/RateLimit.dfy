/** The per-task sliding-window limiter, and the limiter that would remember everything. */
module RateLimit {
  import opened Types

  datatype Limits = Limits(limit: int, window: int)

  datatype Call = Call(thread: ThreadId, now: int)

  /** The timestamps after the cutoff, in order. */
  function Recent(stamps: seq<int>, cutoff: int): seq<int> {
    if stamps == [] then []
    else Recent(stamps[..|stamps| - 1], cutoff)
         + if stamps[|stamps| - 1] > cutoff then [stamps[|stamps| - 1]] else []
  }

  function StampsOf(events: map<ThreadId, seq<int>>, t: ThreadId): seq<int> {
    if t in events then events[t] else []
  }

  function Pruned(events: map<ThreadId, seq<int>>, cutoff: int): map<ThreadId, seq<int>> {
    map t | t in events && Recent(events[t], cutoff) != [] :: Recent(events[t], cutoff)
  }

  /** The limiter as it is: every call prunes every task. */
  function Allow(events: map<ThreadId, seq<int>>, limits: Limits, call: Call): (map<ThreadId, seq<int>>, bool) {
    var cutoff := call.now - limits.window;
    var pruned := Pruned(events, cutoff);
    var recent := Recent(StampsOf(pruned, call.thread), cutoff);
    if |recent| >= limits.limit then (pruned[call.thread := recent], false)
    else (pruned[call.thread := recent + [call.now]], true)
  }

  /** The reference: every accepted call is remembered forever. */
  function Remember(history: map<ThreadId, seq<int>>, limits: Limits, call: Call): (map<ThreadId, seq<int>>, bool) {
    var stamps := StampsOf(history, call.thread);
    if |Recent(stamps, call.now - limits.window)| >= limits.limit then (history, false)
    else (history[call.thread := stamps + [call.now]], true)
  }

  lemma {:induction false} RecentOfRecent(stamps: seq<int>, early: int, late: int)
    requires early <= late
    ensures Recent(Recent(stamps, early), late) == Recent(stamps, late)
  {
    if stamps != [] {
      RecentOfRecent(stamps[..|stamps| - 1], early, late);
      var last := stamps[|stamps| - 1];
      var front := Recent(stamps[..|stamps| - 1], early);
      if last > early { RecentAppend(front, last, late); }
      else { assert front + [] == front; }
    }
  }

  lemma RecentAppend(stamps: seq<int>, stamp: int, cutoff: int)
    ensures Recent(stamps + [stamp], cutoff) == Recent(stamps, cutoff) + if stamp > cutoff then [stamp] else []
  {
    assert (stamps + [stamp])[..|stamps|] == stamps;
  }

  /** From this cutoff on, pruned and remembered timestamps count the same. */
  ghost predicate Agrees(events: map<ThreadId, seq<int>>, history: map<ThreadId, seq<int>>, cutoff: int) {
    forall t, c :: c >= cutoff ==> Recent(StampsOf(events, t), c) == Recent(StampsOf(history, t), c)
  }

  lemma PruningAgrees(events: map<ThreadId, seq<int>>, t: ThreadId, cutoff: int, c: int)
    requires cutoff <= c
    ensures Recent(StampsOf(Pruned(events, cutoff), t), c) == Recent(StampsOf(events, t), c)
  {
    RecentOfRecent(StampsOf(events, t), cutoff, c);
    if t in events && Recent(events[t], cutoff) == [] { assert Recent([], c) == []; }
  }

  /** One call with a cutoff no earlier than any before: same decision, and still in agreement. */
  lemma CallAgrees(
    events: map<ThreadId, seq<int>>, history: map<ThreadId, seq<int>>, limits: Limits, call: Call, cutoff: int)
    requires Agrees(events, history, cutoff) && cutoff <= call.now - limits.window
    ensures Allow(events, limits, call).1 == Remember(history, limits, call).1
    ensures Agrees(Allow(events, limits, call).0, Remember(history, limits, call).0, call.now - limits.window)
  {
    var now := call.now - limits.window;
    SameDecision(events, history, limits, call);
    forall t, c | c >= now
      ensures Recent(StampsOf(Allow(events, limits, call).0, t), c)
              == Recent(StampsOf(Remember(history, limits, call).0, t), c)
    {
      assert Recent(StampsOf(events, t), c) == Recent(StampsOf(history, t), c);
      if t == call.thread { CalledTaskAgrees(events, history, limits, call, c); }
      else { OtherTaskAgrees(events, history, limits, call, t, c); }
    }
  }

  lemma SameDecision(
    events: map<ThreadId, seq<int>>, history: map<ThreadId, seq<int>>, limits: Limits, call: Call)
    requires Recent(StampsOf(events, call.thread), call.now - limits.window)
             == Recent(StampsOf(history, call.thread), call.now - limits.window)
    ensures Allow(events, limits, call).1 == Remember(history, limits, call).1
  {
    var now := call.now - limits.window;
    PruningAgrees(events, call.thread, now, now);
  }

  lemma OtherTaskAgrees(
    events: map<ThreadId, seq<int>>, history: map<ThreadId, seq<int>>, limits: Limits, call: Call, t: ThreadId, c: int)
    requires t != call.thread && c >= call.now - limits.window
    requires Recent(StampsOf(events, t), c) == Recent(StampsOf(history, t), c)
    ensures Recent(StampsOf(Allow(events, limits, call).0, t), c)
            == Recent(StampsOf(Remember(history, limits, call).0, t), c)
  {
    OtherTaskUntouched(events, history, limits, call, t);
    PruningAgrees(events, t, call.now - limits.window, c);
  }

  lemma OtherTaskUntouched(
    events: map<ThreadId, seq<int>>, history: map<ThreadId, seq<int>>, limits: Limits, call: Call, t: ThreadId)
    requires t != call.thread
    ensures StampsOf(Allow(events, limits, call).0, t) == StampsOf(Pruned(events, call.now - limits.window), t)
    ensures StampsOf(Remember(history, limits, call).0, t) == StampsOf(history, t)
  {
  }

  lemma CalledTaskAgrees(
    events: map<ThreadId, seq<int>>, history: map<ThreadId, seq<int>>, limits: Limits, call: Call, c: int)
    requires c >= call.now - limits.window
    requires Recent(StampsOf(events, call.thread), c) == Recent(StampsOf(history, call.thread), c)
    requires Allow(events, limits, call).1 == Remember(history, limits, call).1
    ensures Recent(StampsOf(Allow(events, limits, call).0, call.thread), c)
            == Recent(StampsOf(Remember(history, limits, call).0, call.thread), c)
  {
    var now := call.now - limits.window;
    var kept := StampsOf(Pruned(events, now), call.thread);
    PruningAgrees(events, call.thread, now, c);
    RecentOfRecent(kept, now, c);
    RecentAppend(Recent(kept, now), call.now, c);
    RecentAppend(StampsOf(history, call.thread), call.now, c);
  }

  function Decisions(events: map<ThreadId, seq<int>>, limits: Limits, calls: seq<Call>): seq<bool>
    decreases |calls|
  {
    if calls == [] then []
    else
      var (after, allowed) := Allow(events, limits, calls[0]);
      [allowed] + Decisions(after, limits, calls[1..])
  }

  function FullDecisions(history: map<ThreadId, seq<int>>, limits: Limits, calls: seq<Call>): seq<bool>
    decreases |calls|
  {
    if calls == [] then []
    else
      var (after, allowed) := Remember(history, limits, calls[0]);
      [allowed] + FullDecisions(after, limits, calls[1..])
  }

  function History(history: map<ThreadId, seq<int>>, limits: Limits, calls: seq<Call>): map<ThreadId, seq<int>>
    decreases |calls|
  {
    if calls == [] then history else History(Remember(history, limits, calls[0]).0, limits, calls[1..])
  }

  ghost predicate InOrder(calls: seq<Call>) {
    forall i, j :: 0 <= i < j < |calls| ==> calls[i].now <= calls[j].now
  }

  lemma {:induction false} PruningIsInvisible(
    events: map<ThreadId, seq<int>>, history: map<ThreadId, seq<int>>, limits: Limits, calls: seq<Call>, cutoff: int)
    requires InOrder(calls) && Agrees(events, history, cutoff)
    requires calls != [] ==> cutoff <= calls[0].now - limits.window
    ensures Decisions(events, limits, calls) == FullDecisions(history, limits, calls)
    decreases |calls|
  {
    if calls != [] {
      CallAgrees(events, history, limits, calls[0], cutoff);
      PruningIsInvisible(Allow(events, limits, calls[0]).0, Remember(history, limits, calls[0]).0, limits,
                         calls[1..], calls[0].now - limits.window);
    }
  }

  /** For calls in time order the pruned limiter decides exactly as one that remembers every accepted call. */
  lemma LimiterRefinesFullHistory(limits: Limits, calls: seq<Call>)
    requires InOrder(calls)
    ensures Decisions(map[], limits, calls) == FullDecisions(map[], limits, calls)
  {
    PruningIsInvisible(map[], map[], limits, calls, if calls == [] then 0 else calls[0].now - limits.window);
  }

  // ---------- what the window bounds ----------

  /** Accepted hits in the half-open window that ends at `end`. */
  function Hits(stamps: seq<int>, window: int, end: int): nat {
    if stamps == [] then 0
    else Hits(stamps[..|stamps| - 1], window, end)
         + if end - window < stamps[|stamps| - 1] <= end then 1 else 0
  }

  ghost predicate Bounded(stamps: seq<int>, limits: Limits, latest: int) {
    && (forall i :: 0 <= i < |stamps| ==> stamps[i] <= latest)
    && (forall i :: 0 <= i < |stamps| ==> Hits(stamps, limits.window, stamps[i]) <= limits.limit)
  }

  lemma {:induction false} HitsAreRecent(stamps: seq<int>, window: int, end: int)
    requires forall i :: 0 <= i < |stamps| ==> stamps[i] <= end
    ensures Hits(stamps, window, end) == |Recent(stamps, end - window)|
  {
    if stamps != [] { HitsAreRecent(stamps[..|stamps| - 1], window, end); }
  }

  lemma AcceptedStaysBounded(stamps: seq<int>, limits: Limits, latest: int, now: int)
    requires Bounded(stamps, limits, latest) && latest <= now
    requires |Recent(stamps, now - limits.window)| < limits.limit
    ensures Bounded(stamps + [now], limits, now)
  {
    var after := stamps + [now];
    assert after[..|stamps|] == stamps;
    HitsAreRecent(stamps, limits.window, now);
    forall i | 0 <= i < |after| ensures Hits(after, limits.window, after[i]) <= limits.limit {
      if after[i] < now { assert after[i] == stamps[i]; }
    }
  }

  lemma {:induction false} HistoryStaysBounded(
    history: map<ThreadId, seq<int>>, limits: Limits, calls: seq<Call>, latest: int, t: ThreadId)
    requires InOrder(calls) && (calls != [] ==> latest <= calls[0].now)
    requires forall u :: Bounded(StampsOf(history, u), limits, latest)
    ensures var stamps := StampsOf(History(history, limits, calls), t);
            forall i :: 0 <= i < |stamps| ==> Hits(stamps, limits.window, stamps[i]) <= limits.limit
    decreases |calls|
  {
    if calls == [] {
      assert Bounded(StampsOf(history, t), limits, latest);
    } else {
      var call := calls[0];
      var after := Remember(history, limits, call).0;
      forall u ensures Bounded(StampsOf(after, u), limits, call.now) {
        assert Bounded(StampsOf(history, u), limits, latest);
        if u == call.thread && Remember(history, limits, call).1 {
          AcceptedStaysBounded(StampsOf(history, u), limits, latest, call.now);
        }
      }
      assert History(history, limits, calls) == History(after, limits, calls[1..]);
      HistoryStaysBounded(after, limits, calls[1..], call.now, t);
    }
  }

  /** The times at which the task's calls were accepted, by these decisions. */
  function Accepted(calls: seq<Call>, decisions: seq<bool>, t: ThreadId): seq<int>
    requires |decisions| == |calls|
  {
    if calls == [] then []
    else (if calls[0].thread == t && decisions[0] then [calls[0].now] else []) + Accepted(calls[1..], decisions[1..], t)
  }

  lemma {:induction false} EveryCallIsDecided(events: map<ThreadId, seq<int>>, limits: Limits, calls: seq<Call>)
    ensures |Decisions(events, limits, calls)| == |calls|
    decreases |calls|
  {
    if calls != [] { EveryCallIsDecided(Allow(events, limits, calls[0]).0, limits, calls[1..]); }
  }

  lemma {:induction false} HistoryIsWhatWasAccepted(
    history: map<ThreadId, seq<int>>, limits: Limits, calls: seq<Call>, t: ThreadId)
    ensures |FullDecisions(history, limits, calls)| == |calls|
    ensures StampsOf(History(history, limits, calls), t)
            == StampsOf(history, t) + Accepted(calls, FullDecisions(history, limits, calls), t)
    decreases |calls|
  {
    if calls == [] {
      assert StampsOf(history, t) + [] == StampsOf(history, t);
    } else {
      hide Remember;
      var (after, allowed) := Remember(history, limits, calls[0]);
      RememberedNow(history, limits, calls[0], t);
      HistoryIsWhatWasAccepted(after, limits, calls[1..], t);
      var later := FullDecisions(after, limits, calls[1..]);
      AcceptedFirst(calls, allowed, later, t);
      var now := if calls[0].thread == t && allowed then [calls[0].now] else [];
      Regroup(StampsOf(history, t), now, Accepted(calls[1..], later, t));
    }
  }

  lemma RememberedNow(history: map<ThreadId, seq<int>>, limits: Limits, call: Call, t: ThreadId)
    ensures var (after, allowed) := Remember(history, limits, call);
            StampsOf(after, t) == StampsOf(history, t) + if call.thread == t && allowed then [call.now] else []
  {
    assert StampsOf(history, t) + [] == StampsOf(history, t);
  }

  lemma AcceptedFirst(calls: seq<Call>, allowed: bool, later: seq<bool>, t: ThreadId)
    requires calls != [] && |later| == |calls| - 1
    ensures Accepted(calls, [allowed] + later, t)
            == (if calls[0].thread == t && allowed then [calls[0].now] else []) + Accepted(calls[1..], later, t)
  {
    assert ([allowed] + later)[1..] == later;
  }

  lemma Regroup(first: seq<int>, second: seq<int>, third: seq<int>)
    ensures first + second + third == first + (second + third)
  {
  }

  /** For calls in time order, no window that ends at a call the limiter accepted holds more than the limit of
      calls that it accepted for that task. */
  lemma NoWindowOverflows(limits: Limits, calls: seq<Call>, t: ThreadId)
    requires InOrder(calls)
    ensures |Decisions(map[], limits, calls)| == |calls|
    ensures var stamps := Accepted(calls, Decisions(map[], limits, calls), t);
            forall i :: 0 <= i < |stamps| ==> Hits(stamps, limits.window, stamps[i]) <= limits.limit
  {
    EveryCallIsDecided(map[], limits, calls);
    LimiterRefinesFullHistory(limits, calls);
    HistoryIsWhatWasAccepted(map[], limits, calls, t);
    HistoryStaysBounded(map[], limits, calls, if calls == [] then 0 else calls[0].now, t);
    assert [] + Accepted(calls, Decisions(map[], limits, calls), t)
        == Accepted(calls, Decisions(map[], limits, calls), t);
  }

  lemma {:induction false} DecisionIsRemembered(
    history: map<ThreadId, seq<int>>, limits: Limits, calls: seq<Call>, k: nat)
    requires k < |calls|
    ensures |FullDecisions(history, limits, calls)| == |calls|
    ensures FullDecisions(history, limits, calls)[k]
            == Remember(History(history, limits, calls[..k]), limits, calls[k]).1
    ensures FullDecisions(history, limits, calls[..k]) == FullDecisions(history, limits, calls)[..k]
    decreases |calls|
  {
    hide Remember;
    HistoryIsWhatWasAccepted(history, limits, calls, calls[0].thread);
    if k > 0 {
      var after := Remember(history, limits, calls[0]).0;
      DecisionIsRemembered(after, limits, calls[1..], k - 1);
      assert calls[..k][1..] == calls[1..][..k - 1] && calls[..k][0] == calls[0];
    } else {
      assert calls[..0] == [];
    }
  }

  lemma {:induction false} AcceptedAreBefore(calls: seq<Call>, decisions: seq<bool>, t: ThreadId, latest: int)
    requires |decisions| == |calls| && forall i :: 0 <= i < |calls| ==> calls[i].now <= latest
    ensures forall stamp :: stamp in Accepted(calls, decisions, t) ==> stamp <= latest
  {
    if calls != [] {
      assert calls[0].now <= latest;
      AcceptedAreBefore(calls[1..], decisions[1..], t, latest);
    }
  }

  /** For calls in time order, a call is accepted exactly if the window that ends with it holds fewer than the limit of
      the calls that were accepted before it for its task. */
  lemma AcceptedExactlyWhenRoom(limits: Limits, calls: seq<Call>, k: nat)
    requires InOrder(calls) && k < |calls|
    ensures |Decisions(map[], limits, calls)| == |calls|
    ensures var decisions, call := Decisions(map[], limits, calls), calls[k];
            decisions[k]
            <==> Hits(Accepted(calls[..k], decisions[..k], call.thread), limits.window, call.now) < limits.limit
  {
    hide Decisions, FullDecisions, History, Accepted, Hits;
    EveryCallIsDecided(map[], limits, calls);
    LimiterRefinesFullHistory(limits, calls);
    DecisionIsRemembered(map[], limits, calls, k);
    HistoryIsWhatWasAccepted(map[], limits, calls[..k], calls[k].thread);
    var stamps := Accepted(calls[..k], Decisions(map[], limits, calls)[..k], calls[k].thread);
    assert [] + stamps == stamps;
    AcceptedAreBefore(calls[..k], Decisions(map[], limits, calls)[..k], calls[k].thread, calls[k].now);
    forall i | 0 <= i < |stamps| ensures stamps[i] <= calls[k].now { assert stamps[i] in stamps; }
    HitsAreRecent(stamps, limits.window, calls[k].now);
  }

  // ---------- how far the clock may go back ----------

  /** Whatever was kept and whatever was accepted, the next call at this time is decided alike. */
  ghost predicate DecidesAlike(cutoff: int, window: int, now: int, t: ThreadId) {
    forall events, history, limit: int ::
      Agrees(events, history, cutoff) ==>
        Allow(events, Limits(limit, window), Call(t, now)).1 == Remember(history, Limits(limit, window), Call(t, now)).1
  }

  /** A table pruned up to a cutoff answers as the full history exactly for calls whose own cutoff is no earlier. */
  lemma DecidesAlikeExactlyFrom(cutoff: int, window: int, now: int, t: ThreadId)
    ensures DecidesAlike(cutoff, window, now, t) <==> cutoff <= now - window
  {
    if cutoff <= now - window {
      forall events, history, limit: int | Agrees(events, history, cutoff)
        ensures Allow(events, Limits(limit, window), Call(t, now)).1
                == Remember(history, Limits(limit, window), Call(t, now)).1
      {
        CallAgrees(events, history, Limits(limit, window), Call(t, now), cutoff);
      }
    } else {
      var history := map[t := [cutoff]];
      assert [cutoff][..0] == [];
      assert Agrees(map[], history, cutoff);
      assert Recent([cutoff], now - window) == [cutoff];
      assert Pruned(map[], now - window) == map[];
      assert Allow(map[], Limits(1, window), Call(t, now)).1;
      assert !Remember(history, Limits(1, window), Call(t, now)).1;
    }
  }

  /** After any calls in time order up to `latest`, whatever the limit, a call at `now` is decided alike. */
  ghost predicate NextDecidesAlike(window: int, latest: int, now: int, t: ThreadId) {
    forall limit: int, calls: seq<Call> ::
      InOrder(calls) && (calls != [] ==> calls[|calls| - 1].now <= latest) ==>
        NextDecision(Limits(limit, window), calls, Call(t, now))
  }

  ghost predicate NextDecision(limits: Limits, calls: seq<Call>, next: Call) {
    Allow(Kept(map[], limits, calls), limits, next).1 == Remember(History(map[], limits, calls), limits, next).1
  }

  /** The limiter's table after the calls. */
  function Kept(events: map<ThreadId, seq<int>>, limits: Limits, calls: seq<Call>): map<ThreadId, seq<int>>
    decreases |calls|
  {
    if calls == [] then events else Kept(Allow(events, limits, calls[0]).0, limits, calls[1..])
  }

  lemma {:induction false} KeptAgrees(
    events: map<ThreadId, seq<int>>, history: map<ThreadId, seq<int>>, limits: Limits, calls: seq<Call>, cutoff: int)
    requires InOrder(calls) && Agrees(events, history, cutoff)
    requires calls != [] ==> cutoff <= calls[0].now - limits.window
    ensures Agrees(Kept(events, limits, calls), History(history, limits, calls),
                   if calls == [] then cutoff else calls[|calls| - 1].now - limits.window)
    decreases |calls|
  {
    if calls != [] {
      CallAgrees(events, history, limits, calls[0], cutoff);
      KeptAgrees(Allow(events, limits, calls[0]).0, Remember(history, limits, calls[0]).0, limits,
                 calls[1..], calls[0].now - limits.window);
    }
  }

  /** So the latest time seen so far is exactly how early the next call may come. */
  lemma ClockMayGoBackExactlyTo(window: nat, latest: int, now: int, t: ThreadId)
    ensures NextDecidesAlike(window, latest, now, t) <==> latest <= now
  {
    if latest <= now {
      forall limit: int, calls: seq<Call> | InOrder(calls) && (calls != [] ==> calls[|calls| - 1].now <= latest)
        ensures NextDecision(Limits(limit, window), calls, Call(t, now))
      {
        var limits := Limits(limit, window);
        var first := if calls == [] then now - window else calls[0].now - window;
        KeptAgrees(map[], map[], limits, calls, first);
        CallAgrees(Kept(map[], limits, calls), History(map[], limits, calls), limits, Call(t, now),
                   if calls == [] then first else calls[|calls| - 1].now - window);
      }
    } else {
      EarlierCallForgets(window, latest, now, t);
      var calls := [Call(t, latest - window), Call(t, latest)];
      assert InOrder(calls) && !NextDecision(Limits(2, window), calls, Call(t, now));
    }
  }

  /** Two hits a window apart and then a call before the second: the table forgot the first, which still counts. */
  lemma EarlierCallForgets(window: nat, latest: int, now: int, t: ThreadId)
    requires now < latest
    ensures !NextDecision(Limits(2, window), [Call(t, latest - window), Call(t, latest)], Call(t, now))
  {
    var limits, x := Limits(2, window), latest - window;
    var first, second, next := Call(t, x), Call(t, latest), Call(t, now);
    hide Allow, Remember;
    FirstHit(limits, first);
    FarHit(limits, first, second);
    LateDecisions(window, x, latest, next);
    assert [first, second][1..] == [second] && [second][1..] == [];
    assert Kept(map[t := [x]], limits, [second]) == map[t := [latest]];
    assert History(map[t := [x]], limits, [second]) == map[t := [x, latest]];
  }

  lemma RecentOne(x: int, cutoff: int)
    ensures Recent([x], cutoff) == if x > cutoff then [x] else []
  {
    RecentAppend([], x, cutoff);
  }

  lemma RecentPair(x: int, y: int, cutoff: int)
    requires cutoff < x && cutoff < y
    ensures Recent([x, y], cutoff) == [x, y]
  {
    hide Recent;
    RecentOne(x, cutoff);
    RecentAppend([x], y, cutoff);
    assert [x] + [y] == [x, y];
  }

  lemma LateDecisions(window: nat, x: int, latest: int, next: Call)
    requires x == latest - window && next.now < latest
    ensures Allow(map[next.thread := [latest]], Limits(2, window), next).1
    ensures !Remember(map[next.thread := [x, latest]], Limits(2, window), next).1
  {
    hide Recent;
    var cutoff := next.now - window;
    RecentOne(latest, cutoff);
    RecentPair(x, latest, cutoff);
    assert Pruned(map[next.thread := [latest]], cutoff) == map[next.thread := [latest]];
  }

  lemma FirstHit(limits: Limits, call: Call)
    requires limits.limit >= 1
    ensures Allow(map[], limits, call) == (map[call.thread := [call.now]], true)
    ensures Remember(map[], limits, call) == (map[call.thread := [call.now]], true)
  {
    assert Pruned(map[], call.now - limits.window) == map[];
    assert [] + [call.now] == [call.now];
  }

  /** A hit a whole window later: the table forgets the first, the full history keeps both. */
  lemma FarHit(limits: Limits, first: Call, second: Call)
    requires limits.limit >= 1 && first.thread == second.thread && first.now <= second.now - limits.window
    ensures Allow(map[first.thread := [first.now]], limits, second) == (map[first.thread := [second.now]], true)
    ensures Remember(map[first.thread := [first.now]], limits, second)
            == (map[first.thread := [first.now, second.now]], true)
  {
    var x := first.now;
    assert [x][..0] == [];
    assert Recent([x], second.now - limits.window) == [];
    assert Pruned(map[first.thread := [x]], second.now - limits.window) == map[];
    assert [] + [second.now] == [second.now] && [x] + [second.now] == [x, second.now];
    var both := map[first.thread := [x]][first.thread := [x] + [second.now]];
    assert both == map[first.thread := [x, second.now]];
  }

  /** Time order is needed: a later call of another task forgets a hit that an earlier-stamped call still had to
      count. */
  lemma BackwardsClockForgets(a: ThreadId, b: ThreadId)
    requires a != b
    ensures var calls := [Call(a, 100), Call(b, 200), Call(a, 105)];
            && Decisions(map[], Limits(1, 10), calls) == [true, true, true]
            && FullDecisions(map[], Limits(1, 10), calls) == [true, true, false]
  {
    var limits, calls := Limits(1, 10), [Call(a, 100), Call(b, 200), Call(a, 105)];
    assert [100][..0] == [] && [200][..0] == [];
    assert Recent([100], 190) == [] && Recent([200], 95) == [200] && Recent([100], 95) == [100];
    var e1 := Allow(map[], limits, calls[0]).0;
    assert e1 == map[a := [100]];
    var e2 := Allow(e1, limits, calls[1]).0;
    assert Pruned(e1, 190) == map[];
    assert e2 == map[b := [200]];
    var h1 := Remember(map[], limits, calls[0]).0;
    var h2 := Remember(h1, limits, calls[1]).0;
    assert StampsOf(h2, a) == [100];
    assert calls[1..] == [calls[1], calls[2]] && calls[1..][1..] == [calls[2]] && [calls[2]][1..] == [];
    assert Decisions(e2, limits, [calls[2]]) == [true];
    assert FullDecisions(h2, limits, [calls[2]]) == [false];
    assert Decisions(e1, limits, calls[1..]) == [true, true];
    assert FullDecisions(h1, limits, calls[1..]) == [true, false];
  }

  class ThreadRateLimiter {
    var events: map<ThreadId, seq<int>>
    const limits: Limits

    constructor (limits: Limits)
      ensures events == map[] && this.limits == limits
    {
      events := map[];
      this.limits := limits;
    }

    method Filter(stamps: seq<int>, cutoff: int) returns (active: seq<int>)
      ensures active == Recent(stamps, cutoff)
    {
      active := [];
      for i := 0 to |stamps|
        invariant active == Recent(stamps[..i], cutoff)
      {
        assert stamps[..i + 1][..i] == stamps[..i];
        if stamps[i] > cutoff { active := active + [stamps[i]]; }
      }
      assert stamps[..|stamps|] == stamps;
    }

    /** Drops what fell out of the window, for every task. */
    method Prune(cutoff: int)
      modifies this`events
      ensures events == Pruned(old(events), cutoff)
    {
      var left := events.Keys;
      while left != {}
        invariant left <= events.Keys <= old(events).Keys
        invariant forall t :: t in left ==> events[t] == old(events)[t]
        invariant forall t :: t in old(events) && t !in left ==>
                    (t in events <==> Recent(old(events)[t], cutoff) != [])
        invariant forall t :: t in events && t !in left ==> events[t] == Recent(old(events)[t], cutoff)
        decreases left
      {
        var t :| t in left;
        var active := Filter(events[t], cutoff);
        left := left - {t};
        if |active| == 0 {
          events := events - {t};
        } else if |active| != |events[t]| {
          events := events[t := active];
        } else {
          AllRecent(events[t], cutoff);
        }
      }
    }

    method AllowCall(t: ThreadId, now: int) returns (allowed: bool)
      modifies this`events
      ensures (events, allowed) == Allow(old(events), limits, Call(t, now))
    {
      var cutoff := now - limits.window;
      Prune(cutoff);
      var recent := Filter(if t in events then events[t] else [], cutoff);
      if |recent| >= limits.limit {
        events := events[t := recent];
        return false;
      }
      events := events[t := recent + [now]];
      allowed := true;
    }
  }

  /** A filter that keeps the length keeps everything. */
  lemma {:induction false} AllRecent(stamps: seq<int>, cutoff: int)
    ensures |Recent(stamps, cutoff)| <= |stamps|
    ensures |Recent(stamps, cutoff)| == |stamps| ==> Recent(stamps, cutoff) == stamps
  {
    if stamps != [] { AllRecent(stamps[..|stamps| - 1], cutoff); }
  }
}
