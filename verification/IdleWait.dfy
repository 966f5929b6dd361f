/** Idle evidence: the active set folded from the canonical stream, and what it says about the task. */
module IdleWait {
  import opened Types
  import opened TaskEvents

  function Running(history: History): set<TurnId> {
    set turn | turn in history && turn.status == InProgress :: turn.id
  }

  function TrackActive(active: set<TurnId>, event: TaskEvent): set<TurnId> {
    match event
    case Snapshot(history) => Running(history)
    case TurnChanged(turn) => if turn.status == InProgress then active + {turn.id} else active - {turn.id}
    case TaskRemoved => active
  }

  function Active(events: seq<TaskEvent>): set<TurnId> {
    if events == [] then {} else TrackActive(Active(events[..|events| - 1]), events[|events| - 1])
  }

  // ---------- what the active set means ----------

  /** The event says this turn is in progress. */
  predicate Starts(event: TaskEvent, id: TurnId) {
    match event
    case Snapshot(history) => id in Running(history)
    case TurnChanged(turn) => turn.id == id && turn.status == InProgress
    case TaskRemoved => false
  }

  /** The event replaces whatever was said about this turn before. */
  predicate Overrides(event: TaskEvent, id: TurnId) {
    event.Snapshot? || (event.TurnChanged? && event.turn.id == id)
  }

  ghost predicate LastReportedRunning(events: seq<TaskEvent>, id: TurnId) {
    exists i :: 0 <= i < |events| && Starts(events[i], id) && forall j :: i < j < |events| ==> !Overrides(events[j], id)
  }

  /** The tracked set is exactly the turns whose last report since the last snapshot says in progress. */
  lemma {:induction false} ActiveIsLastReport(events: seq<TaskEvent>, id: TurnId)
    ensures id in Active(events) <==> LastReportedRunning(events, id)
  {
    if events != [] {
      var n := |events| - 1;
      var front := events[..n];
      ActiveIsLastReport(front, id);
      if Starts(events[n], id) {
        assert LastReportedRunning(events, id);
      } else if !Overrides(events[n], id) {
        if LastReportedRunning(front, id) {
          var i :| 0 <= i < |front| && Starts(front[i], id) && forall j :: i < j < |front| ==> !Overrides(front[j], id);
          assert Starts(events[i], id) && forall j :: i < j < |events| ==> !Overrides(events[j], id);
        }
        if LastReportedRunning(events, id) {
          var i :| 0 <= i < |events| && Starts(events[i], id)
                   && forall j :: i < j < |events| ==> !Overrides(events[j], id);
          assert Starts(front[i], id) && forall j :: i < j < |front| ==> !Overrides(front[j], id);
        }
      }
    }
  }

  // ---------- waiting ----------

  predicate Initialized(events: seq<TaskEvent>) {
    exists i :: 0 <= i < |events| && events[i].Snapshot?
  }

  predicate Busy(events: seq<TaskEvent>) {
    Initialized(events) && Active(events) != {}
  }

  predicate BusyAt(events: seq<TaskEvent>, k: nat) {
    k <= |events| && Busy(events[..k])
  }

  /** The wait is over after these events: idle, and after an observed activity if one is required. */
  predicate IdleReached(events: seq<TaskEvent>, requireActivity: bool) {
    && Initialized(events) && Active(events) == {}
    && (requireActivity ==> exists k :: 0 <= k <= |events| && BusyAt(events, k))
  }

  /** The k-th event ends the wait. */
  predicate Decides(events: seq<TaskEvent>, k: nat, requireActivity: bool) {
    k < |events| && (events[k].TaskRemoved? || IdleReached(events[..k + 1], requireActivity))
  }

  /** A snapshot was seen, and some turn was last reported running. */
  ghost predicate SawRunning(events: seq<TaskEvent>, k: nat) {
    && k <= |events|
    && (exists i :: 0 <= i < k && events[i].Snapshot?)
    && exists id :: LastReportedRunning(events[..k], id)
  }

  lemma BusyWhenRunning(events: seq<TaskEvent>, k: nat)
    requires k <= |events|
    ensures BusyAt(events, k) <==> SawRunning(events, k)
    ensures Active(events[..k]) == {} <==> forall id :: !LastReportedRunning(events[..k], id)
    ensures Initialized(events[..k]) <==> exists i :: 0 <= i < k && events[i].Snapshot?
  {
    hide Active, LastReportedRunning;
    forall id ensures id in Active(events[..k]) <==> LastReportedRunning(events[..k], id) {
      ActiveIsLastReport(events[..k], id);
    }
    if exists i :: 0 <= i < k && events[i].Snapshot? {
      var i :| 0 <= i < k && events[i].Snapshot?;
      assert events[..k][i].Snapshot?;
    }
  }

  /** The wait ends exactly at a removal, or once a snapshot was seen and no turn is last reported running, and, if an
      activity is asked for, after some turn was last reported running. */
  lemma DecidesExactlyWhen(events: seq<TaskEvent>, k: nat, requireActivity: bool)
    requires k < |events|
    ensures var seen := events[..k + 1];
            Decides(events, k, requireActivity)
            <==> || events[k].TaskRemoved?
                 || (&& (exists i :: 0 <= i <= k && events[i].Snapshot?)
                     && (forall id :: !LastReportedRunning(seen, id))
                     && (requireActivity ==> exists m :: 0 <= m <= k + 1 && SawRunning(events, m)))
  {
    hide Active, LastReportedRunning, SawRunning;
    BusyWhenRunning(events, k + 1);
    var prefix := events[..k + 1];
    forall m | 0 <= m <= k + 1 ensures BusyAt(prefix, m) <==> SawRunning(events, m) {
      assert prefix[..m] == events[..m];
      BusyWhenRunning(events, m);
    }
    assert |prefix| == k + 1;
  }

  datatype Verdict = Idle(at: nat) | Removed(at: nat) | StreamEnded

  /** Waits for the first event that decides: a removal, or idleness as required. */
  method AwaitState(events: seq<TaskEvent>, requireActivity: bool) returns (verdict: Verdict)
    ensures !verdict.StreamEnded? ==> Decides(events, verdict.at, requireActivity)
    ensures !verdict.StreamEnded? ==> (verdict.Removed? <==> events[verdict.at].TaskRemoved?)
    ensures forall k :: 0 <= k < (if verdict.StreamEnded? then |events| else verdict.at) ==>
              !Decides(events, k, requireActivity)
  {
    hide Active, Initialized, IdleReached, TrackActive;
    var active: set<TurnId> := {};
    var initialized, sawActivity := false, false;
    NothingSeen(events);
    for i := 0 to |events|
      invariant active == Active(events[..i])
      invariant initialized == Initialized(events[..i])
      invariant sawActivity <==> exists k :: 0 <= k <= i && BusyAt(events, k)
      invariant forall k :: 0 <= k < i ==> !Decides(events, k, requireActivity)
    {
      if events[i].TaskRemoved? { return Removed(i); }
      Prefixes(events, i);
      active := TrackActive(active, events[i]);
      initialized := events[i].Snapshot? || initialized;
      if initialized && active != {} {
        assert BusyAt(events, i + 1);
        sawActivity := true;
      }
      ReachedNow(events, i, requireActivity, sawActivity);
      if initialized && active == {} && (!requireActivity || sawActivity) { return Idle(i); }
    }
    verdict := StreamEnded;
  }

  lemma NothingSeen(events: seq<TaskEvent>)
    ensures Active(events[..0]) == {} && !Initialized(events[..0])
  {
  }

  lemma Prefixes(events: seq<TaskEvent>, i: nat)
    requires i < |events|
    ensures Active(events[..i + 1]) == TrackActive(Active(events[..i]), events[i])
    ensures Initialized(events[..i + 1]) <==> events[i].Snapshot? || Initialized(events[..i])
  {
    assert events[..i + 1][..i] == events[..i];
    if Initialized(events[..i]) {
      var k :| 0 <= k < i && events[..i][k].Snapshot?;
      assert events[..i + 1][k].Snapshot?;
    }
    if events[i].Snapshot? { assert events[..i + 1][i].Snapshot?; }
    if Initialized(events[..i + 1]) && !events[i].Snapshot? {
      var k :| 0 <= k < i + 1 && events[..i + 1][k].Snapshot?;
      assert events[..i][k].Snapshot?;
    }
  }

  lemma ReachedNow(events: seq<TaskEvent>, i: nat, requireActivity: bool, sawActivity: bool)
    requires i < |events|
    requires sawActivity <==> exists k :: 0 <= k <= i + 1 && BusyAt(events, k)
    ensures IdleReached(events[..i + 1], requireActivity)
            <==> && Initialized(events[..i + 1]) && Active(events[..i + 1]) == {}
                 && (requireActivity ==> sawActivity)
  {
    var prefix := events[..i + 1];
    forall k | 0 <= k <= i + 1 ensures BusyAt(prefix, k) <==> BusyAt(events, k) {
      assert prefix[..k] == events[..k];
    }
  }

  // ---------- what idleness says about the task ----------

  /** The running turns a consumer knows of. */
  function KnownRunning(known: map<TurnId, LocalTurn>): set<TurnId> {
    set id | id in known && known[id].status == InProgress
  }

  /** The turns a history ends running. */
  function EndsRunning(history: History): set<TurnId> {
    KnownRunning(ById(history))
  }

  /** The last snapshot lists this turn running, though it ends it otherwise, and nothing was reported of it since. */
  ghost predicate Lingers(events: seq<TaskEvent>, id: TurnId) {
    exists i :: 0 <= i < |events| && events[i].Snapshot?
                && id in Running(events[i].history) && id !in EndsRunning(events[i].history)
                && forall j :: i < j < |events| ==> !Overrides(events[j], id)
  }

  lemma EndedRunningIsListed(history: History)
    ensures EndsRunning(history) <= Running(history)
    ensures Distinct(history) ==> EndsRunning(history) == Running(history)
  {
    forall id | id in EndsRunning(history) ensures id in Running(history) { ListedIsById(history, id); }
    if Distinct(history) {
      ByIdReproduces(history);
      forall id | id in Running(history) ensures id in EndsRunning(history) {
        var i :| 0 <= i < |history| && history[i].status == InProgress && history[i].id == id;
      }
    }
  }

  /** The tracked set is the turns known to be running and those a snapshot left lingering. */
  lemma {:induction false} ActiveIsKnownRunning(events: seq<TaskEvent>, id: TurnId)
    ensures id in Active(events) <==> id in KnownRunning(Known(events)) || Lingers(events, id)
  {
    if events != [] {
      var n := |events| - 1;
      ActiveIsKnownRunning(events[..n], id);
      LingersStep(events[..n], events[n], id);
      assert events[..n] + [events[n]] == events;
      if events[n].Snapshot? { EndedRunningIsListed(events[n].history); }
    }
  }

  lemma LingersStep(events: seq<TaskEvent>, event: TaskEvent, id: TurnId)
    ensures Lingers(events + [event], id)
            <==> (event.Snapshot? && id in Running(event.history) && id !in EndsRunning(event.history))
                 || (Lingers(events, id) && !Overrides(event, id))
  {
    hide Running, EndsRunning;
    var longer := events + [event];
    if event.Snapshot? && id in Running(event.history) && id !in EndsRunning(event.history) {
      assert longer[|events|] == event;
    }
    if Lingers(events, id) && !Overrides(event, id) {
      var i :| 0 <= i < |events| && events[i].Snapshot?
               && id in Running(events[i].history) && id !in EndsRunning(events[i].history)
               && forall j :: i < j < |events| ==> !Overrides(events[j], id);
      assert longer[i] == events[i] && forall j :: i < j < |longer| ==> !Overrides(longer[j], id);
    }
    if Lingers(longer, id) {
      var i :| 0 <= i < |longer| && longer[i].Snapshot?
               && id in Running(longer[i].history) && id !in EndsRunning(longer[i].history)
               && forall j :: i < j < |longer| ==> !Overrides(longer[j], id);
      if i < |events| {
        assert longer[|events|] == event && events[i] == longer[i];
        assert forall j :: i < j < |events| ==> events[j] == longer[j];
      }
    }
  }

  /** Turns known to be running that the latest history no longer lists: nothing will ever report their end. */
  function Vanished(events: seq<TaskEvent>, latest: History): set<TurnId> {
    set id | id in Known(events) && Known(events)[id].status == InProgress
             && forall i :: 0 <= i < |latest| ==> latest[i].id != id
  }

  /** Once the events replay the latest history, the tracked set is exactly the turns that end it running, the vanished
      ones and the lingering ones. */
  lemma ActiveAgainstLatest(events: seq<TaskEvent>, latest: History, id: TurnId)
    requires Replays(Known(events), latest)
    ensures id in Active(events)
            <==> id in EndsRunning(latest) || id in Vanished(events, latest) || Lingers(events, id)
  {
    hide Active, Known, Lingers;
    ActiveIsKnownRunning(events, id);
    ListedIsById(latest, id);
  }

  ghost predicate SnapshotsDistinct(events: seq<TaskEvent>) {
    forall i :: 0 <= i < |events| && events[i].Snapshot? ==> Distinct(events[i].history)
  }

  /** If every history lists its turns once, nothing lingers: what is tracked is running or vanished. */
  lemma DistinctActive(events: seq<TaskEvent>, latest: History)
    requires SnapshotsDistinct(events) && Distinct(latest) && Replays(Known(events), latest)
    ensures Active(events) == Running(latest) + Vanished(events, latest)
  {
    hide Active, Known, ById, EndsRunning, Running, Distinct, Vanished;
    EndedRunningIsListed(latest);
    forall id ensures id in Active(events) <==> id in Running(latest) || id in Vanished(events, latest) {
      ActiveAgainstLatest(events, latest, id);
      if Lingers(events, id) {
        var i :| 0 <= i < |events| && events[i].Snapshot?
                 && id in Running(events[i].history) && id !in EndsRunning(events[i].history);
        EndedRunningIsListed(events[i].history);
      }
    }
  }

  /** What is known to be running is tracked, so nothing is when the tracked set is empty. */
  lemma NothingKnownRunning(events: seq<TaskEvent>)
    requires Active(events) == {}
    ensures KnownRunning(Known(events)) == {}
  {
    hide Active, Known;
    forall id | id in KnownRunning(Known(events)) ensures id in Active(events) { ActiveIsKnownRunning(events, id); }
  }

  // ---------- idleness inside a diff ----------

  /** The j-th event says that this turn is in progress, and nothing after it speaks of the turn. */
  predicate RunsLast(events: seq<TaskEvent>, j: int, id: TurnId) {
    && 0 <= j < |events| && events[j].TurnChanged? && events[j].turn.id == id && events[j].turn.status == InProgress
    && forall l :: j < l < |events| ==> !Overrides(events[l], id)
  }

  /** The last report of this turn is not read yet and says that it is in progress. */
  predicate RunsUnread(batch: seq<TaskEvent>, k: nat, id: TurnId) {
    exists j :: k <= j < |batch| && RunsLast(batch, j, id)
  }

  /** A turn known to be running at last was known so before, or an unread report says it. */
  lemma {:induction false} RunningIsReported(events: seq<TaskEvent>, more: seq<TaskEvent>, id: TurnId)
    requires forall j :: 0 <= j < |more| ==> more[j].TurnChanged?
    requires id in KnownRunning(Known(events + more))
    ensures id in KnownRunning(Known(events)) || RunsUnread(more, 0, id)
  {
    if more == [] {
      assert events + more == events;
    } else {
      var n := |more| - 1;
      assert (events + more)[..|events| + n] == events + more[..n];
      if more[n].turn.id == id {
        assert RunsLast(more, n, id);
      } else {
        RunningIsReported(events, more[..n], id);
        if RunsUnread(more[..n], 0, id) {
          var j :| 0 <= j < n && RunsLast(more[..n], j, id);
          assert forall l :: j < l < n ==> more[..n][l] == more[l];
          assert RunsLast(more, j, id);
        }
      }
    }
  }

  /** A report nothing overrides is what is known. */
  lemma {:induction false} LastReportIsKnown(events: seq<TaskEvent>, j: nat)
    requires j < |events| && events[j].TurnChanged?
    requires forall l :: j < l < |events| ==> !Overrides(events[l], events[j].turn.id)
    ensures events[j].turn.id in Known(events) && Known(events)[events[j].turn.id] == events[j].turn
  {
    var n := |events| - 1;
    if j < n {
      assert events[..n][j] == events[j] && !Overrides(events[n], events[j].turn.id);
      LastReportIsKnown(events[..n], j);
    }
  }

  /** A running report that is the last of its turn is how the next history ends with it, unless the diff hides that. */
  lemma UnreadRunsAtLast(previous: History, next: History, k: nat, id: TurnId)
    requires RunsUnread(ChangedTurns(previous, next), k, id) && !HiddenChange(previous, next, id)
    ensures id in EndsRunning(next)
  {
    hide ChangedTurns, Known, ById, HiddenChange;
    var batch := ChangedTurns(previous, next);
    var j :| k <= j < |batch| && RunsLast(batch, j, id);
    LastReportIsKnown(batch, j);
    assert [] + batch == batch;
    KnownOfDiffIsLast([], previous, next, id);
  }

  /** What a diff alone tells of a turn is how the next history ends with it, unless the diff hides that. */
  lemma KnownOfDiffIsLast(nothing: seq<TaskEvent>, previous: History, next: History, id: TurnId)
    requires nothing == [] && id in Known(nothing + ChangedTurns(previous, next))
    requires !HiddenChange(previous, next, id)
    ensures id in ById(next) && Known(nothing + ChangedTurns(previous, next))[id] == ById(next)[id]
  {
    hide ChangedTurns;
    ReplayIsLastReport(nothing, previous, next, id);
    NotListedNotReported(previous, next, id);
    ListedIsById(next, id);
    LastReportedMeans(previous, next, id);
  }

  /** Whatever was known before the diff: idleness seen after k of its reports is idleness of the next history as it
      ends if and only if no unread report runs that the diff does not hide, and replaying tells every turn that ends it
      running. */
  lemma IdleMidDiff(events: seq<TaskEvent>, previous: History, next: History, k: nat)
    requires k <= |ChangedTurns(previous, next)|
    requires Active(events + ChangedTurns(previous, next)[..k]) == {}
    ensures EndsRunning(next) == {}
            <==> && (forall id :: RunsUnread(ChangedTurns(previous, next), k, id) ==> HiddenChange(previous, next, id))
                 && (forall id :: id in EndsRunning(next) ==>
                       Tells(Known(events + ChangedTurns(previous, next)), next, id))
  {
    hide Active, Known, ById, ChangedTurns, RunsUnread, HiddenChange, Relists;
    var batch := ChangedTurns(previous, next);
    forall id | RunsUnread(batch, k, id) && !HiddenChange(previous, next, id) ensures id in EndsRunning(next) {
      UnreadRunsAtLast(previous, next, k, id);
    }
    forall id | id in EndsRunning(next) && Tells(Known(events + batch), next, id)
      ensures RunsUnread(batch, k, id) && !HiddenChange(previous, next, id)
    {
      ToldRunsUnread(events, previous, next, k, id);
    }
  }

  lemma ToldRunsUnread(events: seq<TaskEvent>, previous: History, next: History, k: nat, id: TurnId)
    requires k <= |ChangedTurns(previous, next)|
    requires Active(events + ChangedTurns(previous, next)[..k]) == {}
    requires id in EndsRunning(next) && Tells(Known(events + ChangedTurns(previous, next)), next, id)
    ensures RunsUnread(ChangedTurns(previous, next), k, id) && !HiddenChange(previous, next, id)
  {
    hide Active, Known, ById, ChangedTurns, HiddenChange, Relists, Overrides;
    var batch := ChangedTurns(previous, next);
    DiffTells(events, previous, next, id);
    forall j | 0 <= j < |batch| ensures batch[j].TurnChanged? { ChangesComeFromNext(previous, next, j); }
    assert (events + batch[..k]) + batch[k..] == events + batch;
    NothingKnownRunning(events + batch[..k]);
    RunningIsReported(events + batch[..k], batch[k..], id);
    UnreadShifts(batch[..k], batch[k..], 0, id);
    assert batch[..k] + batch[k..] == batch;
  }

  lemma UnreadShifts(events: seq<TaskEvent>, batch: seq<TaskEvent>, k: nat, id: TurnId)
    ensures RunsUnread(events + batch, |events| + k, id) <==> RunsUnread(batch, k, id)
  {
    hide RunsLast;
    var stream := events + batch;
    if RunsUnread(batch, k, id) {
      var j :| k <= j < |batch| && RunsLast(batch, j, id);
      RunsLastShifts(events, batch, j, id);
      assert RunsLast(stream, |events| + j, id);
    }
    if RunsUnread(stream, |events| + k, id) {
      var j :| |events| + k <= j < |stream| && RunsLast(stream, j, id);
      RunsLastShifts(events, batch, j - |events|, id);
    }
  }

  lemma RunsLastShifts(events: seq<TaskEvent>, batch: seq<TaskEvent>, j: nat, id: TurnId)
    requires j < |batch|
    ensures RunsLast(events + batch, |events| + j, id) <==> RunsLast(batch, j, id)
  {
    hide Overrides;
    var stream := events + batch;
    assert forall l :: 0 <= l < |batch| ==> batch[l] == stream[|events| + l];
    forall l | |events| + j < l < |stream| ensures stream[l] == batch[l - |events|] {}
  }

  /** Some report not read yet says a turn is in progress. */
  predicate MoreRunning(batch: seq<TaskEvent>, k: nat) {
    exists j :: k <= j < |batch| && batch[j].TurnChanged? && batch[j].turn.status == InProgress
  }

  /** For a consumer who was up to date, idleness seen after k reports of a diff is idleness of the new history as it
      ends if and only if every unread report that runs at last is hidden, and no turn that ends it running is. */
  lemma IdleMidDiffExactly(events: seq<TaskEvent>, previous: History, next: History, k: nat)
    requires Replays(Known(events), previous) && k <= |ChangedTurns(previous, next)|
    requires Active(events + ChangedTurns(previous, next)[..k]) == {}
    ensures EndsRunning(next) == {}
            <==> && (forall id :: RunsUnread(ChangedTurns(previous, next), k, id) ==> HiddenChange(previous, next, id))
                 && (forall id :: id in EndsRunning(next) ==> !HiddenChange(previous, next, id))
    ensures Distinct(next) ==> (Running(next) == {} <==> !MoreRunning(ChangedTurns(previous, next), k))
  {
    hide Active, Known, ById, ChangedTurns, RunsUnread, HiddenChange, Running, Distinct, MoreRunning;
    IdleMidDiff(events, previous, next, k);
    forall id | id in EndsRunning(next)
      ensures Tells(Known(events + ChangedTurns(previous, next)), next, id) <==> !HiddenChange(previous, next, id)
    {
      DiffReproducesExactly(events, previous, next, id);
    }
    if Distinct(next) {
      EndedRunningIsListed(next);
      forall id ensures !HiddenChange(previous, next, id) { DistinctHidesNothing(previous, next, id); }
      RunningReportIsReal(previous, next, k);
      UnreadIsMore(ChangedTurns(previous, next), k);
    }
  }

  lemma RunningReportIsReal(previous: History, next: History, k: nat)
    ensures MoreRunning(ChangedTurns(previous, next), k) ==> Running(next) != {}
  {
    var batch := ChangedTurns(previous, next);
    if MoreRunning(batch, k) {
      var j :| k <= j < |batch| && batch[j].TurnChanged? && batch[j].turn.status == InProgress;
      ChangesComeFromNext(previous, next, j);
      assert batch[j].turn.id in Running(next);
    }
  }

  lemma UnreadIsMore(batch: seq<TaskEvent>, k: nat)
    ensures !MoreRunning(batch, k) ==> forall id :: !RunsUnread(batch, k, id)
  {
    if id :| RunsUnread(batch, k, id) {
      var j :| k <= j < |batch| && RunsLast(batch, j, id);
    }
  }

  /** After a whole diff nothing is unread: an empty set is true of the history as it ends if and only if the diff hides
      no turn that ends running. */
  lemma IdleAfterDiffExactly(events: seq<TaskEvent>, previous: History, next: History)
    requires Replays(Known(events), previous)
    requires Active(events + ChangedTurns(previous, next)) == {}
    ensures EndsRunning(next) == {} <==> forall id :: id in EndsRunning(next) ==> !HiddenChange(previous, next, id)
  {
    hide Active, Known, ById, ChangedTurns, HiddenChange, EndsRunning;
    var batch := ChangedTurns(previous, next);
    assert batch[..|batch|] == batch;
    IdleMidDiffExactly(events, previous, next, |batch|);
  }

  /** It does happen: one turn ends and another starts in the same diff, and the wait ends in between. */
  lemma IdleBetweenTwoTurns(first: TurnId, second: TurnId)
    requires first != second
    ensures var previous := [LocalTurn(first, InProgress, [])];
            var next := [LocalTurn(first, Completed, []), LocalTurn(second, InProgress, [])];
            && |ChangedTurns(previous, next)| == 2
            && IdleReached([Snapshot(previous)] + ChangedTurns(previous, next)[..1], true)
            && second in Running(next)
  {
    var a, b, c := LocalTurn(first, InProgress, []), LocalTurn(first, Completed, []), LocalTurn(second, InProgress, []);
    var previous, next := [a], [b, c];
    assert next[..1] == [b] && [b][..0] == [] && [a][..0] == [];
    assert ById(previous) == map[first := a];
    assert ChangedTurns(previous, [b]) == [TurnChanged(b)];
    var batch := ChangedTurns(previous, next);
    assert batch == [TurnChanged(b), TurnChanged(c)];
    var events := [Snapshot(previous)] + batch[..1];
    assert events == [Snapshot(previous), TurnChanged(b)];
    assert events[..1] == [Snapshot(previous)] && events[..1][..0] == [];
    assert a in previous;
    assert Running(previous) == {first};
    assert Active(events[..1]) == {first};
    assert Active(events) == {};
    assert events[0].Snapshot? && events[..1][0].Snapshot?;
    assert BusyAt(events, 1);
    assert c in next;
  }

  // ---------- the recheck under the gate ----------

  datatype Inspection = InspectedIdle | InspectedActive | InspectionFailed

  function InspectIdle(first: Option<TaskEvent>): Inspection {
    if first.None? || !first.value.Snapshot? then InspectionFailed
    else if Running(first.value.history) != {} then InspectedActive
    else InspectedIdle
  }

  /** A fresh snapshot is whole, so the recheck is idle exactly when that history has no running turn. */
  lemma InspectionIsExact(first: Option<TaskEvent>)
    ensures InspectIdle(first) == InspectedIdle
            <==> first.Some? && first.value.Snapshot?
                 && forall turn :: turn in first.value.history ==> turn.status != InProgress
    ensures InspectIdle(first) == InspectedActive
            <==> first.Some? && first.value.Snapshot?
                 && exists turn :: turn in first.value.history && turn.status == InProgress
  {
    if first.Some? && first.value.Snapshot? {
      forall turn | turn in first.value.history && turn.status == InProgress
        ensures turn.id in Running(first.value.history) {}
    }
  }

  // ---------- in every run of the stream ----------

  /** In every run, whatever the histories list: a turn that ends the latest history running is tracked unless the last
      diff to list it anew hid it. So an empty set is true of that history as it ends if and only if no turn that ends
      it running is stale; and with distinct turns in every history it is always true. */
  lemma IdleEvidenceIsReal(states: seq<TaskEvents.State>, events: seq<TaskEvents.Event>, i: nat)
    requires Run(states, events) && i < |states| && states[i].previous.Some?
    ensures var latest, active := states[i].previous.value, Active(states[i].emitted);
            && (forall id :: id in EndsRunning(latest) && !Stale(states, events, i, id) ==> id in active)
            && (active == {} ==>
                  (EndsRunning(latest) == {}
                   <==> forall id :: id in EndsRunning(latest) ==> !Stale(states, events, i, id)))
    ensures AllDistinct(states, events) ==>
              && Active(states[i].emitted)
                 == Running(states[i].previous.value) + Vanished(states[i].emitted, states[i].previous.value)
              && (Active(states[i].emitted) == {} ==> Running(states[i].previous.value) == {})
  {
    hide Active, Known, ById, Stale, Distinct, Vanished, Running;
    var latest, emitted := states[i].previous.value, states[i].emitted;
    forall id | id in EndsRunning(latest) && !Stale(states, events, i, id) ensures id in Active(emitted) {
      TurnIsToldExactly(states, events, i, id);
      ActiveIsKnownRunning(emitted, id);
    }
    if AllDistinct(states, events) {
      DistinctRun(states, events, i);
      DistinctActive(emitted, latest);
    }
  }

  /** Every history the server ever has lists each turn once. */
  ghost predicate AllDistinct(states: seq<TaskEvents.State>, events: seq<TaskEvents.Event>)
    requires 0 < |states|
  {
    Distinct(states[0].server) && forall e :: e in events && e.ServerChanges? ==> Distinct(e.history)
  }

  lemma DistinctRun(states: seq<TaskEvents.State>, events: seq<TaskEvents.Event>, i: nat)
    requires Run(states, events) && i < |states| && states[i].previous.Some? && AllDistinct(states, events)
    ensures SnapshotsDistinct(states[i].emitted) && Distinct(states[i].previous.value)
    ensures Replays(Known(states[i].emitted), states[i].previous.value)
  {
    RunKeeps(states, events, i);
    EmittedSnapshotsDistinct(states, events, i);
    ReproducedIsReplayed(Known(states[i].emitted), states[i].previous.value);
  }

  lemma ReproducedIsReplayed(known: map<TurnId, LocalTurn>, history: History)
    requires Reproduces(known, history)
    ensures Replays(known, history)
  {
    forall id | id in ById(history) ensures id in known && known[id] == ById(history)[id] {
      ListedIsById(history, id);
    }
  }

  /** In every run, whatever the histories list: an idle verdict given inside a diff is true of the history that diff
      belongs to, as it ends, if and only if every unread report that runs at last is hidden and no turn that ends it
      running is stale; with distinct turns, if and only if nothing the diff still has to report is running. */
  lemma IdleVerdictInsideDiff(
    states: seq<TaskEvents.State>, events: seq<TaskEvents.Event>, i: nat, at: nat, requireActivity: bool)
    requires Run(states, events) && i < |events| && events[i].DeliverHistory? && states[i].previous.Some?
    requires |states[i].emitted| <= at && Decides(states[i + 1].emitted, at, requireActivity)
    requires !states[i + 1].emitted[at].TaskRemoved?
    ensures states[i + 1].previous.Some?
    ensures var latest := states[i + 1].previous.value;
            EndsRunning(latest) == {}
            <==> && (forall id :: RunsUnread(states[i + 1].emitted, at + 1, id) ==> HidesTurn(states[i], events[i], id))
                 && (forall id :: id in EndsRunning(latest) ==> !Stale(states, events, i + 1, id))
    ensures AllDistinct(states, events) ==>
              (Running(states[i + 1].previous.value) == {} <==> !MoreRunning(states[i + 1].emitted, at + 1))
  {
    hide Active, Known, ById, ChangedTurns, BusyAt, Initialized, Stale, HiddenChange, RunsUnread, Distinct, Running;
    hide MoreRunning;
    var s, stream := states[i], states[i + 1].emitted;
    assert Enabled(s, events[i]) && states[i + 1] == Step(s, events[i]);
    var previous, next, k := s.previous.value, s.phase.history, at + 1 - |s.emitted|;
    var batch := ChangedTurns(previous, next);
    assert stream == s.emitted + batch && stream[..at + 1] == s.emitted + batch[..k];
    IdleMidDiff(s.emitted, previous, next, k);
    var after := at + 1;
    forall id ensures RunsUnread(stream, after, id) <==> RunsUnread(batch, k, id) {
      UnreadShifts(s.emitted, batch, k, id);
    }
    forall id | id in EndsRunning(next) ensures Tells(Known(stream), next, id) <==> !Stale(states, events, i + 1, id) {
      TurnIsToldExactly(states, events, i + 1, id);
    }
    forall id ensures HidesTurn(s, events[i], id) <==> HiddenChange(previous, next, id) {}
    if AllDistinct(states, events) {
      DistinctRun(states, events, i);
      DistinctRun(states, events, i + 1);
      IdleMidDiffExactly(s.emitted, previous, next, k);
      MoreRunningShifts(s.emitted, batch, k);
    }
  }

  lemma MoreRunningShifts(events: seq<TaskEvent>, batch: seq<TaskEvent>, k: nat)
    ensures MoreRunning(events + batch, |events| + k) <==> MoreRunning(batch, k)
  {
    var stream := events + batch;
    if MoreRunning(batch, k) {
      var j :| k <= j < |batch| && batch[j].TurnChanged? && batch[j].turn.status == InProgress;
      assert stream[|events| + j] == batch[j];
    }
    if MoreRunning(stream, |events| + k) {
      var j :| |events| + k <= j < |stream| && stream[j].TurnChanged? && stream[j].turn.status == InProgress;
      assert batch[j - |events|] == stream[j];
    }
  }

  lemma {:induction false} EmittedSnapshotsDistinct(
    states: seq<TaskEvents.State>, events: seq<TaskEvents.Event>, i: nat)
    requires Run(states, events) && i < |states|
    requires Distinct(states[0].server) && forall e :: e in events && e.ServerChanges? ==> Distinct(e.history)
    ensures SnapshotsDistinct(states[i].emitted)
  {
    if i > 0 {
      EmittedSnapshotsDistinct(states, events, i - 1);
      RunKeeps(states, events, i - 1);
      StepKeepsSnapshotsDistinct(states[i - 1], events[i - 1]);
    }
  }

  lemma StepKeepsSnapshotsDistinct(s: TaskEvents.State, e: TaskEvents.Event)
    requires Enabled(s, e) && SnapshotsDistinct(s.emitted)
    requires s.phase.Read? ==> Distinct(s.phase.history)
    ensures SnapshotsDistinct(Step(s, e).emitted)
  {
    if e.DeliverHistory? && s.previous.Some? {
      var batch := ChangedTurns(s.previous.value, s.phase.history);
      forall k | 0 <= k < |batch| ensures !batch[k].Snapshot? {
        ChangesComeFromNext(s.previous.value, s.phase.history, k);
      }
    }
  }

  lemma RunExtends(states: seq<TaskEvents.State>, events: seq<TaskEvents.Event>, e: TaskEvents.Event)
    returns (longer: seq<TaskEvents.State>, more: seq<TaskEvents.Event>)
    requires Run(states, events) && Enabled(states[|events|], e)
    ensures longer == states + [Step(states[|events|], e)] && more == events + [e] && Run(longer, more)
  {
    hide Step, Enabled;
    longer, more := states + [Step(states[|events|], e)], events + [e];
    forall i | 0 <= i < |more| ensures Enabled(longer[i], more[i]) && longer[i + 1] == Step(longer[i], more[i]) {
      if i < |events| { assert longer[i] == states[i] && more[i] == events[i] && longer[i + 1] == states[i + 1]; }
    }
  }

  /** What the diff tells when a running turn is listed again as done, before it is listed running. */
  lemma HidingDiff(id: TurnId)
    ensures var done, running := LocalTurn(id, Completed, []), LocalTurn(id, InProgress, []);
            && ChangedTurns([running], [done, running]) == [TurnChanged(done)]
            && HiddenChange([running], [done, running], id)
            && id in EndsRunning([done, running])
  {
    var done, running := LocalTurn(id, Completed, []), LocalTurn(id, InProgress, []);
    assert [done, running][..1] == [done] && [done][..0] == [] && [running][..0] == [];
    assert ById([running]) == map[id := running];
    assert ChangedTurns([running], [done]) == [TurnChanged(done)];
    assert [done, running][0] == done;
  }

  lemma EndedByHiding(id: TurnId)
    ensures var events := [Snapshot([LocalTurn(id, InProgress, [])]), TurnChanged(LocalTurn(id, Completed, []))];
            Active(events) == {} && Decides(events, 1, true)
  {
    var running := LocalTurn(id, InProgress, []);
    var events := [Snapshot([running]), TurnChanged(LocalTurn(id, Completed, []))];
    assert events[..1] == [Snapshot([running])] && events[..1][..0] == [] && events[..2] == events;
    assert running in [running];
    assert Running([running]) == {id};
    assert Active(events[..1]) == {id};
    assert events[0].Snapshot? && events[..1][0].Snapshot?;
    assert BusyAt(events, 1);
  }

  /** The stream loads its first history. */
  lemma FirstLoad(server: History) returns (states: seq<TaskEvents.State>, events: seq<TaskEvents.Event>)
    ensures Run(states, events) && |states| == |events| + 1
    ensures states[|events|]
            == State([], false, false, false, Streaming, Some(server), [Snapshot(server)], server, false, false)
  {
    hide Run;
    states, events := [Init(server)], [];
    RunBegins(server);
    states, events := RunExtends(states, events, BeginFirstLoad);
    states, events := RunExtends(states, events, ReadHistory);
    states, events := RunExtends(states, events, DeliverHistory);
  }

  /** The server's history changes, and the stream is told and loads it again. */
  lemma NextLoad(states: seq<TaskEvents.State>, events: seq<TaskEvents.Event>, next: History)
    returns (longer: seq<TaskEvents.State>, more: seq<TaskEvents.Event>)
    requires Run(states, events) && |states| == |events| + 1
    requires var s := states[|events|];
             s.phase.Streaming? && s.queue == [] && !s.refreshQueued && !s.removed && !s.closed && s.previous.Some?
    ensures Run(longer, more) && |longer| == |more| + 1 && |more| > |events|
    ensures var s, last := states[|events|], |more| - 1;
            && longer[last].phase == Read(next) && longer[last].previous == s.previous && more[last] == DeliverHistory
            && longer[last + 1] == State([], false, false, false, Streaming, Some(next),
                                         s.emitted + ChangedTurns(s.previous.value, next), next, false, false)
  {
    hide Run, ChangedTurns;
    longer, more := RunExtends(states, events, ServerChanges(next));
    longer, more := RunExtends(longer, more, Notify(StateChanged));
    longer, more := RunExtends(longer, more, TakeSignal);
    longer, more := RunExtends(longer, more, ReadHistory);
    longer, more := RunExtends(longer, more, DeliverHistory);
  }

  /** Without distinct turns the wait can end on a whole diff: a run of the stream in which a turn is listed again as
      done before it is listed running, and the wait for an activity and its end succeeds while it runs. */
  lemma HiddenTurnEndsWait(id: TurnId) returns (states: seq<TaskEvents.State>, events: seq<TaskEvents.Event>)
    ensures Run(states, events) && |states| == |events| + 1
    ensures var s := states[|events|];
            && s.phase.Streaming? && s.queue == [] && s.previous == Some(s.server) && id in EndsRunning(s.server)
            && Active(s.emitted) == {} && |s.emitted| == 2 && Decides(s.emitted, 1, true)
            && Stale(states, events, |events|, id)
  {
    hide Run, ChangedTurns, EndsRunning, Active, Decides, HiddenChange;
    var done, running := LocalTurn(id, Completed, []), LocalTurn(id, InProgress, []);
    HidingDiff(id);
    EndedByHiding(id);
    states, events := FirstLoad([running]);
    states, events := NextLoad(states, events, [done, running]);
    assert states[|events|].emitted == [Snapshot([running]), TurnChanged(done)];
    assert HidesTurn(states[|events| - 1], events[|events| - 1], id);
  }

  lemma RunBegins(server: History)
    ensures Run([Init(server)], [])
  {
  }
}
