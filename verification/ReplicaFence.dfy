/** What the fence of the replica lets through, told without naming its verdicts: no gap goes unnoticed. */
module ReplicaFence {
  import opened Types
  import opened Replica
  import opened ReplicaAgreement

  /** Its revisions are not ones the replica can order. */
  predicate Unreadable(change: Change) {
    !ValidRevision(change.revision) || (change.Patches? && !ValidRevision(change.base))
  }

  /** A change that reaches the replica: it is connected, and the change is of its generation. */
  predicate Reaches(s: State, generation: int) {
    s.connection == Connected && generation == s.generation
  }

  /** The revision the replica has is older than this one, or it has none. */
  predicate IsNewer(revision: Option<int>, than: Option<int>) {
    revision.Some? && (than.None? || revision.value > than.value)
  }

  /** The replica cannot go on from what it has: the change is unreadable, or patches that do not join on. */
  predicate LosesTrack(s: State, change: Change) {
    || Unreadable(change)
    || (change.Patches? && (!s.Ready() || (IsNewer(change.revision, s.revision) && change.base != s.revision)))
  }

  /** The change brings the replica on, or back to synchronization. */
  predicate Advances(s: State, change: Change) {
    !LosesTrack(s, change) && (IsNewer(change.revision, s.revision) || (change.revision == s.revision && !s.Ready()))
  }

  /** Where a change leaves a replica: it keeps what it has, loses track, or is at the change's revision. */
  lemma FenceExactly(s: State, change: Change, generation: int)
    requires Indexed(s)
    ensures var after := Apply(s, change, generation);
            && (!Reaches(s, generation) ==> after == s)
            && (Reaches(s, generation) && LosesTrack(s, change) ==> after == s.(attachment := Following))
            && (Reaches(s, generation) && !LosesTrack(s, change) ==>
                  && (IsNewer(change.revision, s.revision) ==> after.Ready() && after.revision == change.revision)
                  && (change.revision == s.revision ==> after.Ready() && after.revision == s.revision)
                  && (IsNewer(s.revision, change.revision) ==> after == s))
    ensures Verdict(s, change, generation) == Resync <==> Reaches(s, generation) && LosesTrack(s, change)
    ensures Verdict(s, change, generation) == Applied <==> Reaches(s, generation) && Advances(s, change)
  {
  }

  /** A synchronized replica given an unreadable change is synchronized no more, and given a newer one it is at that
      revision or synchronized no more. */
  lemma NoGapGoesUnnoticed(s: State, change: Change)
    requires Indexed(s) && s.Ready()
    ensures var after := Apply(s, change, s.generation);
            && (Unreadable(change) ==> !after.Ready())
            && (IsNewer(change.revision, s.revision) ==> after.revision == change.revision || !after.Ready())
  {
    FenceExactly(s, change, s.generation);
  }

  /** Over runs: as long as a replica stays synchronized, everything delivered to its generation was readable and is no
      newer than what it has. */
  lemma {:induction false} NothingMissedWhileSynchronized(events: seq<Event>, i: nat, j: nat)
    requires i <= j <= |events|
    requires forall m :: i <= m <= j ==> Exec(events[..m]).Ready()
    ensures Exec(events[..j]).revision.Some? && Exec(events[..j]).generation == Exec(events[..i]).generation
    ensures forall m :: i <= m < j && events[m].Deliver? && events[m].generation == Exec(events[..i]).generation ==>
              !Unreadable(events[m].change) && !IsNewer(events[m].change.revision, Exec(events[..j]).revision)
  {
    hide Exec, Apply;
    IndexesStayLinked(events[..j]);
    if i < j {
      var before, e := Exec(events[..j - 1]), events[j - 1];
      NothingMissedWhileSynchronized(events, i, j - 1);
      assert events[..j] == events[..j - 1] + [e];
      ExecAppend(events[..j - 1], e);
      IndexesStayLinked(events[..j - 1]);
      assert before.Ready() && Exec(events[..j]).Ready();
      RevisionGrows(before, e);
      if e.Deliver? { FenceExactly(before, e.change, e.generation); }
    }
  }

  /** Without a revision nothing is shown. */
  lemma {:induction false} NothingShownWithoutRevision(events: seq<Event>)
    ensures Exec(events).revision.None? ==> Exec(events).observed == EMPTY
  {
    if events != [] { NothingShownWithoutRevision(events[..|events| - 1]); }
  }

  // ---------- the injection mark ----------

  /** The i-th event is the last mark. */
  ghost predicate LastMark(events: seq<Event>, i: nat) {
    i < |events| && events[i].Mark? && forall j :: i < j < |events| ==> !events[j].Mark?
  }

  ghost predicate DroppedSince(events: seq<Event>, i: nat) {
    exists j :: i < j < |events| && events[j].Drop?
  }

  /** The replica shows the injection as last marked, only that a running one that lost its connection is uncertain. */
  lemma {:induction false} InjectionIsLastMark(events: seq<Event>)
    ensures (forall i :: 0 <= i < |events| ==> !events[i].Mark?) ==> Exec(events).injection == NoInjection
    ensures forall i: nat :: LastMark(events, i) ==>
              Exec(events).injection
              == if events[i].injection == Injecting && DroppedSince(events, i) then Uncertain
                 else events[i].injection
  {
    if events != [] {
      var front, last := events[..|events| - 1], events[|events| - 1];
      InjectionIsLastMark(front);
      ExecAppend(front, last);
      assert front + [last] == events;
      hide Exec, Apply;
      forall i: nat | LastMark(events, i)
        ensures Exec(events).injection
                == if events[i].injection == Injecting && DroppedSince(events, i) then Uncertain
                   else events[i].injection
      {
        if i < |front| {
          MarkCarries(front, last, i);
        } else {
          assert !DroppedSince(events, i);
        }
      }
      DeliveriesKeepMark(Exec(front), last);
    }
  }

  lemma MarkCarries(events: seq<Event>, e: Event, i: nat)
    requires i < |events| && LastMark(events + [e], i)
    ensures LastMark(events, i) && !e.Mark?
    ensures DroppedSince(events + [e], i) <==> DroppedSince(events, i) || e.Drop?
  {
    var longer := events + [e];
    assert longer[|events|] == e;
    forall j | i < j < |events| ensures !events[j].Mark? { assert longer[j] == events[j]; }
    if DroppedSince(events, i) {
      var j :| i < j < |events| && events[j].Drop?;
      assert longer[j].Drop?;
    }
    if DroppedSince(longer, i) && !e.Drop? {
      var j :| i < j < |longer| && longer[j].Drop?;
      assert events[j].Drop?;
    }
  }

  lemma DeliveriesKeepMark(s: State, e: Event)
    ensures e.Deliver? || e.Connect? || e.Follow? ==> Step(s, e).injection == s.injection
    ensures e.Drop? ==> Step(s, e).injection == if s.injection == Injecting then Uncertain else s.injection
    ensures e.Mark? ==> Step(s, e).injection == e.injection
  {
  }
}
